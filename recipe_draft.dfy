/**
 * The ingredient and instruction lists of the new-recipe form
 * (src/app/recipes/new/page.tsx). Each helper builds a new list from the current
 * one (`filter`, `map`, spread) and hands it to React; here each is a function
 * from the old list to the new one, and `Draft` is the pair of lists the form holds.
 */
module RecipeDraft {
  import opened Wrappers

  /** One ingredient entry of the form: all three fields are free text. */
  datatype Ingredient = Ingredient(name: string, amount: string, unit: string)

  /** The field `updateIngredient` is told to change. */
  datatype IngredientField = Name | Amount | Unit

  /** One instruction entry; `timerMinutes` is absent until the timer input is edited. */
  datatype Instruction = Instruction(stepNumber: int, description: string, timerMinutes: Option<int>)

  /** The field `updateInstruction` is told to change, with its new value. */
  datatype InstructionUpdate =
    | SetStepNumber(stepNumber: int)
    | SetDescription(description: string)
    | SetTimer(minutes: int)

  const BlankIngredient := Ingredient("", "", "")

  // ---------------------------------------------------------------------
  // Removing by position
  // ---------------------------------------------------------------------

  /** `xs.filter((_, i) => i !== index)`, keeping entries one position at a time. */
  function WithoutIndex<T>(xs: seq<T>, index: int): seq<T>
    decreases |xs|
  {
    if xs == [] then []
    else WithoutIndex(xs[..|xs| - 1], index) + (if |xs| - 1 == index then [] else [xs[|xs| - 1]])
  }

  /**
   * Dropping position `index` leaves the entries before it and the entries after
   * it, in their order; an index outside the list drops nothing.
   */
  lemma {:induction false} WithoutIndexSlices<T>(xs: seq<T>, index: int)
    ensures 0 <= index < |xs| ==> WithoutIndex(xs, index) == xs[..index] + xs[index + 1..]
    ensures !(0 <= index < |xs|) ==> WithoutIndex(xs, index) == xs
    decreases |xs|
  {
    if xs != [] {
      var init, last := xs[..|xs| - 1], xs[|xs| - 1];
      assert xs == init + [last];
      WithoutIndexSlices(init, index);
      if |xs| - 1 == index {
        assert WithoutIndex(xs, index) == init;
        assert init == xs[..index] && xs[index + 1..] == [];
      } else if 0 <= index < |xs| {
        assert WithoutIndex(xs, index) == init[..index] + init[index + 1..] + [last];
        assert init[..index] == xs[..index];
        assert init[index + 1..] + [last] == xs[index + 1..];
      } else {
        assert WithoutIndex(xs, index) == init + [last];
      }
    }
  }

  // ---------------------------------------------------------------------
  // Ingredients
  // ---------------------------------------------------------------------

  /** `addIngredient`: one blank entry at the end. */
  function AddIngredient(xs: seq<Ingredient>): (ys: seq<Ingredient>)
    ensures |ys| == |xs| + 1 && ys[..|xs|] == xs && ys[|xs|] == BlankIngredient
  {
    xs + [BlankIngredient]
  }

  /** `removeIngredient(index)`. */
  function RemoveIngredient(xs: seq<Ingredient>, index: int): (ys: seq<Ingredient>)
    ensures 0 <= index < |xs| ==> ys == xs[..index] + xs[index + 1..]
    ensures !(0 <= index < |xs|) ==> ys == xs
  {
    WithoutIndexSlices(xs, index);
    WithoutIndex(xs, index)
  }

  /** The value of one field of an ingredient (`ing[field]`). */
  function FieldOf(ing: Ingredient, field: IngredientField): string {
    match field
    case Name => ing.name
    case Amount => ing.amount
    case Unit => ing.unit
  }

  /** `{ ...ing, [field]: value }`. */
  function WithField(ing: Ingredient, field: IngredientField, value: string): Ingredient {
    match field
    case Name => ing.(name := value)
    case Amount => ing.(amount := value)
    case Unit => ing.(unit := value)
  }

  /** `updateIngredient(index, field, value)`: only that field of that entry changes. */
  function UpdateIngredient(xs: seq<Ingredient>, index: int, field: IngredientField, value: string): (ys: seq<Ingredient>)
    ensures |ys| == |xs|
    ensures forall k :: 0 <= k < |xs| && k != index ==> ys[k] == xs[k]
    ensures 0 <= index < |xs| ==> FieldOf(ys[index], field) == value
    ensures 0 <= index < |xs| ==>
      forall f :: f != field ==> FieldOf(ys[index], f) == FieldOf(xs[index], f)
  {
    seq(|xs|, k requires 0 <= k < |xs| => if k == index then WithField(xs[k], field, value) else xs[k])
  }

  // ---------------------------------------------------------------------
  // Instructions
  // ---------------------------------------------------------------------

  /** Every entry's step number is its position plus one. */
  predicate WellNumbered(xs: seq<Instruction>) {
    forall k :: 0 <= k < |xs| ==> xs[k].stepNumber == k + 1
  }

  /** `addInstruction`: a blank step numbered one past the old length. */
  function AddInstruction(xs: seq<Instruction>): (ys: seq<Instruction>)
    ensures |ys| == |xs| + 1 && ys[..|xs|] == xs
    ensures ys[|xs|] == Instruction(|xs| + 1, "", None)
    ensures WellNumbered(xs) ==> WellNumbered(ys)
  {
    xs + [Instruction(|xs| + 1, "", None)]
  }

  /** `filtered.map((inst, i) => ({ ...inst, step_number: i + 1 }))`. */
  function Renumber(xs: seq<Instruction>): (ys: seq<Instruction>)
    ensures |ys| == |xs| && WellNumbered(ys)
    ensures forall k :: 0 <= k < |xs| ==> ys[k] == xs[k].(stepNumber := k + 1)
  {
    seq(|xs|, k requires 0 <= k < |xs| => xs[k].(stepNumber := k + 1))
  }

  /**
   * `removeInstruction(index)`: the other steps keep their order and contents and
   * are numbered 1..n-1 again, whatever their numbers were.
   */
  function RemoveInstruction(xs: seq<Instruction>, index: int): (ys: seq<Instruction>)
    ensures WellNumbered(ys)
    ensures 0 <= index < |xs| ==> |ys| == |xs| - 1
    ensures 0 <= index < |xs| ==>
      forall k :: 0 <= k < |ys| ==>
        ys[k] == (if k < index then xs[k] else xs[k + 1]).(stepNumber := k + 1)
    ensures !(0 <= index < |xs|) ==> ys == Renumber(xs)
  {
    WithoutIndexSlices(xs, index);
    Renumber(WithoutIndex(xs, index))
  }

  /** `{ ...inst, [field]: value }`. */
  function WithUpdate(inst: Instruction, update: InstructionUpdate): Instruction {
    match update
    case SetStepNumber(n) => inst.(stepNumber := n)
    case SetDescription(d) => inst.(description := d)
    case SetTimer(m) => inst.(timerMinutes := Some(m))
  }

  /** `updateInstruction(index, field, value)`: only that field of that entry changes. */
  function UpdateInstruction(xs: seq<Instruction>, index: int, update: InstructionUpdate): (ys: seq<Instruction>)
    ensures |ys| == |xs|
    ensures forall k :: 0 <= k < |xs| && k != index ==> ys[k] == xs[k]
    ensures 0 <= index < |xs| ==> match update
      case SetStepNumber(n) => ys[index] == xs[index].(stepNumber := n)
      case SetDescription(d) => ys[index] == xs[index].(description := d)
      case SetTimer(m) => ys[index] == xs[index].(timerMinutes := Some(m))
    ensures !update.SetStepNumber? && WellNumbered(xs) ==> WellNumbered(ys)
  {
    seq(|xs|, k requires 0 <= k < |xs| => if k == index then WithUpdate(xs[k], update) else xs[k])
  }

  // ---------------------------------------------------------------------
  // The form's lists under editing
  // ---------------------------------------------------------------------

  /** The two lists the form holds. */
  datatype Draft = Draft(ingredients: seq<Ingredient>, instructions: seq<Instruction>)

  /** The state the form starts in: one blank ingredient and one blank step numbered 1. */
  const InitialDraft := Draft([BlankIngredient], [Instruction(1, "", None)])

  /**
   * What the user can do to the lists. The form's inputs edit an instruction's
   * description and timer only (the timer input passes `parseInt(value) || 0`,
   * given here already as an integer). The delete buttons are rendered only while
   * a list holds more than one entry.
   */
  datatype Edit =
    | AddIngredientRow
    | RemoveIngredientRow(index: int)
    | EditIngredient(index: int, field: IngredientField, value: string)
    | AddInstructionRow
    | RemoveInstructionRow(index: int)
    | EditDescription(index: int, text: string)
    | EditTimer(index: int, minutes: int)

  /** One user action applied to the lists, with the delete buttons' visibility guard. */
  function ApplyEdit(d: Draft, e: Edit): Draft {
    match e
    case AddIngredientRow => d.(ingredients := AddIngredient(d.ingredients))
    case RemoveIngredientRow(i) =>
      if |d.ingredients| > 1 then d.(ingredients := RemoveIngredient(d.ingredients, i)) else d
    case EditIngredient(i, f, v) => d.(ingredients := UpdateIngredient(d.ingredients, i, f, v))
    case AddInstructionRow => d.(instructions := AddInstruction(d.instructions))
    case RemoveInstructionRow(i) =>
      if |d.instructions| > 1 then d.(instructions := RemoveInstruction(d.instructions, i)) else d
    case EditDescription(i, t) => d.(instructions := UpdateInstruction(d.instructions, i, SetDescription(t)))
    case EditTimer(i, m) => d.(instructions := UpdateInstruction(d.instructions, i, SetTimer(m)))
  }

  /** A run of user actions, first to last. */
  function ApplyEdits(d: Draft, es: seq<Edit>): Draft
    decreases |es|
  {
    if es == [] then d else ApplyEdits(ApplyEdit(d, es[0]), es[1..])
  }

  /** Neither list is ever empty and the steps are numbered by position. */
  predicate EditorInvariant(d: Draft) {
    |d.ingredients| >= 1 && |d.instructions| >= 1 && WellNumbered(d.instructions)
  }

  lemma EditPreservesInvariant(d: Draft, e: Edit)
    requires EditorInvariant(d)
    ensures EditorInvariant(ApplyEdit(d, e))
  {
  }

  /** Whatever the user does from the initial form, the editor invariant holds. */
  lemma {:induction false} EditingKeepsInvariant(d: Draft, es: seq<Edit>)
    requires EditorInvariant(d)
    ensures EditorInvariant(ApplyEdits(d, es))
    decreases |es|
  {
    if es != [] {
      EditPreservesInvariant(d, es[0]);
      EditingKeepsInvariant(ApplyEdit(d, es[0]), es[1..]);
    }
  }

  /**
   * From the form's initial state, after any run of user actions, both lists are
   * non-empty and every step is numbered by its position.
   */
  lemma EditsFromInitialDraftKeepInvariant(es: seq<Edit>)
    ensures |ApplyEdits(InitialDraft, es).ingredients| >= 1
    ensures |ApplyEdits(InitialDraft, es).instructions| >= 1
    ensures forall k :: 0 <= k < |ApplyEdits(InitialDraft, es).instructions| ==>
      ApplyEdits(InitialDraft, es).instructions[k].stepNumber == k + 1
  {
    assert EditorInvariant(InitialDraft);
    EditingKeepsInvariant(InitialDraft, es);
  }
}
