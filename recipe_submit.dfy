/**
 * Saving a new recipe: `handleSubmit` of src/app/recipes/new/page.tsx. It asks
 * the auth service for the current user, inserts the recipe row, then the
 * non-blank ingredients and the non-blank instructions, stopping at the first
 * insert that fails.
 *
 * The hosted database is modelled by `Backend`: the three tables as sequences,
 * the signed-in user, the set of tables whose inserts the service refuses on
 * this submission, and the log of insert requests in the order they were sent.
 */
module RecipeSubmit {
  import opened Wrappers
  import opened Text
  import opened RecipeDraft

  type UserId = string
  type RecipeId = nat

  // ---------------------------------------------------------------------
  // Keeping the entries that are filled in
  // ---------------------------------------------------------------------

  /** `xs.filter(keep)`, deciding one entry at a time. */
  function Filter<T>(xs: seq<T>, keep: T -> bool): (ys: seq<T>)
    ensures |ys| <= |xs|
    decreases |xs|
  {
    if xs == [] then []
    else Filter(xs[..|xs| - 1], keep) + (if keep(xs[|xs| - 1]) then [xs[|xs| - 1]] else [])
  }

  /** The positions of the entries `keep` accepts, in increasing order. */
  function KeptPositions<T>(xs: seq<T>, keep: T -> bool): seq<nat>
    decreases |xs|
  {
    if xs == [] then []
    else KeptPositions(xs[..|xs| - 1], keep) + (if keep(xs[|xs| - 1]) then [|xs| - 1] else [])
  }

  /** Every kept position is a position of `xs` whose entry `keep` accepts. */
  lemma {:induction false} KeptPositionsAccepted<T>(xs: seq<T>, keep: T -> bool)
    ensures forall j :: 0 <= j < |KeptPositions(xs, keep)| ==>
      KeptPositions(xs, keep)[j] < |xs| && keep(xs[KeptPositions(xs, keep)[j]])
    decreases |xs|
  {
    if xs != [] {
      var init := xs[..|xs| - 1];
      KeptPositionsAccepted(init, keep);
      var ps0 := KeptPositions(init, keep);
      forall j | 0 <= j < |ps0| ensures ps0[j] < |xs| - 1 && keep(xs[ps0[j]]) {
        assert init[ps0[j]] == xs[ps0[j]];
      }
    }
  }

  /** The kept positions are strictly increasing: the original order is kept. */
  lemma {:induction false} KeptPositionsIncreasing<T>(xs: seq<T>, keep: T -> bool)
    ensures forall j, k :: 0 <= j < k < |KeptPositions(xs, keep)| ==>
      KeptPositions(xs, keep)[j] < KeptPositions(xs, keep)[k]
    decreases |xs|
  {
    if xs != [] {
      var init := xs[..|xs| - 1];
      KeptPositionsIncreasing(init, keep);
      KeptPositionsAccepted(init, keep);
    }
  }

  /** Every accepted entry's position is kept. */
  lemma {:induction false} KeptPositionsComplete<T>(xs: seq<T>, keep: T -> bool)
    ensures forall i :: 0 <= i < |xs| && keep(xs[i]) ==> i in KeptPositions(xs, keep)
    decreases |xs|
  {
    if xs != [] {
      var init := xs[..|xs| - 1];
      KeptPositionsComplete(init, keep);
      forall i | 0 <= i < |xs| - 1 && keep(xs[i]) ensures i in KeptPositions(xs, keep) {
        assert init[i] == xs[i];
      }
    }
  }

  /** The j-th entry `Filter` keeps is the entry at the j-th kept position. */
  lemma {:induction false} FilterAtKept<T>(xs: seq<T>, keep: T -> bool)
    ensures var ps := KeptPositions(xs, keep);
      && |Filter(xs, keep)| == |ps|
      && forall j :: 0 <= j < |ps| ==> ps[j] < |xs| && Filter(xs, keep)[j] == xs[ps[j]]
    decreases |xs|
  {
    KeptPositionsAccepted(xs, keep);
    if xs != [] {
      var init := xs[..|xs| - 1];
      FilterAtKept(init, keep);
      KeptPositionsAccepted(init, keep);
      var ps0 := KeptPositions(init, keep);
      forall j | 0 <= j < |ps0| ensures init[ps0[j]] == xs[ps0[j]] {
      }
    }
  }

  /**
   * `Filter` keeps exactly the accepted entries, in their original order: its
   * j-th result is the entry at the j-th accepted position.
   */
  lemma FilterSelectsKept<T>(xs: seq<T>, keep: T -> bool)
    ensures var ps := KeptPositions(xs, keep);
      && |Filter(xs, keep)| == |ps|
      && (forall j :: 0 <= j < |ps| ==> ps[j] < |xs| && keep(xs[ps[j]]) && Filter(xs, keep)[j] == xs[ps[j]])
      && (forall j, k :: 0 <= j < k < |ps| ==> ps[j] < ps[k])
      && (forall i :: 0 <= i < |xs| && keep(xs[i]) ==> i in ps)
  {
    KeptPositionsAccepted(xs, keep);
    KeptPositionsIncreasing(xs, keep);
    KeptPositionsComplete(xs, keep);
    FilterAtKept(xs, keep);
  }

  /**
   * `ing.name.trim()` is truthy. Stated as "not all whitespace", which
   * `TrimmedTextIsFilled` shows is the same test.
   */
  predicate HasName(ing: Ingredient) {
    !IsBlank(ing.name)
  }

  /** `inst.description.trim()` is truthy, stated the same way. */
  predicate HasDescription(inst: Instruction) {
    !IsBlank(inst.description)
  }

  /** Both filters keep an entry exactly when the trimmed text is non-empty. */
  lemma TrimmedTextIsFilled(ing: Ingredient, inst: Instruction)
    ensures HasName(ing) <==> Trim(ing.name) != []
    ensures HasDescription(inst) <==> Trim(inst.description) != []
  {
    TrimEmptyIffBlank(ing.name);
    TrimEmptyIffBlank(inst.description);
  }

  /** `validIngredients`. */
  function ValidIngredients(xs: seq<Ingredient>): seq<Ingredient> {
    Filter(xs, HasName)
  }

  /** `validInstructions`. */
  function ValidInstructions(xs: seq<Instruction>): seq<Instruction> {
    Filter(xs, HasDescription)
  }

  // ---------------------------------------------------------------------
  // Rows sent to the database
  // ---------------------------------------------------------------------

  /** `s || null` for a string: the empty string becomes `null`. */
  function OrNull(s: string): Option<string> {
    if s == "" then None else Some(s)
  }

  /** The text inputs of the form, as typed. */
  datatype RecipeForm = RecipeForm(
    title: string,
    description: string,
    categoryId: string,
    prepTime: string,
    cookTime: string,
    servings: string,
    difficulty: string,
    imageUrl: string,
    notes: string,
    isPublic: bool)

  /** The columns of a recipe row other than its generated id. */
  datatype RecipeFields = RecipeFields(
    userId: UserId,
    title: string,
    description: Option<string>,
    categoryId: Option<string>,
    prepTime: Option<int>,
    cookTime: Option<int>,
    servings: Option<int>,
    difficulty: Option<int>,
    imageUrl: Option<string>,
    notes: Option<string>,
    isPublic: bool)

  datatype RecipeRow = RecipeRow(id: RecipeId, fields: RecipeFields)

  /**
   * The object passed to `insert` for the recipe. Text columns use `value || null`;
   * the optional times are parsed only when non-empty, and `parseInt`'s NaN
   * reaches the database as `null`.
   */
  function RecipeFieldsOf(form: RecipeForm, user: UserId): RecipeFields
  {
    RecipeFields(
      user,
      form.title,
      OrNull(form.description),
      OrNull(form.categoryId),
      if form.prepTime != "" then JsParseInt(form.prepTime) else None,
      if form.cookTime != "" then JsParseInt(form.cookTime) else None,
      JsParseInt(form.servings),
      JsParseInt(form.difficulty),
      OrNull(form.imageUrl),
      OrNull(form.notes),
      form.isPublic)
  }

  /** Each column of the recipe row, stated against the form's inputs. */
  lemma RecipeColumns(form: RecipeForm, user: UserId)
    ensures var f := RecipeFieldsOf(form, user);
      && f.userId == user && f.title == form.title && f.isPublic == form.isPublic
      && f.description == (if form.description == "" then None else Some(form.description))
      && f.categoryId == (if form.categoryId == "" then None else Some(form.categoryId))
      && f.imageUrl == (if form.imageUrl == "" then None else Some(form.imageUrl))
      && f.notes == (if form.notes == "" then None else Some(form.notes))
      && f.prepTime == (if form.prepTime == "" then None else JsParseInt(form.prepTime))
      && f.cookTime == (if form.cookTime == "" then None else JsParseInt(form.cookTime))
      && f.servings == JsParseInt(form.servings)
      && f.difficulty == JsParseInt(form.difficulty)
    // a number typed as plain digits is stored as its decimal value
    ensures var f := RecipeFieldsOf(form, user);
      && (form.prepTime != "" && IsDigits(form.prepTime) ==> f.prepTime == Some(DigitsValue(form.prepTime)))
      && (form.cookTime != "" && IsDigits(form.cookTime) ==> f.cookTime == Some(DigitsValue(form.cookTime)))
      && (form.servings != "" && IsDigits(form.servings) ==> f.servings == Some(DigitsValue(form.servings)))
      && (form.difficulty != "" && IsDigits(form.difficulty) ==> f.difficulty == Some(DigitsValue(form.difficulty)))
  {
    if form.prepTime != "" && IsDigits(form.prepTime) { JsParseIntOnDigits(form.prepTime); }
    if form.cookTime != "" && IsDigits(form.cookTime) { JsParseIntOnDigits(form.cookTime); }
    if form.servings != "" && IsDigits(form.servings) { JsParseIntOnDigits(form.servings); }
    if form.difficulty != "" && IsDigits(form.difficulty) { JsParseIntOnDigits(form.difficulty); }
  }

  datatype IngredientRow = IngredientRow(
    recipeId: RecipeId,
    name: string,
    amount: Option<string>,
    unit: Option<string>,
    orderIndex: nat)

  datatype InstructionRow = InstructionRow(
    recipeId: RecipeId,
    stepNumber: int,
    description: string,
    timerMinutes: Option<int>)

  /** `validIngredients.map((ing, index) => ...)`: position becomes `order_index`. */
  function IngredientRows(valid: seq<Ingredient>, id: RecipeId): (rows: seq<IngredientRow>)
    ensures |rows| == |valid|
    ensures forall row :: row in rows ==> row.recipeId == id
    ensures forall j :: 0 <= j < |rows| ==>
      && rows[j].orderIndex == j
      && rows[j].name == valid[j].name
      && rows[j].amount == (if valid[j].amount == "" then None else Some(valid[j].amount))
      && rows[j].unit == (if valid[j].unit == "" then None else Some(valid[j].unit))
  {
    seq(|valid|, i requires 0 <= i < |valid| =>
      IngredientRow(id, valid[i].name, OrNull(valid[i].amount), OrNull(valid[i].unit), i))
  }

  /** `inst.timer_minutes || null`: absent and 0 both become `null`. */
  function TimerOrNull(t: Option<int>): Option<int> {
    match t
    case None => None
    case Some(m) => if m == 0 then None else Some(m)
  }

  /** `validInstructions.map(inst => ...)`: the step number is passed through as it is. */
  function InstructionRows(valid: seq<Instruction>, id: RecipeId): (rows: seq<InstructionRow>)
    ensures |rows| == |valid|
    ensures forall row :: row in rows ==> row.recipeId == id
    ensures forall j :: 0 <= j < |rows| ==>
      && rows[j].stepNumber == valid[j].stepNumber
      && rows[j].description == valid[j].description
      && rows[j].timerMinutes == (if valid[j].timerMinutes == Some(0) then None else valid[j].timerMinutes)
  {
    seq(|valid|, i requires 0 <= i < |valid| =>
      InstructionRow(id, valid[i].stepNumber, valid[i].description, TimerOrNull(valid[i].timerMinutes)))
  }

  /**
   * The ingredient rows are the entries whose name is not all whitespace, in
   * their order, numbered 0..k-1, with amount and unit stored as typed and an
   * empty one as `null`.
   */
  lemma IngredientRowsSelectNamed(xs: seq<Ingredient>, id: RecipeId)
    ensures var rows, ps := IngredientRows(ValidIngredients(xs), id), KeptPositions(xs, HasName);
      && |rows| == |ps|
      && (forall j :: 0 <= j < |rows| ==>
            && rows[j].orderIndex == j
            && rows[j].recipeId == id
            && ps[j] < |xs|
            && rows[j].name == xs[ps[j]].name
            && !IsBlank(rows[j].name)
            && rows[j].amount == (if xs[ps[j]].amount == "" then None else Some(xs[ps[j]].amount))
            && rows[j].unit == (if xs[ps[j]].unit == "" then None else Some(xs[ps[j]].unit)))
      && (forall j, k :: 0 <= j < k < |ps| ==> ps[j] < ps[k])
      && (forall i :: 0 <= i < |xs| && !IsBlank(xs[i].name) ==> i in ps)
  {
    FilterSelectsKept(xs, HasName);
  }

  /**
   * The instruction rows are the entries whose description is not all
   * whitespace, in their order, each keeping its own step number, and its timer
   * unless that is 0.
   */
  lemma InstructionRowsSelectDescribed(xs: seq<Instruction>, id: RecipeId)
    ensures |InstructionRows(ValidInstructions(xs), id)| == |KeptPositions(xs, HasDescription)|
    ensures forall j :: 0 <= j < |InstructionRows(ValidInstructions(xs), id)| ==>
      KeptPositions(xs, HasDescription)[j] < |xs| &&
      var row, src := InstructionRows(ValidInstructions(xs), id)[j], xs[KeptPositions(xs, HasDescription)[j]];
      && row.recipeId == id
      && row.stepNumber == src.stepNumber
      && row.description == src.description
      && !IsBlank(row.description)
      && row.timerMinutes == (if src.timerMinutes == Some(0) then None else src.timerMinutes)
    ensures forall j, k :: 0 <= j < k < |KeptPositions(xs, HasDescription)| ==>
      KeptPositions(xs, HasDescription)[j] < KeptPositions(xs, HasDescription)[k]
    ensures forall i :: 0 <= i < |xs| && !IsBlank(xs[i].description) ==> i in KeptPositions(xs, HasDescription)
  {
    FilterSelectsKept(xs, HasDescription);
  }

  /**
   * From a form whose steps are numbered by position (the editor invariant), the
   * saved step numbers are the kept positions plus one: strictly increasing, and
   * 1..k exactly when no blank step precedes a filled one.
   */
  lemma SavedStepsFollowPositions(xs: seq<Instruction>, id: RecipeId)
    requires WellNumbered(xs)
    ensures var rows, ps := InstructionRows(ValidInstructions(xs), id), KeptPositions(xs, HasDescription);
      && |rows| == |ps|
      && (forall j :: 0 <= j < |rows| ==> rows[j].stepNumber == ps[j] + 1)
      && (forall j, k :: 0 <= j < k < |rows| ==> rows[j].stepNumber < rows[k].stepNumber)
  {
    InstructionRowsSelectDescribed(xs, id);
  }

  /** With no blank step at all, the saved steps are numbered 1..n. */
  lemma {:induction false} NoBlankStepsKeepNumbering(xs: seq<Instruction>, id: RecipeId)
    requires WellNumbered(xs)
    requires forall i :: 0 <= i < |xs| ==> HasDescription(xs[i])
    ensures var rows := InstructionRows(ValidInstructions(xs), id);
      |rows| == |xs| && forall j :: 0 <= j < |rows| ==> rows[j].stepNumber == j + 1
  {
    FilterAll(xs, HasDescription);
  }

  lemma {:induction false} FilterAll<T>(xs: seq<T>, keep: T -> bool)
    requires forall i :: 0 <= i < |xs| ==> keep(xs[i])
    ensures Filter(xs, keep) == xs
    decreases |xs|
  {
    if xs != [] {
      FilterAll(xs[..|xs| - 1], keep);
      assert xs[..|xs| - 1] + [xs[|xs| - 1]] == xs;
    }
  }

  /** Filtering one more entry keeps it at the end exactly when it is accepted. */
  lemma FilterSnoc<T>(xs: seq<T>, x: T, keep: T -> bool)
    ensures Filter(xs + [x], keep) == Filter(xs, keep) + (if keep(x) then [x] else [])
  {
    assert (xs + [x])[..|xs|] == xs;
  }

  /**
   * A blank entry between two named ones is dropped and the order indices close
   * up: the two rows are numbered 0 and 1.
   */
  lemma BlankIngredientDropped(a: Ingredient, b: Ingredient, c: Ingredient, id: RecipeId)
    requires HasName(a) && !HasName(b) && HasName(c)
    ensures IngredientRows(ValidIngredients([a, b, c]), id)
      == [IngredientRow(id, a.name, OrNull(a.amount), OrNull(a.unit), 0),
          IngredientRow(id, c.name, OrNull(c.amount), OrNull(c.unit), 1)]
  {
    FilterSnoc([], a, HasName);
    FilterSnoc([a], b, HasName);
    FilterSnoc([a, b], c, HasName);
    assert [a] == [] + [a] && [a, b] == [a] + [b] && [a, b, c] == [a, b] + [c];
    assert ValidIngredients([a, b, c]) == [a, c];
  }

  /**
   * The step numbers are not closed up: from steps numbered 1, 2, 3 with a blank
   * middle one, the saved steps are numbered 1 and 3.
   */
  lemma BlankStepLeavesGap(a: Instruction, b: Instruction, c: Instruction, id: RecipeId)
    requires WellNumbered([a, b, c])
    requires HasDescription(a) && !HasDescription(b) && HasDescription(c)
    ensures |InstructionRows(ValidInstructions([a, b, c]), id)| == 2
    ensures InstructionRows(ValidInstructions([a, b, c]), id)[0].stepNumber == 1
    ensures InstructionRows(ValidInstructions([a, b, c]), id)[1].stepNumber == 3
  {
    FilterSnoc([], a, HasDescription);
    FilterSnoc([a], b, HasDescription);
    FilterSnoc([a, b], c, HasDescription);
    assert [a] == [] + [a] && [a, b] == [a] + [b] && [a, b, c] == [a, b] + [c];
    assert ValidInstructions([a, b, c]) == [a, c];
    assert [a, b, c][0] == a && [a, b, c][2] == c;
  }

  // ---------------------------------------------------------------------
  // The database and the submission
  // ---------------------------------------------------------------------

  datatype Table = Recipes | Ingredients | Instructions

  /** The child inserts planned after the recipe's own: each list with a filled entry, ingredients first. */
  function ChildPlan(ingredients: seq<Ingredient>, instructions: seq<Instruction>): seq<Table> {
    (if |ValidIngredients(ingredients)| > 0 then [Ingredients] else [])
    + (if |ValidInstructions(instructions)| > 0 then [Instructions] else [])
  }

  /** The inserts a submission sends if none fails: the recipe, then each non-empty child list. */
  function PlannedInserts(ingredients: seq<Ingredient>, instructions: seq<Instruction>): (plan: seq<Table>)
    ensures |plan| >= 1 && plan[0] == Recipes
    ensures Ingredients in plan <==> |ValidIngredients(ingredients)| > 0
    ensures Instructions in plan <==> |ValidInstructions(instructions)| > 0
  {
    [Recipes] + ChildPlan(ingredients, instructions)
  }

  /**
   * The inserts actually sent when the service refuses those into `rejects`: the
   * planned ones up to and including the first refused one.
   */
  function Attempted(plan: seq<Table>, rejects: set<Table>): (sent: seq<Table>)
    ensures |sent| <= |plan| && sent == plan[..|sent|]
    ensures plan != [] ==> sent != []
    ensures forall k :: 0 <= k < |sent| - 1 ==> sent[k] !in rejects
    ensures |sent| < |plan| ==> sent[|sent| - 1] in rejects
    decreases |plan|
  {
    if plan == [] then []
    else if plan[0] in rejects then [plan[0]]
    else [plan[0]] + Attempted(plan[1..], rejects)
  }

  /** Where the page goes after a submission. */
  datatype SubmitOutcome =
    | RedirectToLogin      // no signed-in user
    | ShowRecipe(id: RecipeId)   // everything saved
    | SaveFailedAlert      // an insert failed; the alert is shown

  class Backend {
    var currentUser: Option<UserId>
    var rejects: set<Table>
    var recipes: seq<RecipeRow>
    var ingredients: seq<IngredientRow>
    var instructions: seq<InstructionRow>
    var nextId: RecipeId
    var requests: seq<Table>

    /** The ids of the stored recipes. */
    ghost function RecipeIds(): set<RecipeId>
      reads this
    {
      set r | r in recipes :: r.id
    }

    /** Ids are below the next one to be handed out, and every child row refers to a stored recipe. */
    ghost predicate Valid()
      reads this
    {
      && (forall r :: r in recipes ==> r.id < nextId)
      && (forall row :: row in ingredients ==> row.recipeId in RecipeIds())
      && (forall row :: row in instructions ==> row.recipeId in RecipeIds())
    }

    constructor (user: Option<UserId>, refused: set<Table>)
      ensures Valid()
      ensures currentUser == user && rejects == refused
      ensures recipes == [] && ingredients == [] && instructions == [] && requests == []
    {
      currentUser := user;
      rejects := refused;
      recipes, ingredients, instructions := [], [], [];
      nextId := 0;
      requests := [];
    }

    /** `supabase.auth.getUser()`. */
    method GetUser() returns (user: Option<UserId>)
      ensures user == currentUser
    {
      user := currentUser;
    }

    /** `from('recipes').insert(fields).select().single()`: the stored row, or `None` on an error. */
    method InsertRecipe(fields: RecipeFields) returns (saved: Option<RecipeRow>)
      requires Valid()
      modifies this
      ensures Valid()
      ensures requests == old(requests) + [Recipes]
      ensures Recipes in rejects ==> saved.None? && recipes == old(recipes) && nextId == old(nextId)
      ensures Recipes !in rejects ==>
        && saved == Some(RecipeRow(old(nextId), fields))
        && recipes == old(recipes) + [saved.value]
        && nextId == old(nextId) + 1
      ensures ingredients == old(ingredients) && instructions == old(instructions)
      ensures currentUser == old(currentUser) && rejects == old(rejects)
    {
      requests := requests + [Recipes];
      if Recipes in rejects {
        saved := None;
      } else {
        var row := RecipeRow(nextId, fields);
        recipes := recipes + [row];
        nextId := nextId + 1;
        saved := Some(row);
      }
    }

    /** `from('ingredients').insert(rows)`: all rows or none. */
    method InsertIngredients(rows: seq<IngredientRow>) returns (ok: bool)
      requires Valid()
      requires forall row :: row in rows ==> row.recipeId in RecipeIds()
      modifies this
      ensures Valid()
      ensures requests == old(requests) + [Ingredients]
      ensures ok <==> Ingredients !in rejects
      ensures ingredients == old(ingredients) + (if ok then rows else [])
      ensures recipes == old(recipes) && nextId == old(nextId) && instructions == old(instructions)
      ensures currentUser == old(currentUser) && rejects == old(rejects)
    {
      requests := requests + [Ingredients];
      ok := Ingredients !in rejects;
      if ok {
        ingredients := ingredients + rows;
      }
    }

    /** `from('instructions').insert(rows)`: all rows or none. */
    method InsertInstructions(rows: seq<InstructionRow>) returns (ok: bool)
      requires Valid()
      requires forall row :: row in rows ==> row.recipeId in RecipeIds()
      modifies this
      ensures Valid()
      ensures requests == old(requests) + [Instructions]
      ensures ok <==> Instructions !in rejects
      ensures instructions == old(instructions) + (if ok then rows else [])
      ensures recipes == old(recipes) && nextId == old(nextId) && ingredients == old(ingredients)
      ensures currentUser == old(currentUser) && rejects == old(rejects)
    {
      requests := requests + [Instructions];
      ok := Instructions !in rejects;
      if ok {
        instructions := instructions + rows;
      }
    }
  }

  /** What one submission does: the inserts sent, the rows each table gains, and the page's outcome. */
  datatype Submission = Submission(
    sent: seq<Table>,
    recipes: seq<RecipeRow>,
    ingredients: seq<IngredientRow>,
    instructions: seq<InstructionRow>,
    outcome: SubmitOutcome)

  /**
   * The part of a submission after the recipe row `id` is stored: the ingredient
   * insert, then the instruction insert, each skipped for a list with no filled
   * entry, stopping at the first one the service refuses.
   */
  function ChildSubmission(rejects: set<Table>, id: RecipeId,
                           ingredients: seq<Ingredient>, instructions: seq<Instruction>): (sub: Submission)
    ensures sub.recipes == []
    ensures sub.outcome == ShowRecipe(id) || sub.outcome == SaveFailedAlert
    ensures sub.outcome == ShowRecipe(id) <==> forall t :: t in ChildPlan(ingredients, instructions) ==> t !in rejects
    ensures sub.ingredients == [] || sub.ingredients == IngredientRows(ValidIngredients(ingredients), id)
    ensures sub.instructions == [] || sub.instructions == InstructionRows(ValidInstructions(instructions), id)
  {
    var ings, insts := ValidIngredients(ingredients), ValidInstructions(instructions);
    if |ings| > 0 && Ingredients in rejects then
      Submission([Ingredients], [], [], [], SaveFailedAlert)
    else
      var ingSent := if |ings| > 0 then [Ingredients] else [];
      var ingRows := IngredientRows(ings, id);
      if |insts| > 0 && Instructions in rejects then
        Submission(ingSent + [Instructions], [], ingRows, [], SaveFailedAlert)
      else
        var instSent := if |insts| > 0 then [Instructions] else [];
        Submission(ingSent + instSent, [], ingRows, InstructionRows(insts, id), ShowRecipe(id))
  }

  /**
   * The effect of `handleSubmit` for the signed-in `user` (if any), a service
   * refusing the inserts into `rejects`, and `id` the id the recipe row would get.
   */
  function Submit(user: Option<UserId>, rejects: set<Table>, id: RecipeId, form: RecipeForm,
                  ingredients: seq<Ingredient>, instructions: seq<Instruction>): (sub: Submission)
    ensures sub.outcome == RedirectToLogin <==> user.None?
    ensures user.None? ==> sub.sent == [] && sub.recipes == [] && sub.ingredients == [] && sub.instructions == []
    ensures |sub.recipes| <= 1
  {
    if user.None? then Submission([], [], [], [], RedirectToLogin)
    else if Recipes in rejects then Submission([Recipes], [], [], [], SaveFailedAlert)
    else
      var children := ChildSubmission(rejects, id, ingredients, instructions);
      children.(sent := [Recipes] + children.sent, recipes := [RecipeRow(id, RecipeFieldsOf(form, user.value))])
  }

  /** After the recipe row, the child inserts are sent up to and including the first refused one. */
  lemma ChildSubmissionSendsPlan(rejects: set<Table>, id: RecipeId,
                                 ingredients: seq<Ingredient>, instructions: seq<Instruction>)
    ensures ChildSubmission(rejects, id, ingredients, instructions).sent
      == Attempted(ChildPlan(ingredients, instructions), rejects)
  {
    var hasIngs := |ValidIngredients(ingredients)| > 0;
    var hasInsts := |ValidInstructions(instructions)| > 0;
    var rest := ChildPlan(ingredients, instructions);
    if hasIngs && hasInsts {
      assert rest == [Ingredients, Instructions];
      assert rest[1..] == [Instructions];
    } else if hasIngs {
      assert rest == [Ingredients];
    } else if hasInsts {
      assert rest == [Instructions];
    } else {
      assert rest == [];
    }
  }

  /**
   * With a user, a submission sends the planned inserts up to and including the
   * first refused one; without one it sends nothing.
   */
  lemma SubmitSendsPlanUntilRefusal(user: Option<UserId>, rejects: set<Table>, id: RecipeId, form: RecipeForm,
                                    ingredients: seq<Ingredient>, instructions: seq<Instruction>)
    ensures Submit(user, rejects, id, form, ingredients, instructions).sent
      == if user.None? then [] else Attempted(PlannedInserts(ingredients, instructions), rejects)
  {
    if user.Some? && Recipes !in rejects {
      var plan := PlannedInserts(ingredients, instructions);
      assert plan[1..] == ChildPlan(ingredients, instructions);
      ChildSubmissionSendsPlan(rejects, id, ingredients, instructions);
    }
  }

  /**
   * The recipe insert is always the first request sent, a refused recipe insert
   * is the only one, and a child insert is sent only for a list with a filled entry.
   */
  lemma RecipeInsertComesFirst(ingredients: seq<Ingredient>, instructions: seq<Instruction>, rejects: set<Table>)
    ensures Attempted(PlannedInserts(ingredients, instructions), rejects)[0] == Recipes
    ensures Recipes in rejects ==> Attempted(PlannedInserts(ingredients, instructions), rejects) == [Recipes]
    ensures Ingredients in Attempted(PlannedInserts(ingredients, instructions), rejects) ==>
      |ValidIngredients(ingredients)| > 0
    ensures Instructions in Attempted(PlannedInserts(ingredients, instructions), rejects) ==>
      |ValidInstructions(instructions)| > 0
  {
    var plan := PlannedInserts(ingredients, instructions);
    var sent := Attempted(plan, rejects);
    assert forall t :: t in sent ==> t in plan;
  }

  /**
   * Without a user the page goes to the login. With one it shows the recipe
   * exactly when no planned insert is refused, and alerts otherwise.
   */
  lemma SubmitShowsRecipeIffAllSaved(user: Option<UserId>, rejects: set<Table>, id: RecipeId, form: RecipeForm,
                                     ingredients: seq<Ingredient>, instructions: seq<Instruction>)
    ensures user.None? <==> Submit(user, rejects, id, form, ingredients, instructions).outcome == RedirectToLogin
    ensures user.Some? ==>
      (Submit(user, rejects, id, form, ingredients, instructions).outcome == ShowRecipe(id)
       <==> forall t :: t in PlannedInserts(ingredients, instructions) ==> t !in rejects)
    ensures user.Some? ==>
      (Submit(user, rejects, id, form, ingredients, instructions).outcome == SaveFailedAlert
       <==> exists t :: t in PlannedInserts(ingredients, instructions) && t in rejects)
  {
  }

  /**
   * Each table gains rows exactly when its insert was sent and not refused: the
   * recipe row with the form's fields, and the rows built from the filled entries.
   */
  lemma SubmitStoresAcceptedRows(user: Option<UserId>, rejects: set<Table>, id: RecipeId, form: RecipeForm,
                                 ingredients: seq<Ingredient>, instructions: seq<Instruction>)
    ensures Submit(user, rejects, id, form, ingredients, instructions).recipes
      == if user.Some? && Recipes !in rejects then [RecipeRow(id, RecipeFieldsOf(form, user.value))] else []
    ensures Submit(user, rejects, id, form, ingredients, instructions).ingredients
      == if Ingredients in Submit(user, rejects, id, form, ingredients, instructions).sent && Ingredients !in rejects
         then IngredientRows(ValidIngredients(ingredients), id) else []
    ensures Submit(user, rejects, id, form, ingredients, instructions).instructions
      == if Instructions in Submit(user, rejects, id, form, ingredients, instructions).sent && Instructions !in rejects
         then InstructionRows(ValidInstructions(instructions), id) else []
  {
  }

  /**
   * The child inserts of `handleSubmit`, once the recipe row `id` is stored. The
   * ingredient and instruction tables and the request log change as
   * `ChildSubmission` says; the rows added refer to the stored recipe.
   */
  method SaveChildren(db: Backend, id: RecipeId, ingredients: seq<Ingredient>, instructions: seq<Instruction>)
    returns (outcome: SubmitOutcome)
    requires db.Valid() && id in db.RecipeIds()
    modifies db
    ensures db.Valid()
    ensures db.currentUser == old(db.currentUser) && db.rejects == old(db.rejects)
    ensures db.recipes == old(db.recipes) && db.nextId == old(db.nextId)
    ensures var sub := ChildSubmission(db.rejects, id, ingredients, instructions);
      && outcome == sub.outcome
      && db.requests == old(db.requests) + sub.sent
      && db.ingredients == old(db.ingredients) + sub.ingredients
      && db.instructions == old(db.instructions) + sub.instructions
  {
    var validIngredients := ValidIngredients(ingredients);
    if |validIngredients| > 0 {
      var ok := db.InsertIngredients(IngredientRows(validIngredients, id));
      if !ok {
        return SaveFailedAlert;
      }
    }

    var validInstructions := ValidInstructions(instructions);
    if |validInstructions| > 0 {
      var ok := db.InsertInstructions(InstructionRows(validInstructions, id));
      if !ok {
        return SaveFailedAlert;
      }
    }
    return ShowRecipe(id);
  }

  /**
   * `handleSubmit` from the recipe insert on, for the signed-in `user`. The tables
   * and the request log change as `Submit` says for that user.
   */
  method SaveRecipe(db: Backend, user: UserId, form: RecipeForm,
                    ingredients: seq<Ingredient>, instructions: seq<Instruction>)
    returns (outcome: SubmitOutcome)
    requires db.Valid()
    modifies db
    ensures db.Valid()
    ensures db.currentUser == old(db.currentUser) && db.rejects == old(db.rejects)
    ensures var sub := Submit(Some(user), db.rejects, old(db.nextId), form, ingredients, instructions);
      && outcome == sub.outcome
      && db.nextId == old(db.nextId) + |sub.recipes|
      && db.requests == old(db.requests) + sub.sent
      && db.recipes == old(db.recipes) + sub.recipes
      && db.ingredients == old(db.ingredients) + sub.ingredients
      && db.instructions == old(db.instructions) + sub.instructions
  {
    ghost var fields := RecipeFieldsOf(form, user);
    ghost var sub := Submit(Some(user), db.rejects, db.nextId, form, ingredients, instructions);
    var saved := db.InsertRecipe(RecipeFieldsOf(form, user));
    if saved.None? {
      assert sub == Submission([Recipes], [], [], [], SaveFailedAlert);
      return SaveFailedAlert;
    }
    var recipe := saved.value;
    assert recipe.id in db.RecipeIds() by {
      assert recipe == db.recipes[|db.recipes| - 1];
    }
    ghost var children := ChildSubmission(db.rejects, recipe.id, ingredients, instructions);
    assert sub == children.(sent := [Recipes] + children.sent, recipes := [RecipeRow(recipe.id, fields)]);
    outcome := SaveChildren(db, recipe.id, ingredients, instructions);
  }

  /**
   * `handleSubmit`. The tables and the request log change exactly as `Submit`
   * says for the user, the refusals and the next id before the call; the stored
   * rows keep referring to stored recipes.
   */
  method HandleSubmit(db: Backend, form: RecipeForm, ingredients: seq<Ingredient>, instructions: seq<Instruction>)
    returns (outcome: SubmitOutcome)
    requires db.Valid()
    modifies db
    ensures db.Valid()
    ensures db.currentUser == old(db.currentUser) && db.rejects == old(db.rejects)
    ensures var sub := Submit(old(db.currentUser), db.rejects, old(db.nextId), form, ingredients, instructions);
      && outcome == sub.outcome
      && db.nextId == old(db.nextId) + |sub.recipes|
      && db.requests == old(db.requests) + sub.sent
      && db.recipes == old(db.recipes) + sub.recipes
      && db.ingredients == old(db.ingredients) + sub.ingredients
      && db.instructions == old(db.instructions) + sub.instructions
  {
    var user := db.GetUser();
    if user.None? {
      return RedirectToLogin;
    }
    outcome := SaveRecipe(db, user.value, form, ingredients, instructions);
  }
}
