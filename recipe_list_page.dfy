/**
 * The display helpers of the recipe list (src/app/recipes/page.client.tsx):
 * `getDifficultyStars` and `formatTime`.
 */
module RecipeListPage {
  import opened Wrappers
  import opened Text

  const FilledStar: char := '★'
  const EmptyStar: char := '☆'

  /**
   * `getDifficultyStars(d)`: `'★'.repeat(d) + '☆'.repeat(5 - d)`. Outside 0..5 one
   * of the `repeat` calls receives a negative count and throws, hence the precondition.
   */
  function DifficultyStars(difficulty: int): (stars: string)
    requires 0 <= difficulty <= 5
    ensures |stars| == 5
    ensures forall i :: 0 <= i < 5 ==> stars[i] == if i < difficulty then FilledStar else EmptyStar
  {
    Repeat(FilledStar, difficulty) + Repeat(EmptyStar, 5 - difficulty)
  }

  /** Counting the filled stars gives the difficulty back. */
  lemma StarsCountDifficulty(difficulty: int)
    requires 0 <= difficulty <= 5
    ensures Count(DifficultyStars(difficulty), FilledStar) == difficulty
    ensures Count(DifficultyStars(difficulty), EmptyStar) == 5 - difficulty
  {
    var filled, empty := Repeat(FilledStar, difficulty), Repeat(EmptyStar, 5 - difficulty);
    CountConcat(filled, empty, FilledStar);
    CountConcat(filled, empty, EmptyStar);
    CountRepeat(FilledStar, FilledStar, difficulty);
    CountRepeat(EmptyStar, FilledStar, 5 - difficulty);
    CountRepeat(FilledStar, EmptyStar, difficulty);
    CountRepeat(EmptyStar, EmptyStar, 5 - difficulty);
  }

  const MinuteUnit := "分"
  const HourUnit := "時間"

  /**
   * `formatTime(minutes)`: `'-'` for `null` or 0; below an hour (negatives included)
   * the minutes; otherwise whole hours, followed by the remaining minutes when
   * there are any. `Math.floor(m / 60)` and `m % 60` agree with Dafny's `/` and `%`
   * because this branch only sees m >= 60.
   */
  function FormatTime(minutes: Option<int>): (text: string)
    ensures minutes.None? || minutes == Some(0) ==> text == "-"
    ensures minutes.Some? && minutes.value != 0 && minutes.value < 60 ==>
      text == IntText(minutes.value) + MinuteUnit
  {
    match minutes
    case None => "-"
    case Some(m) =>
      if m == 0 then "-"
      else if m < 60 then IntText(m) + MinuteUnit
      else
        var hours := m / 60;
        var mins := m % 60;
        if mins > 0 then Decimal(hours) + HourUnit + Decimal(mins) + MinuteUnit
        else Decimal(hours) + HourUnit
  }

  /**
   * From an hour on, the text is the hours and, when non-zero, the remaining
   * minutes, and these two add back up to the input.
   */
  lemma FormatTimeHours(m: int)
    requires m >= 60
    ensures var h, r := m / 60, m % 60;
      && h >= 1 && 0 <= r < 60 && h * 60 + r == m
      && FormatTime(Some(m)) == Decimal(h) + HourUnit + (if r == 0 then "" else Decimal(r) + MinuteUnit)
  {
    var h, r := m / 60, m % 60;
    if r == 0 {
      assert Decimal(h) + HourUnit + "" == Decimal(h) + HourUnit;
    }
  }

  /**
   * Reads a text in the shape `formatTime` writes back into minutes: "-" is 0,
   * "{h}時間" and "{h}時間{r}分" are h hours and r minutes, "{m}分" is m minutes.
   */
  function ParseTime(text: string): Option<int> {
    if text == "-" then Some(0)
    else if EndsWith(text, HourUnit) then
      (match ParseNat(text[..|text| - |HourUnit|])
       case Some(h) => Some(h * 60)
       case None => None)
    else if EndsWith(text, MinuteUnit) then ParseMinutesText(text[..|text| - |MinuteUnit|])
    else None
  }

  /** The part of a "…分" text before the minute unit: "{m}" or "{h}時間{r}". */
  function ParseMinutesText(body: string): Option<int> {
    match IndexOf(body, HourUnit[0])
    case None => ParseInt(body)
    case Some(p) =>
      if OccursAt(body, HourUnit, p) then
        (match (ParseNat(body[..p]), ParseNat(body[p + |HourUnit|..]))
         case (Some(h), Some(r)) => Some(h * 60 + r)
         case _ => None)
      else None
  }

  /** A text ending in the minute unit is read by its part before the unit. */
  lemma MinuteTextReadsBody(body: string)
    ensures ParseTime(body + MinuteUnit) == ParseMinutesText(body)
  {
    var text := body + MinuteUnit;
    assert text != "-" by {
      assert text[|text| - 1] == MinuteUnit[0];
    }
    assert text[..|text| - |MinuteUnit|] == body;
    assert EndsWith(text, MinuteUnit) by {
      assert text[|text| - |MinuteUnit|..] == MinuteUnit;
    }
    assert !EndsWith(text, HourUnit) by {
      assert text[|text| - 1] == MinuteUnit[0];
    }
  }

  lemma DecimalHasNoUnit(n: nat)
    ensures forall i :: 0 <= i < |Decimal(n)| ==> Decimal(n)[i] != HourUnit[0] && Decimal(n)[i] != MinuteUnit[0]
  {
  }

  /** "{m}分" reads back as m, for any m (a sign included). */
  lemma MinutesTextParses(m: int)
    ensures ParseTime(IntText(m) + MinuteUnit) == Some(m)
  {
    var body := IntText(m);
    MinuteTextReadsBody(body);
    if m < 0 {
      DecimalHasNoUnit(-m);
      assert body == "-" + Decimal(-m);
      assert forall i :: 1 <= i < |body| ==> body[i] == Decimal(-m)[i - 1];
    } else {
      DecimalHasNoUnit(m);
    }
    assert IndexOf(body, HourUnit[0]).None?;
    IntTextRoundTrip(m);
  }

  /** "{h}時間" reads back as h hours. */
  lemma HoursTextParses(h: nat)
    ensures ParseTime(Decimal(h) + HourUnit) == Some(h * 60)
  {
    var text := Decimal(h) + HourUnit;
    assert text != "-" by {
      assert |text| >= 3;
    }
    assert text[..|text| - |HourUnit|] == Decimal(h);
    DecimalRoundTrip(h);
  }

  /** "{a}時間{b}" reads back as a hours and b minutes when a and b read as numbers. */
  lemma HoursMinutesTextParses(a: string, b: string, h: nat, r: nat)
    requires ParseNat(a) == Some(h) && ParseNat(b) == Some(r)
    requires forall i :: 0 <= i < |a| ==> a[i] != HourUnit[0]
    ensures ParseMinutesText(a + HourUnit + b) == Some(h * 60 + r)
  {
    var body := a + HourUnit + b;
    var p := |a|;
    assert IndexOf(body, HourUnit[0]) == Some(p) by {
      assert body == a + [HourUnit[0]] + (HourUnit[1..] + b);
      IndexOfFirst(a, HourUnit[0], HourUnit[1..] + b);
    }
    assert OccursAt(body, HourUnit, p) by {
      assert body[p..p + |HourUnit|] == HourUnit;
    }
    assert body[..p] == a;
    assert body[p + |HourUnit|..] == b;
  }

  /**
   * `formatTime` loses nothing about a number of minutes: the text it writes
   * reads back as the same number (0 and `null` share "-").
   */
  lemma FormatTimeRoundTrip(m: int)
    ensures ParseTime(FormatTime(Some(m))) == Some(m)
  {
    if m == 0 {
    } else if m < 60 {
      MinutesTextParses(m);
    } else {
      FormatTimeHours(m);
      var h, r := m / 60, m % 60;
      if r == 0 {
        assert FormatTime(Some(m)) == Decimal(h) + HourUnit;
        HoursTextParses(h);
      } else {
        DecimalRoundTrip(h);
        DecimalRoundTrip(r);
        DecimalHasNoUnit(h);
        HoursMinutesTextParses(Decimal(h), Decimal(r), h, r);
        MinuteTextReadsBody(Decimal(h) + HourUnit + Decimal(r));
      }
    }
  }
}
