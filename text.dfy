/**
 * The pieces of JavaScript's string behaviour the modelled code relies on:
 * `trim`, `includes`, `startsWith`, `repeat`, the decimal text of an integer
 * (template literals such as `${minutes}`) and `parseInt` on digit strings.
 */
module Text {
  import opened Wrappers

  // ---------------------------------------------------------------------
  // trim
  // ---------------------------------------------------------------------

  /** The code points ECMAScript classes as WhiteSpace or LineTerminator, which `trim` removes. */
  predicate IsWhitespace(c: char) {
    || c == '\t' || c == '\U{000B}' || c == '\U{000C}' || c == ' '
    || c == '\U{00A0}' || c == '\U{FEFF}' || c == '\U{1680}'
    || ('\U{2000}' <= c <= '\U{200A}')
    || c == '\U{202F}' || c == '\U{205F}' || c == '\U{3000}'
    || c == '\n' || c == '\r' || c == '\U{2028}' || c == '\U{2029}'
  }

  /** Every character is whitespace (the empty string included). */
  predicate IsBlank(s: string) {
    forall i :: 0 <= i < |s| ==> IsWhitespace(s[i])
  }

  /** `s.trimStart()`: the suffix left after dropping the leading whitespace. */
  function TrimStart(s: string): string
    decreases |s|
  {
    if |s| > 0 && IsWhitespace(s[0]) then TrimStart(s[1..]) else s
  }

  /** `trimStart` keeps a suffix that does not start with whitespace, and drops only whitespace. */
  lemma {:induction false} TrimStartDropsLeadingWhitespace(s: string)
    ensures |TrimStart(s)| <= |s| && TrimStart(s) == s[|s| - |TrimStart(s)|..]
    ensures TrimStart(s) == [] || !IsWhitespace(TrimStart(s)[0])
    ensures forall i :: 0 <= i < |s| - |TrimStart(s)| ==> IsWhitespace(s[i])
    decreases |s|
  {
    if |s| > 0 && IsWhitespace(s[0]) {
      TrimStartDropsLeadingWhitespace(s[1..]);
      forall i | 1 <= i < |s| - |TrimStart(s)| ensures IsWhitespace(s[i]) {
        assert s[i] == s[1..][i - 1];
      }
    }
  }

  /** `s.trimEnd()`: the prefix left after dropping the trailing whitespace. */
  function TrimEnd(s: string): string
    decreases |s|
  {
    if |s| > 0 && IsWhitespace(s[|s| - 1]) then TrimEnd(s[..|s| - 1]) else s
  }

  /** `trimEnd` keeps a prefix that does not end in whitespace, and drops only whitespace. */
  lemma {:induction false} TrimEndDropsTrailingWhitespace(s: string)
    ensures |TrimEnd(s)| <= |s| && TrimEnd(s) == s[..|TrimEnd(s)|]
    ensures TrimEnd(s) == [] || !IsWhitespace(TrimEnd(s)[|TrimEnd(s)| - 1])
    ensures forall i :: |TrimEnd(s)| <= i < |s| ==> IsWhitespace(s[i])
    decreases |s|
  {
    if |s| > 0 && IsWhitespace(s[|s| - 1]) {
      TrimEndDropsTrailingWhitespace(s[..|s| - 1]);
    }
  }

  /** `s.trim()`. */
  function Trim(s: string): (r: string)
    ensures r == [] || (!IsWhitespace(r[0]) && !IsWhitespace(r[|r| - 1]))
  {
    TrimStartDropsLeadingWhitespace(s);
    TrimEndDropsTrailingWhitespace(TrimStart(s));
    TrimEnd(TrimStart(s))
  }

  /** `s.trim()` is the empty string, so falsy, exactly when `s` is all whitespace. */
  lemma TrimEmptyIffBlank(s: string)
    ensures Trim(s) == [] <==> IsBlank(s)
  {
    var t := TrimStart(s);
    TrimStartDropsLeadingWhitespace(s);
    TrimEndDropsTrailingWhitespace(t);
    if Trim(s) == [] {
      // an all-whitespace remainder would start with whitespace, so nothing remains
      assert t == [];
    }
  }

  // ---------------------------------------------------------------------
  // startsWith, endsWith, includes, indexOf
  // ---------------------------------------------------------------------

  /** `s.startsWith(prefix)`. */
  predicate StartsWith(s: string, prefix: string) {
    |prefix| <= |s| && s[..|prefix|] == prefix
  }

  /** `s.endsWith(suffix)`. */
  predicate EndsWith(s: string, suffix: string) {
    |suffix| <= |s| && s[|s| - |suffix|..] == suffix
  }

  /** `sub` stands in `s` starting at position `i`. */
  predicate OccursAt(s: string, sub: string, i: int) {
    0 <= i && i + |sub| <= |s| && s[i..i + |sub|] == sub
  }

  /** `s.includes(sub)`, scanning start positions from left to right. */
  function Contains(s: string, sub: string): bool
    decreases |s|
  {
    StartsWith(s, sub) || (|s| > 0 && Contains(s[1..], sub))
  }

  /** `includes` holds exactly when `sub` occurs at some position of `s`. */
  lemma {:induction false} ContainsIffOccurs(s: string, sub: string)
    ensures Contains(s, sub) <==> exists i :: OccursAt(s, sub, i)
    decreases |s|
  {
    if StartsWith(s, sub) {
      assert OccursAt(s, sub, 0);
    } else if |s| > 0 {
      ContainsIffOccurs(s[1..], sub);
      if Contains(s[1..], sub) {
        var i :| OccursAt(s[1..], sub, i);
        assert s[i + 1..i + 1 + |sub|] == s[1..][i..i + |sub|];
        assert OccursAt(s, sub, i + 1);
      } else {
        forall i | OccursAt(s, sub, i) ensures false {
          assert i != 0;
          assert s[1..][i - 1..i - 1 + |sub|] == s[i..i + |sub|];
          assert OccursAt(s[1..], sub, i - 1);
        }
      }
    }
  }

  /** `s.indexOf(c)` for a single character, `None` standing for -1. */
  function IndexOf(s: string, c: char): (r: Option<nat>)
    ensures r.Some? ==> r.value < |s| && s[r.value] == c
    ensures r.Some? ==> forall i :: 0 <= i < r.value ==> s[i] != c
    ensures r.None? ==> forall i :: 0 <= i < |s| ==> s[i] != c
    decreases |s|
  {
    if s == [] then None
    else if s[0] == c then Some(0)
    else match IndexOf(s[1..], c)
      case None => None
      case Some(k) => Some(k + 1)
  }

  /** The first `c` of `a + [c] + rest` is the one after `a` when `a` holds none. */
  lemma IndexOfFirst(a: string, c: char, rest: string)
    requires forall i :: 0 <= i < |a| ==> a[i] != c
    ensures IndexOf(a + [c] + rest, c) == Some(|a|)
  {
    var s := a + [c] + rest;
    assert s[|a|] == c;
    assert forall i :: 0 <= i < |a| ==> s[i] == a[i];
  }

  // ---------------------------------------------------------------------
  // repeat and counting
  // ---------------------------------------------------------------------

  /** `c.repeat(n)` for a one-character string `c`. */
  function Repeat(c: char, n: nat): (s: string)
    ensures |s| == n
    ensures forall i :: 0 <= i < n ==> s[i] == c
  {
    seq(n, _ => c)
  }

  /** How many times `c` occurs in `s`. */
  function Count(s: string, c: char): (n: nat)
    ensures n <= |s|
    decreases |s|
  {
    if s == [] then 0 else (if s[0] == c then 1 else 0) + Count(s[1..], c)
  }

  lemma {:induction false} CountConcat(a: string, b: string, c: char)
    ensures Count(a + b, c) == Count(a, c) + Count(b, c)
    decreases |a|
  {
    if a != [] {
      assert (a + b)[1..] == a[1..] + b;
      CountConcat(a[1..], b, c);
    } else {
      assert a + b == b;
    }
  }

  lemma {:induction false} CountRepeat(c: char, d: char, n: nat)
    ensures Count(Repeat(c, n), d) == if c == d then n else 0
  {
    if n > 0 {
      assert Repeat(c, n) == [c] + Repeat(c, n - 1);
      CountConcat([c], Repeat(c, n - 1), d);
      CountRepeat(c, d, n - 1);
    }
  }

  // ---------------------------------------------------------------------
  // Decimal text of integers, and its inverse
  // ---------------------------------------------------------------------

  predicate IsDigit(c: char) {
    '0' <= c <= '9'
  }

  predicate IsDigits(s: string) {
    forall i :: 0 <= i < |s| ==> IsDigit(s[i])
  }

  function DigitChar(d: nat): (c: char)
    requires d < 10
    ensures IsDigit(c) && c as int - '0' as int == d
  {
    ('0' as int + d) as char
  }

  /** The text JavaScript prints for a non-negative integer: decimal digits, no leading zero. */
  function Decimal(n: nat): (s: string)
    ensures |s| >= 1 && IsDigits(s)
    ensures s[0] == '0' ==> n == 0
    decreases n
  {
    if n < 10 then [DigitChar(n)] else Decimal(n / 10) + [DigitChar(n % 10)]
  }

  /** The value of a string of decimal digits, most significant first. */
  function DigitsValue(s: string): nat
    requires IsDigits(s)
    decreases |s|
  {
    if s == [] then 0 else DigitsValue(s[..|s| - 1]) * 10 + (s[|s| - 1] as int - '0' as int)
  }

  /** `parseInt(s)` on a non-empty string of decimal digits; `None` stands for NaN. */
  function ParseNat(s: string): Option<nat> {
    if s != [] && IsDigits(s) then Some(DigitsValue(s)) else None
  }

  /** Printing then parsing a non-negative integer gives it back. */
  lemma {:induction false} DecimalRoundTrip(n: nat)
    ensures ParseNat(Decimal(n)) == Some(n)
    decreases n
  {
    if n >= 10 {
      DecimalRoundTrip(n / 10);
      var s := Decimal(n);
      assert s[..|s| - 1] == Decimal(n / 10);
      assert s[|s| - 1] == DigitChar(n % 10);
      assert DigitsValue(s) == DigitsValue(Decimal(n / 10)) * 10 + n % 10;
      assert (n / 10) * 10 + n % 10 == n;
    }
  }

  /** The text JavaScript prints for any integer (`${i}`): a minus sign before negatives. */
  function IntText(i: int): (s: string)
    ensures |s| >= 1
  {
    if i < 0 then "-" + Decimal(-i) else Decimal(i)
  }

  /** `parseInt` on an optionally signed string of decimal digits. */
  function ParseInt(s: string): Option<int> {
    if |s| > 0 && s[0] == '-' then
      (match ParseNat(s[1..])
       case Some(n) => Some(-(n as int))
       case None => None)
    else
      (match ParseNat(s)
       case Some(n) => Some(n)
       case None => None)
  }

  /** Printing then parsing any integer gives it back. */
  lemma IntTextRoundTrip(i: int)
    ensures ParseInt(IntText(i)) == Some(i)
  {
    var s := IntText(i);
    if i < 0 {
      var n: nat := -i;
      DecimalRoundTrip(n);
      assert s == "-" + Decimal(n);
      assert s[0] == '-' && s[1..] == Decimal(n);
      assert ParseNat(s[1..]) == Some(n);
    } else {
      DecimalRoundTrip(i);
      assert s == Decimal(i);
      assert IsDigit(s[0]);
      assert ParseNat(s) == Some(i);
    }
  }

  // ---------------------------------------------------------------------
  // parseInt with no radix argument
  // ---------------------------------------------------------------------

  /** A digit of base 10, or of base 16 when `hex`. */
  predicate IsRadixDigit(c: char, hex: bool) {
    IsDigit(c) || (hex && ('a' <= c <= 'f' || 'A' <= c <= 'F'))
  }

  function RadixDigitValue(c: char, hex: bool): (d: nat)
    requires IsRadixDigit(c, hex)
    ensures d < (if hex then 16 else 10)
  {
    if IsDigit(c) then c as int - '0' as int
    else if 'a' <= c <= 'f' then c as int - 'a' as int + 10
    else c as int - 'A' as int + 10
  }

  /** The length of the longest prefix of `s` made of digits of the base. */
  function DigitRun(s: string, hex: bool): nat
    decreases |s|
  {
    if |s| > 0 && IsRadixDigit(s[0], hex) then 1 + DigitRun(s[1..], hex) else 0
  }

  /** The run is a prefix of digits and is followed by a non-digit or the end. */
  lemma {:induction false} DigitRunIsLongest(s: string, hex: bool)
    ensures DigitRun(s, hex) <= |s|
    ensures forall i :: 0 <= i < DigitRun(s, hex) ==> IsRadixDigit(s[i], hex)
    ensures DigitRun(s, hex) < |s| ==> !IsRadixDigit(s[DigitRun(s, hex)], hex)
    decreases |s|
  {
    if |s| > 0 && IsRadixDigit(s[0], hex) {
      DigitRunIsLongest(s[1..], hex);
      forall i | 1 <= i < DigitRun(s, hex) ensures IsRadixDigit(s[i], hex) {
        assert s[i] == s[1..][i - 1];
      }
    }
  }

  /** The value of a string of digits of the base, most significant first. */
  function RadixValue(s: string, hex: bool): nat
    requires forall i :: 0 <= i < |s| ==> IsRadixDigit(s[i], hex)
    decreases |s|
  {
    if s == [] then 0
    else RadixValue(s[..|s| - 1], hex) * (if hex then 16 else 10) + RadixDigitValue(s[|s| - 1], hex)
  }

  /** In base 10 the value of a digit string is its decimal value. */
  lemma {:induction false} DecimalRadixValue(s: string)
    requires IsDigits(s)
    ensures RadixValue(s, false) == DigitsValue(s)
    decreases |s|
  {
    if s != [] {
      DecimalRadixValue(s[..|s| - 1]);
    }
  }

  /**
   * `parseInt(s)` with no radix: leading whitespace is skipped, one `-` or `+` is
   * read, a `0x` or `0X` prefix selects base 16, and the longest run of digits
   * that follows is the magnitude. Without any digit the result is NaN, here
   * `None`.
   */
  function JsParseInt(s: string): Option<int> {
    var t := TrimStart(s);
    var negative := |t| > 0 && t[0] == '-';
    var u := if |t| > 0 && (t[0] == '-' || t[0] == '+') then t[1..] else t;
    var hex := |u| >= 2 && u[0] == '0' && (u[1] == 'x' || u[1] == 'X');
    var body := if hex then u[2..] else u;
    var n := DigitRun(body, hex);
    DigitRunIsLongest(body, hex);
    if n == 0 then None
    else
      var magnitude: int := RadixValue(body[..n], hex);
      Some(if negative then -magnitude else magnitude)
  }

  /** On a non-empty string of decimal digits `parseInt` gives its decimal value. */
  lemma JsParseIntOnDigits(s: string)
    requires s != [] && IsDigits(s)
    ensures JsParseInt(s) == Some(DigitsValue(s))
  {
    JsParseIntReadsLeadingDigits(s, []);
    assert s + [] == s;
  }

  /**
   * `parseInt` reads a leading run of decimal digits and ignores the rest of the
   * text from the first non-digit on (unless that is the `x` of a `0x` prefix).
   */
  lemma JsParseIntReadsLeadingDigits(d: string, rest: string)
    requires d != [] && IsDigits(d)
    requires rest == [] || !IsDigit(rest[0])
    requires !(d == "0" && rest != [] && (rest[0] == 'x' || rest[0] == 'X'))
    ensures JsParseInt(d + rest) == Some(DigitsValue(d))
  {
    var s := d + rest;
    assert s[0] == d[0] && IsDigit(d[0]);
    assert TrimStart(s) == s by {
      assert !IsWhitespace(s[0]);
    }
    assert !(|s| >= 2 && s[0] == '0' && (s[1] == 'x' || s[1] == 'X')) by {
      if |d| >= 2 {
        assert s[1] == d[1] && IsDigit(d[1]);
      } else if |s| >= 2 {
        assert s[1] == rest[0];
      }
    }
    var n := DigitRun(s, false);
    DigitRunIsLongest(s, false);
    assert n == |d| by {
      assert forall i :: 0 <= i < |d| ==> s[i] == d[i];
      assert |s| > |d| ==> s[|d|] == rest[0];
    }
    assert s[..n] == d;
    DecimalRadixValue(d);
  }

  /**
   * The text a number input holds in exponent form, such as "1e3", is read by
   * `parseInt` up to the `e`: its mantissa, not the number it denotes.
   */
  lemma ExponentTextReadsMantissa(n: nat, exponent: string)
    ensures JsParseInt(Decimal(n) + "e" + exponent) == Some(n)
  {
    assert Decimal(n) + "e" + exponent == Decimal(n) + ("e" + exponent);
    JsParseIntReadsLeadingDigits(Decimal(n), "e" + exponent);
    DecimalRoundTrip(n);
  }
}
