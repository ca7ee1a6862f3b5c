/**
 * The JavaScript string operations the front end relies on: `trim`,
 * `toLowerCase` (over ASCII), `includes`, `lastIndexOf`/`substring` and
 * `String(n)` for integers, with the facts about them the rest of the
 * model needs.
 */
module JsText {

  /** The WhiteSpace and LineTerminator code points that `String.prototype.trim` strips. */
  predicate IsJsWhitespace(c: char) {
    var n := c as int;
    (0x09 <= n <= 0x0D) || n == 0x20 || n == 0xA0 || n == 0x1680
    || (0x2000 <= n <= 0x200A) || n == 0x2028 || n == 0x2029 || n == 0x202F
    || n == 0x205F || n == 0x3000 || n == 0xFEFF
  }

  predicate AllWhitespace(s: string) {
    forall i | 0 <= i < |s| :: IsJsWhitespace(s[i])
  }

  /** Drops the leading whitespace: what is left is a suffix of `s`. */
  function TrimStart(s: string): (r: string)
    ensures |r| <= |s| && r == s[|s| - |r|..]
    ensures AllWhitespace(s[..|s| - |r|])
    ensures r == [] || !IsJsWhitespace(r[0])
  {
    if s != [] && IsJsWhitespace(s[0]) then
      var r := TrimStart(s[1..]);
      DropOneMoreLeading(s, r);
      r
    else s
  }

  /** A suffix of `s[1..]` behind leading whitespace is a suffix of `s` behind leading whitespace when `s[0]` is whitespace. */
  lemma DropOneMoreLeading(s: string, r: string)
    requires s != [] && IsJsWhitespace(s[0])
    requires |r| <= |s| - 1 && r == s[1..][|s| - 1 - |r|..] && AllWhitespace(s[1..][..|s| - 1 - |r|])
    ensures r == s[|s| - |r|..] && AllWhitespace(s[..|s| - |r|])
  {
    forall i | 1 <= i < |s| - |r|
      ensures IsJsWhitespace(s[i])
    {
      assert s[i] == s[1..][..|s| - 1 - |r|][i - 1];
    }
  }

  /** Drops the trailing whitespace: what is left is a prefix of `s`. */
  function TrimEnd(s: string): (r: string)
    ensures |r| <= |s| && r == s[..|r|]
    ensures AllWhitespace(s[|r|..])
    ensures r == [] || !IsJsWhitespace(r[|r| - 1])
  {
    if s != [] && IsJsWhitespace(s[|s| - 1]) then
      var r := TrimEnd(s[..|s| - 1]);
      DropOneMoreTrailing(s, r);
      r
    else s
  }

  /** A prefix of `s[..|s| - 1]` before trailing whitespace is a prefix of `s` before trailing whitespace when the last character is whitespace. */
  lemma DropOneMoreTrailing(s: string, r: string)
    requires s != [] && IsJsWhitespace(s[|s| - 1])
    requires |r| <= |s| - 1 && r == s[..|s| - 1][..|r|] && AllWhitespace(s[..|s| - 1][|r|..])
    ensures r == s[..|r|] && AllWhitespace(s[|r|..])
  {
    forall i | |r| <= i < |s| - 1
      ensures IsJsWhitespace(s[i])
    {
      assert s[i] == s[..|s| - 1][|r|..][i - |r|];
    }
  }

  /** `r` is the infix of `s` at position `k`, and everything before and after it is whitespace. */
  predicate StrippedAt(s: string, r: string, k: nat) {
    k + |r| <= |s| && r == s[k..k + |r|] && AllWhitespace(s[..k]) && AllWhitespace(s[k + |r|..])
  }

  /**
   * `s.trim()`: `s` with the whitespace at either end removed. The result is
   * an infix of `s` with only whitespace around it, and it neither starts nor
   * ends with whitespace, so nothing more could be removed.
   */
  function Trim(s: string): (r: string)
    ensures exists k: nat :: StrippedAt(s, r, k)
    ensures r == [] || (!IsJsWhitespace(r[0]) && !IsJsWhitespace(r[|r| - 1]))
    ensures r == [] <==> AllWhitespace(s)
  {
    var r := TrimEnd(TrimStart(s));
    var k := |s| - |TrimStart(s)|;
    TrimBothEnds(s);
    StrippedEmptyIffBlank(s, r, k);
    r
  }

  /** Trimming the start and then the end leaves the infix at the length of the leading whitespace. */
  lemma TrimBothEnds(s: string)
    ensures StrippedAt(s, TrimEnd(TrimStart(s)), |s| - |TrimStart(s)|)
  {
    var t := TrimStart(s);
    StrippedOfSuffix(s, t, TrimEnd(t), |s| - |t|);
  }

  /** A prefix `r` of the suffix `t` of `s`, with only whitespace around each, is an infix of `s` with only whitespace around it. */
  lemma StrippedOfSuffix(s: string, t: string, r: string, k: nat)
    requires k <= |s| && t == s[k..] && AllWhitespace(s[..k])
    requires |r| <= |t| && r == t[..|r|] && AllWhitespace(t[|r|..])
    ensures StrippedAt(s, r, k)
  {
    assert r == s[k..k + |r|];
    assert s[k + |r|..] == t[|r|..];
  }

  /** An infix with only whitespace around it that does not start with whitespace is empty exactly when the whole is blank. */
  lemma StrippedEmptyIffBlank(s: string, r: string, k: nat)
    requires StrippedAt(s, r, k)
    requires r == [] || !IsJsWhitespace(r[0])
    ensures r == [] <==> AllWhitespace(s)
  {
    if r == [] {
      forall i | 0 <= i < |s|
        ensures IsJsWhitespace(s[i])
      {
        if i < k {
          assert s[i] == s[..k][i];
        } else {
          assert s[i] == s[k..][i - k];
        }
      }
    } else {
      assert s[k] == r[0];
    }
  }

  lemma TrimStartOfTrimmed(s: string)
    requires s == [] || !IsJsWhitespace(s[0])
    ensures TrimStart(s) == s
  {
  }

  lemma TrimEndOfTrimmed(s: string)
    requires s == [] || !IsJsWhitespace(s[|s| - 1])
    ensures TrimEnd(s) == s
  {
  }

  /** Trimming twice is trimming once. */
  lemma TrimIdempotent(s: string)
    ensures Trim(Trim(s)) == Trim(s)
  {
    var r := Trim(s);
    TrimStartOfTrimmed(r);
    TrimEndOfTrimmed(r);
  }

  /** The ASCII part of `toLowerCase`: 'A'..'Z' become 'a'..'z', every other character is kept. */
  function LowerChar(c: char): char {
    if 'A' <= c <= 'Z' then (c as int + 32) as char else c
  }

  predicate IsAsciiUpper(c: char) {
    'A' <= c <= 'Z'
  }

  predicate IsAsciiLower(c: char) {
    'a' <= c <= 'z'
  }

  /**
   * `s.toLowerCase()` over ASCII: no capital letter is left and every other
   * character is kept in place; `CaseRoundTrip` says that only the case of
   * letters changes.
   */
  function ToLower(s: string): (r: string)
    ensures |r| == |s|
    ensures forall i | 0 <= i < |r| :: !IsAsciiUpper(r[i])
    ensures forall i | 0 <= i < |s| && !IsAsciiUpper(s[i]) :: r[i] == s[i]
  {
    seq(|s|, i requires 0 <= i < |s| => LowerChar(s[i]))
  }

  /** The ASCII part of `toUpperCase`: 'a'..'z' become 'A'..'Z', every other character is kept. */
  function UpperChar(c: char): char {
    if 'a' <= c <= 'z' then (c as int - 32) as char else c
  }

  /** `s.toUpperCase()` over ASCII: no small letter is left and every other character is kept in place. */
  function ToUpper(s: string): (r: string)
    ensures |r| == |s|
    ensures forall i | 0 <= i < |r| :: !IsAsciiLower(r[i])
    ensures forall i | 0 <= i < |s| && !IsAsciiLower(s[i]) :: r[i] == s[i]
  {
    seq(|s|, i requires 0 <= i < |s| => UpperChar(s[i]))
  }

  /** The two conversions change only the case of letters: each undoes the other up to case. */
  lemma CaseRoundTrip(s: string)
    ensures ToLower(ToUpper(s)) == ToLower(s)
    ensures ToUpper(ToLower(s)) == ToUpper(s)
  {
    assert forall i | 0 <= i < |s| :: ToLower(ToUpper(s))[i] == ToLower(s)[i];
    assert forall i | 0 <= i < |s| :: ToUpper(ToLower(s))[i] == ToUpper(s)[i];
  }

  lemma ToLowerIdempotent(s: string)
    ensures ToLower(ToLower(s)) == ToLower(s)
  {
  }

  lemma {:induction false} TrimStartOfLower(s: string)
    ensures TrimStart(ToLower(s)) == ToLower(TrimStart(s))
    decreases |s|
  {
    if s != [] {
      assert IsJsWhitespace(LowerChar(s[0])) == IsJsWhitespace(s[0]);
      if IsJsWhitespace(s[0]) {
        assert ToLower(s)[1..] == ToLower(s[1..]);
        TrimStartOfLower(s[1..]);
      }
    }
  }

  lemma {:induction false} TrimEndOfLower(s: string)
    ensures TrimEnd(ToLower(s)) == ToLower(TrimEnd(s))
    decreases |s|
  {
    if s != [] {
      assert IsJsWhitespace(LowerChar(s[|s| - 1])) == IsJsWhitespace(s[|s| - 1]);
      if IsJsWhitespace(s[|s| - 1]) {
        assert ToLower(s)[..|s| - 1] == ToLower(s[..|s| - 1]);
        TrimEndOfLower(s[..|s| - 1]);
      }
    }
  }

  /** Lower-casing does not create or remove whitespace, so it commutes with `trim`. */
  lemma TrimOfLower(s: string)
    ensures Trim(ToLower(s)) == ToLower(Trim(s))
  {
    TrimStartOfLower(s);
    TrimEndOfLower(TrimStart(s));
  }

  predicate StartsWith(s: string, prefix: string) {
    |prefix| <= |s| && s[..|prefix|] == prefix
  }

  /** `s.includes(part)`: `part` occurs in `s` at some position. */
  predicate Includes(s: string, part: string)
    decreases |s|
  {
    StartsWith(s, part) || (s != [] && Includes(s[1..], part))
  }

  /** `part` occurs in `s` starting at position `k`. */
  predicate OccursAt(s: string, part: string, k: nat) {
    k + |part| <= |s| && s[k..k + |part|] == part
  }

  /** `includes` finds `part` exactly when it occurs in `s` at some position. */
  lemma {:induction false} IncludesIffOccurs(s: string, part: string)
    ensures Includes(s, part) <==> exists k: nat :: OccursAt(s, part, k)
    decreases |s|
  {
    if StartsWith(s, part) {
      assert OccursAt(s, part, 0);
    } else if s == [] {
      forall k: nat
        ensures !OccursAt(s, part, k)
      {
      }
    } else {
      IncludesIffOccurs(s[1..], part);
      if Includes(s[1..], part) {
        var k: nat :| OccursAt(s[1..], part, k);
        TailSlice(s, k, k + |part|);
        assert OccursAt(s, part, k + 1);
      } else {
        forall k: nat
          ensures !OccursAt(s, part, k)
        {
          if k > 0 && k + |part| <= |s| {
            TailSlice(s, k - 1, k - 1 + |part|);
            assert !OccursAt(s[1..], part, k - 1);
          }
        }
      }
    }
  }

  /** A slice of the tail is the slice of the whole one position further on. */
  lemma TailSlice(s: string, i: nat, j: nat)
    requires s != [] && i <= j <= |s| - 1
    ensures s[1..][i..j] == s[i + 1..j + 1]
  {
    forall n | 0 <= n < j - i
      ensures s[1..][i..j][n] == s[i + 1..j + 1][n]
    {
    }
  }

  /** Every string includes the empty string, and the empty string includes nothing else. */
  lemma IncludesEmpty(s: string, part: string)
    ensures Includes(s, "")
    ensures Includes("", part) <==> part == ""
  {
    assert StartsWith(s, "");
  }

  /** `s.lastIndexOf(c)`: the last position holding `c`, or -1. */
  function LastIndexOf(s: string, c: char): (r: int)
    ensures -1 <= r < |s|
    ensures r >= 0 ==> s[r] == c
    ensures forall k | r < k < |s| :: s[k] != c
  {
    if s == [] then -1
    else if s[|s| - 1] == c then |s| - 1
    else LastIndexOf(s[..|s| - 1], c)
  }

  /** `s.substring(s.lastIndexOf(c) + 1)`: everything after the last `c` (all of `s` when there is none). */
  function AfterLast(s: string, c: char): (r: string)
    ensures c !in r
    ensures |r| <= |s| && r == s[|s| - |r|..]
    ensures r == s || (|r| < |s| && s[|s| - |r| - 1] == c)
  {
    s[LastIndexOf(s, c) + 1..]
  }

  predicate IsDigit(c: char) {
    '0' <= c <= '9'
  }

  predicate AllDigits(s: string) {
    forall i | 0 <= i < |s| :: IsDigit(s[i])
  }

  function DigitValue(c: char): nat
    requires IsDigit(c)
  {
    c as int - '0' as int
  }

  function DigitChar(d: nat): (c: char)
    requires d < 10
    ensures IsDigit(c) && DigitValue(c) == d
  {
    ('0' as int + d) as char
  }

  /** The number a string of decimal digits denotes (the inverse of `NatToString`). */
  function DecimalValue(s: string): nat
    requires AllDigits(s)
  {
    if s == [] then 0 else 10 * DecimalValue(s[..|s| - 1]) + DigitValue(s[|s| - 1])
  }

  /** `String(n)` for a non-negative integer: the shortest decimal numeral that denotes `n`. */
  function NatToString(n: nat): (s: string)
    ensures s != [] && AllDigits(s) && DecimalValue(s) == n
    ensures |s| > 1 ==> s[0] != '0'
    ensures n < 100 ==> |s| <= 2
    decreases n
  {
    if n < 10 then [DigitChar(n)]
    else
      var t := NatToString(n / 10);
      var s := t + [DigitChar(n % 10)];
      assert s[..|s| - 1] == t;
      s
  }

  /** `String(i)` for any integer: a minus sign before the numeral of a negative number. */
  function IntToString(i: int): (s: string)
    ensures IsIntString(s) && IntValue(s) == i
  {
    if i < 0 then
      var s := "-" + NatToString(-i);
      assert s[1..] == NatToString(-i);
      s
    else NatToString(i)
  }

  predicate IsIntString(s: string) {
    (s != [] && AllDigits(s)) || (|s| > 1 && s[0] == '-' && AllDigits(s[1..]))
  }

  /** The integer an optionally signed numeral denotes (the inverse of `IntToString`). */
  function IntValue(s: string): int
    requires IsIntString(s)
  {
    if s[0] == '-' then -(DecimalValue(s[1..]) as int) else DecimalValue(s)
  }

  /** A leading zero does not change the value of a numeral. */
  lemma {:induction false} LeadingZero(s: string)
    requires AllDigits(s)
    ensures AllDigits("0" + s) && DecimalValue("0" + s) == DecimalValue(s)
    decreases |s|
  {
    var z := "0" + s;
    if s != [] {
      assert z[..|z| - 1] == "0" + s[..|s| - 1];
      LeadingZero(s[..|s| - 1]);
    }
  }

  /** `s.padStart(2, '0')`: zeros in front until the string is two characters long. */
  function PadStart2(s: string): (r: string)
    ensures |r| == if |s| < 2 then 2 else |s|
    ensures AllDigits(s) ==> AllDigits(r) && DecimalValue(r) == DecimalValue(s)
  {
    if |s| >= 2 then s
    else if |s| == 1 then
      assert AllDigits(s) ==> AllDigits("0" + s) && DecimalValue("0" + s) == DecimalValue(s) by {
        if AllDigits(s) { LeadingZero(s); }
      }
      "0" + s
    else
      LeadingZero("");
      LeadingZero("0");
      "00"
  }
}
