/**
 * The country picker of the application form (identical in both
 * revisions): the type-ahead filter `onCountrySearch` over the
 * `{ code, name }` list supplied by the country library, and the
 * regional-indicator flag `countryFlag` shown next to each code.
 */
module CountrySearch {
  import opened JsText

  datatype CountryOption = CountryOption(code: string, name: string)

  /** `c.name.toLowerCase().includes(value) || c.code.toLowerCase().includes(value)` */
  predicate CountryMatches(c: CountryOption, value: string) {
    Includes(ToLower(c.name), value) || Includes(ToLower(c.code), value)
  }

  /** `countries.filter(c => CountryMatches(c, value))` */
  function FilterCountries(countries: seq<CountryOption>, value: string): (r: seq<CountryOption>)
    ensures |r| <= |countries|
    ensures forall c :: c in r <==> c in countries && CountryMatches(c, value)
  {
    if countries == [] then []
    else
      var rest := FilterCountries(countries[1..], value);
      assert forall c :: c in countries <==> c == countries[0] || c in countries[1..];
      if CountryMatches(countries[0], value) then [countries[0]] + rest else rest
  }

  /**
   * The list `onCountrySearch(term)` leaves in `filteredCountries`: every
   * country when the lower-cased, trimmed term is empty, otherwise those
   * whose lower-cased name or code contains it.
   */
  function SearchCountries(countries: seq<CountryOption>, term: string): (r: seq<CountryOption>)
    ensures Trim(ToLower(term)) == "" ==> r == countries
    ensures Trim(ToLower(term)) != "" ==>
      forall c :: c in r <==> c in countries && CountryMatches(c, Trim(ToLower(term)))
  {
    var value := Trim(ToLower(term));
    if value == "" then countries else FilterCountries(countries, value)
  }

  /** The search ignores the case of the term and whitespace around it. */
  lemma SearchIgnoresCaseAndPadding(countries: seq<CountryOption>, term: string)
    ensures SearchCountries(countries, ToLower(term)) == SearchCountries(countries, term)
    ensures SearchCountries(countries, Trim(term)) == SearchCountries(countries, term)
  {
    ToLowerIdempotent(term);
    TrimOfLower(Trim(term));
    TrimOfLower(term);
    TrimIdempotent(term);
  }

  /** Typing a listed country's code (in any case) keeps that country in the list. */
  lemma SearchFindsByCode(countries: seq<CountryOption>, c: CountryOption, term: string)
    requires c in countries
    requires ToLower(term) == ToLower(c.code) && Trim(term) == term
    ensures c in SearchCountries(countries, term)
  {
    TrimOfLower(term);
    var value := Trim(ToLower(term));
    assert value == ToLower(c.code);
    assert StartsWith(ToLower(c.code), value);
  }

  /** `String.fromCodePoint(127397 + unit)` for one UTF-16 code unit. */
  function Shifted(unit: int): char
    requires 0 <= unit < 0x1_0000
  {
    (127397 + unit) as char
  }

  /**
   * What `.replace(/./g, …)` makes of one character: `.` (without the `s` and
   * `u` flags) skips line terminators and matches each UTF-16 code unit on its
   * own, so a character outside the Basic Multilingual Plane is shifted as two
   * surrogate halves.
   */
  function FlagUnits(c: char): seq<char> {
    var n := c as int;
    if c == '\n' || c == '\r' || n == 0x2028 || n == 0x2029 then [c]
    else if n < 0x1_0000 then [Shifted(n)]
    else [Shifted(0xD800 + (n - 0x1_0000) / 0x400), Shifted(0xDC00 + (n - 0x1_0000) % 0x400)]
  }

  function FlagOf(s: string): string {
    if s == [] then [] else FlagUnits(s[0]) + FlagOf(s[1..])
  }

  predicate IsAsciiLetter(c: char) {
    ('a' <= c <= 'z') || ('A' <= c <= 'Z')
  }

  /** The regional indicator symbol of an upper-case ASCII letter: U+1F1E6 for 'A' … U+1F1FF for 'Z'. */
  function RegionalIndicator(c: char): int {
    0x1F1E6 + (c as int - 'A' as int)
  }

  lemma {:induction false} FlagOfLetters(s: string)
    requires forall i | 0 <= i < |s| :: 'A' <= s[i] <= 'Z'
    ensures |FlagOf(s)| == |s|
    ensures forall i | 0 <= i < |s| :: FlagOf(s)[i] as int == RegionalIndicator(s[i])
  {
    if s != [] {
      FlagOfLetters(s[1..]);
    }
  }

  /**
   * `countryFlag(code)`: '' for an empty code; otherwise the upper-cased code
   * with every character moved to the regional-indicator block, so a code of
   * ASCII letters becomes one indicator per letter.
   */
  function CountryFlag(code: string): (r: string)
    ensures code == [] ==> r == []
    ensures (forall i | 0 <= i < |code| :: IsAsciiLetter(code[i])) ==>
      |r| == |code| && forall i | 0 <= i < |code| :: r[i] as int == RegionalIndicator(UpperChar(code[i]))
  {
    if code == [] then []
    else
      var upper := ToUpper(code);
      var letters := forall i | 0 <= i < |code| :: IsAsciiLetter(code[i]);
      assert letters ==>
        && |FlagOf(upper)| == |code|
        && forall i | 0 <= i < |code| :: FlagOf(upper)[i] as int == RegionalIndicator(UpperChar(code[i]))
      by {
        if letters {
          FlagOfLetters(upper);
        }
      }
      FlagOf(upper)
  }

  /** The flag does not depend on the case of the code. */
  lemma FlagIgnoresCase(code: string)
    ensures CountryFlag(ToLower(code)) == CountryFlag(code)
  {
    assert ToUpper(ToLower(code)) == ToUpper(code);
  }

  /** Letter codes that differ other than by case get different flags. */
  lemma FlagsTellCodesApart(a: string, b: string)
    requires forall i | 0 <= i < |a| :: IsAsciiLetter(a[i])
    requires forall i | 0 <= i < |b| :: IsAsciiLetter(b[i])
    requires ToUpper(a) != ToUpper(b)
    ensures CountryFlag(a) != CountryFlag(b)
  {
    if |a| == |b| && a != [] {
      var i :| 0 <= i < |a| && ToUpper(a)[i] != ToUpper(b)[i];
      assert CountryFlag(a)[i] != CountryFlag(b)[i];
    }
  }
}
