/**
 * A JavaScript `Date` seen through the getters the front end calls:
 * `getFullYear`, `getMonth` (0-based), `getDate`, plus the time of day.
 * Two dates denote the same instant (`getTime() === getTime()`) exactly
 * when they are equal values, and `>` on dates is the chronological order.
 */
module JsDates {
  import opened Wrappers
  import opened JsText

  type Month0 = m: int | 0 <= m < 12
  type DayOfMonth = d: int | 1 <= d <= 31 witness 1
  type MillisOfDay = t: int | 0 <= t < 86_400_000

  datatype JsDate = JsDate(year: int, month: Month0, day: DayOfMonth, millis: MillisOfDay)

  /** `a > b` on two dates: `a` is strictly later. */
  predicate After(a: JsDate, b: JsDate) {
    a.year > b.year
    || (a.year == b.year && a.month > b.month)
    || (a.year == b.year && a.month == b.month && a.day > b.day)
    || (a.year == b.year && a.month == b.month && a.day == b.day && a.millis > b.millis)
  }

  /** `After` is the strict order of instants: irreflexive, transitive and total on distinct dates. */
  lemma AfterIsStrictTotalOrder(a: JsDate, b: JsDate, c: JsDate)
    ensures !After(a, a)
    ensures After(a, b) && After(b, c) ==> After(a, c)
    ensures a != b ==> After(a, b) != After(b, a)
  {
  }

  /**
   * `r` reads back as the calendar day of `d`: a signed year numeral, '-',
   * two digits giving the 1-based month, '-', two digits giving the day.
   */
  predicate IsYmdOf(r: string, d: JsDate) {
    && |r| >= 7
    && r[|r| - 6] == '-' && r[|r| - 3] == '-'
    && AllDigits(r[|r| - 5..|r| - 3]) && DecimalValue(r[|r| - 5..|r| - 3]) == d.month + 1
    && AllDigits(r[|r| - 2..]) && DecimalValue(r[|r| - 2..]) == d.day
    && IsIntString(r[..|r| - 6]) && IntValue(r[..|r| - 6]) == d.year
  }

  /** The `${y}-${m}-${d}` string of a present date, month and day padded to two digits. */
  function Ymd(d: JsDate): (r: string)
    ensures IsYmdOf(r, d)
  {
    var y := IntToString(d.year);
    var m := PadStart2(NatToString(d.month + 1));
    var dd := PadStart2(NatToString(d.day));
    YmdLayout(y, m, dd);
    y + "-" + m + "-" + dd
  }

  /** Where the parts of `y-m-d` sit when the month and day take two characters each. */
  lemma YmdLayout(y: string, m: string, dd: string)
    requires |m| == 2 && |dd| == 2
    ensures var r := y + "-" + m + "-" + dd;
      && |r| == |y| + 6 && r[..|r| - 6] == y
      && r[|r| - 6] == '-' && r[|r| - 5..|r| - 3] == m
      && r[|r| - 3] == '-' && r[|r| - 2..] == dd
  {
    var r := y + "-" + m + "-" + dd;
    assert r[..|y|] == y;
    assert r[|y| + 1..|y| + 3] == m;
    assert r[|y| + 4..] == dd;
  }

  /** `toYMD`: null for an absent date, otherwise its calendar day as `Y-MM-DD`. */
  function ToYMD(d: Option<JsDate>): (r: Option<string>)
    ensures r.None? <==> d.None?
    ensures d.Some? ==> IsYmdOf(r.value, d.value)
  {
    match d
    case None => None
    case Some(date) => Some(Ymd(date))
  }

  /** Two dates serialise alike exactly when they fall on the same calendar day; the time of day is dropped. */
  lemma YmdSameDay(a: JsDate, b: JsDate)
    ensures Ymd(a) == Ymd(b) <==> a.year == b.year && a.month == b.month && a.day == b.day
  {
    if Ymd(a) == Ymd(b) {
      assert IsYmdOf(Ymd(a), b);
    }
  }
}
