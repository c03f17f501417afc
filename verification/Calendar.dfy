/** Calendar days, their order, their YYYYMMDD text, and natural-month arithmetic. */
module Calendar {
  import opened Options

  datatype Date = Date(year: int, month: int, day: int) {
    predicate Exists() {
      1 <= year && 1 <= month <= 12 && 1 <= day <= DaysIn(year, month)
    }

    // Months since year 0, and the position of the day in the order of all days.
    function MonthIndex(): int { year * 12 + month - 1 }
    function Rank(): int { MonthIndex() * 31 + day - 1 }
  }

  type Day = d: Date | d.Exists() witness Date(2013, 1, 1)

  predicate IsLeap(year: int) {
    year % 4 == 0 && (year % 100 != 0 || year % 400 == 0)
  }

  function DaysIn(year: int, month: int): (n: int)
    ensures 28 <= n <= 31
  {
    if month == 2 then (if IsLeap(year) then 29 else 28)
    else if month in {4, 6, 9, 11} then 30
    else 31
  }

  /** Rank orders days as (year, month, day) tuples and tells them apart. */
  lemma RankIsTheCalendarOrder(a: Day, b: Day)
    ensures a.Rank() < b.Rank() <==>
            a.year < b.year || (a.year == b.year && (a.month < b.month || (a.month == b.month && a.day < b.day)))
    ensures a.Rank() == b.Rank() <==> a == b
  {
    if a.MonthIndex() == b.MonthIndex() {
      assert a.year == b.year && a.month == b.month;
    }
  }

  /** The same day some months on, or the first of the next month where that day is absent. */
  function MonthsLater(d: Day, months: nat): (later: Day)
  {
    var index := d.MonthIndex() + months;
    var year, month := index / 12, index % 12;
    if d.day <= DaysIn(year, month + 1) then Date(year, month + 1, d.day)
    else Date(year + (month + 1) / 12, (month + 1) % 12 + 1, 1)
  }

  /** Independently of how it is computed: the first day that exists on or after day `d.day`
      of the month that many months on. */
  lemma MonthsLaterIsTheFirstDayOnOrAfter(d: Day, months: nat, other: Day)
    ensures MonthsLater(d, months).Rank() >= (d.MonthIndex() + months) * 31 + d.day - 1
    ensures other.Rank() >= (d.MonthIndex() + months) * 31 + d.day - 1 ==> other.Rank() >= MonthsLater(d, months).Rank()
  {
    var index := d.MonthIndex() + months;
    var later := MonthsLater(d, months);
    if d.day <= DaysIn(index / 12, index % 12 + 1) {
      assert later.MonthIndex() == index;
    } else {
      assert later.MonthIndex() == index + 1 && later.day == 1;
      if other.MonthIndex() == index {
        assert other.year == index / 12 && other.month == index % 12 + 1;
      }
    }
  }

  /** Monotone in the date and in the number of months, over month ends, leap days and year ends. */
  lemma MonthsLaterIsMonotone(a: Day, b: Day, m: nat, n: nat)
    requires a.Rank() <= b.Rank() && m <= n
    ensures MonthsLater(a, m).Rank() <= MonthsLater(b, n).Rank()
  {
    MonthsLaterIsTheFirstDayOnOrAfter(b, n, b);
    MonthsLaterIsTheFirstDayOnOrAfter(a, m, MonthsLater(b, n));
  }

  // ---- YYYYMMDD text ----

  predicate IsDigits(text: string) {
    forall i :: 0 <= i < |text| ==> '0' <= text[i] <= '9'
  }

  function Number(text: string): (n: nat)
    requires IsDigits(text)
  {
    if text == "" then 0 else Number(text[..|text| - 1]) * 10 + (text[|text| - 1] as int - '0' as int)
  }

  /** The day a text names; None where the source refuses it. */
  function ParseDay(text: string): (day: Option<Day>)
  {
    if |text| != 8 || !IsDigits(text) then None
    else
      var d := Date(Number(text[..4]), Number(text[4..6]), Number(text[6..8]));
      if d.Exists() then Some(d) else None
  }

  /** Python's < on strings. */
  predicate TextBefore(s: string, t: string)
  {
    if s == "" then t != ""
    else t != "" && (s[0] < t[0] || (s[0] == t[0] && TextBefore(s[1..], t[1..])))
  }

  lemma {:induction false} TextBeforeByParts(a: string, b: string, c: string, d: string)
    requires |a| == |c|
    ensures TextBefore(a + b, c + d) <==> TextBefore(a, c) || (a == c && TextBefore(b, d))
  {
    if a == "" {
      assert a + b == b && c + d == d;
    } else {
      assert (a + b)[1..] == a[1..] + b && (c + d)[1..] == c[1..] + d;
      TextBeforeByParts(a[1..], b, c[1..], d);
      assert a == c <==> a[0] == c[0] && a[1..] == c[1..];
    }
  }

  lemma {:induction false} TextOrderIsNumberOrder(s: string, t: string)
    requires |s| == |t| && IsDigits(s) && IsDigits(t)
    ensures TextBefore(s, t) <==> Number(s) < Number(t)
    ensures s == t <==> Number(s) == Number(t)
  {
    hide TextBefore;
    if s == "" {
      NothingIsBeforeNothing();
    } else {
      var n := |s| - 1;
      TextOrderIsNumberOrder(s[..n], t[..n]);
      hide Number;
      LastCharacterDecides(s[..n], s[n], t[..n], t[n]);
      assert s == s[..n] + [s[n]] && t == t[..n] + [t[n]];
      LastDigit(s);
      LastDigit(t);
      OrderByParts(Number(s[..n]), s[n] as int - '0' as int, Number(t[..n]), t[n] as int - '0' as int);
    }
  }

  lemma OrderByParts(a: int, x: int, b: int, y: int)
    requires 0 <= x <= 9 && 0 <= y <= 9
    ensures a * 10 + x < b * 10 + y <==> a < b || (a == b && x < y)
    ensures a * 10 + x == b * 10 + y <==> a == b && x == y
  {}

  lemma NothingIsBeforeNothing()
    ensures !TextBefore("", "")
  {}

  lemma LastCharacterDecides(p: string, c: char, q: string, d: char)
    requires |p| == |q|
    ensures TextBefore(p + [c], q + [d]) <==> TextBefore(p, q) || (p == q && c < d)
    ensures p + [c] == q + [d] <==> p == q && c == d
  {
    hide TextBefore;
    TextBeforeByParts(p, [c], q, [d]);
    OneCharacterOrder(c, d);
    if p + [c] == q + [d] {
      assert p == (p + [c])[..|p|] && q == (q + [d])[..|q|];
      assert c == (p + [c])[|p|] && d == (q + [d])[|q|];
    }
  }

  lemma OneCharacterOrder(c: char, d: char)
    ensures TextBefore([c], [d]) <==> c < d
  {
    assert [c][1..] == "" && [d][1..] == "";
  }

  lemma LastDigit(s: string)
    requires s != "" && IsDigits(s)
    ensures var n := |s| - 1; 0 <= Number(s) - Number(s[..n]) * 10 == s[n] as int - '0' as int <= 9
  {}

  /** The source compares dates as text in one place and as dates in another; they agree. */
  lemma TextOrderIsCalendarOrder(s: string, t: string)
    requires ParseDay(s).Some? && ParseDay(t).Some?
    ensures TextBefore(s, t) <==> ParseDay(s).value.Rank() < ParseDay(t).value.Rank()
  {
    assert s == s[..4] + (s[4..6] + s[6..8]) && t == t[..4] + (t[4..6] + t[6..8]);
    TextBeforeByParts(s[..4], s[4..6] + s[6..8], t[..4], t[4..6] + t[6..8]);
    TextBeforeByParts(s[4..6], s[6..8], t[4..6], t[6..8]);
    TextOrderIsNumberOrder(s[..4], t[..4]);
    TextOrderIsNumberOrder(s[4..6], t[4..6]);
    TextOrderIsNumberOrder(s[6..8], t[6..8]);
    RankIsTheCalendarOrder(ParseDay(s).value, ParseDay(t).value);
  }
}
