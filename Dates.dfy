/** Calendar dates as the app handles them through date-fns: the proleptic
    Gregorian calendar, month arithmetic that clamps the day, the day of the
    week, and the zero-padded `yyyy-MM-dd` / `yyyy-MM` strings that expenses
    and the selected month are stored as. */
module Dates {
  import opened Text

  datatype Date = Date(year: int, month: int, day: int)

  predicate IsLeapYear(y: int)
  {
    y % 4 == 0 && (y % 100 != 0 || y % 400 == 0)
  }

  function DaysInMonth(y: int, m: int): (n: int)
    requires 1 <= m <= 12
    ensures 28 <= n <= 31
    ensures m == 2 ==> (n == 29 <==> IsLeapYear(y))
  {
    if m == 2 then (if IsLeapYear(y) then 29 else 28)
    else if m == 4 || m == 6 || m == 9 || m == 11 then 30
    else 31
  }

  /** A calendar day whose year `yyyy` writes with exactly four digits. */
  predicate ValidDate(d: Date)
  {
    0 <= d.year <= 9999 && 1 <= d.month <= 12 && 1 <= d.day <= DaysInMonth(d.year, d.month)
  }

  /** Chronological order (`!isAfter(a, b)` on start-of-day dates). */
  predicate DateLe(a: Date, b: Date)
  {
    a.year < b.year || (a.year == b.year && (a.month < b.month || (a.month == b.month && a.day <= b.day)))
  }

  predicate SameMonth(a: Date, b: Date)
  {
    a.year == b.year && a.month == b.month
  }

  /** `startOfMonth`: the first day of the month, no later than any day in it. */
  function StartOfMonth(d: Date): (r: Date)
    requires ValidDate(d)
    ensures ValidDate(r) && SameMonth(r, d) && r.day == 1
    ensures forall e :: SameMonth(e, d) && ValidDate(e) ==> DateLe(r, e)
  {
    Date(d.year, d.month, 1)
  }

  /** `endOfMonth`: the last day of the month, no earlier than any day in it. */
  function EndOfMonth(d: Date): (r: Date)
    requires ValidDate(d)
    ensures ValidDate(r) && SameMonth(r, d)
    ensures forall e :: SameMonth(e, d) && ValidDate(e) ==> DateLe(e, r)
    ensures r.day == DaysInMonth(d.year, d.month)
  {
    Date(d.year, d.month, DaysInMonth(d.year, d.month))
  }

  /** Months since January of year 0. */
  function MonthIndex(d: Date): int
  {
    d.year * 12 + d.month - 1
  }

  /** `addMonths(d, n)` (and `subMonths(d, -n)`): move by whole months and
      clamp the day to the length of the month reached. */
  function AddMonths(d: Date, n: int): (r: Date)
    requires ValidDate(d)
    requires 0 <= MonthIndex(d) + n < 120000
    ensures ValidDate(r)
    ensures MonthIndex(r) == MonthIndex(d) + n
    ensures r.day == if d.day <= DaysInMonth(r.year, r.month) then d.day else DaysInMonth(r.year, r.month)
  {
    var k := MonthIndex(d) + n;
    var y, m := k / 12, k % 12 + 1;
    var last := DaysInMonth(y, m);
    Date(y, m, if d.day <= last then d.day else last)
  }

  /** Two months with the same index are the same month. */
  lemma MonthIndexInjective(a: Date, b: Date)
    requires 1 <= a.month <= 12 && 1 <= b.month <= 12
    ensures MonthIndex(a) == MonthIndex(b) <==> SameMonth(a, b)
  {
  }

  // ---------------------------------------------------------------------------
  // Formatting: `format(d, 'yyyy-MM-dd')` and `format(d, 'yyyy-MM')`

  function Pow10(w: nat): (p: nat)
    ensures p >= 1
  {
    if w == 0 then 1 else 10 * Pow10(w - 1)
  }

  function Digit(n: int): (c: char)
    requires 0 <= n < 10
    ensures '0' <= c <= '9'
  {
    (48 + n) as char
  }

  /** `n` in decimal, left-padded with zeros to exactly `w` digits. */
  function Pad(n: int, w: nat): (s: string)
    requires 0 <= n < Pow10(w)
    ensures |s| == w
    ensures forall i :: 0 <= i < |s| ==> '0' <= s[i] <= '9'
  {
    if w == 0 then [] else Pad(n / 10, w - 1) + [Digit(n % 10)]
  }

  /** Zero-padded numerals of one width compare as strings the way the
      numbers compare, and equal numerals mean equal numbers. */
  lemma {:induction false} PadOrder(n1: int, n2: int, w: nat)
    requires 0 <= n1 < Pow10(w) && 0 <= n2 < Pow10(w)
    ensures LexLe(Pad(n1, w), Pad(n2, w)) <==> n1 <= n2
    ensures Pad(n1, w) == Pad(n2, w) <==> n1 == n2
  {
    if w == 0 {
      assert n1 == 0 && n2 == 0;
    } else {
      var h1, h2 := Pad(n1 / 10, w - 1), Pad(n2 / 10, w - 1);
      var d1, d2 := Digit(n1 % 10), Digit(n2 % 10);
      PadOrder(n1 / 10, n2 / 10, w - 1);
      LexLeConcat(h1, [d1], h2, [d2]);
      assert LexLe([d1], [d2]) <==> n1 % 10 <= n2 % 10 by {
        assert [d1][1..] == [] && [d2][1..] == [];
        assert d1 as int == 48 + n1 % 10 && d2 as int == 48 + n2 % 10;
      }
      assert h1 + [d1] == h2 + [d2] <==> h1 == h2 && d1 == d2 by {
        if h1 + [d1] == h2 + [d2] {
          assert h1 == (h1 + [d1])[..w - 1] && h2 == (h2 + [d2])[..w - 1];
          assert d1 == (h1 + [d1])[w - 1];
        }
      }
      assert d1 == d2 <==> n1 % 10 == n2 % 10 by {
        assert d1 as int == 48 + n1 % 10 && d2 as int == 48 + n2 % 10;
      }
    }
  }

  /** `format(d, 'yyyy-MM')`, the key of a month. */
  function MonthKey(d: Date): (s: string)
    requires ValidDate(d)
    ensures |s| == 7
  {
    Pad(d.year, 4) + "-" + Pad(d.month, 2)
  }

  /** `format(d, 'yyyy-MM-dd')`, the form expense dates are stored in. */
  function Format(d: Date): (s: string)
    requires ValidDate(d)
    ensures |s| == 10
  {
    MonthKey(d) + "-" + Pad(d.day, 2)
  }

  lemma MonthKeyInjective(a: Date, b: Date)
    requires ValidDate(a) && ValidDate(b)
    ensures MonthKey(a) == MonthKey(b) <==> SameMonth(a, b)
  {
    var ya, yb, ma, mb := Pad(a.year, 4), Pad(b.year, 4), Pad(a.month, 2), Pad(b.month, 2);
    SplitEq(ya + "-", ma, yb + "-", mb);
    SplitEq(ya, "-", yb, "-");
    PadInjective(a.year, b.year, 4);
    PadInjective(a.month, b.month, 2);
  }

  /** Zero-padded numerals of one width are equal only for equal numbers. */
  lemma PadInjective(n1: int, n2: int, w: nat)
    requires 0 <= n1 < Pow10(w) && 0 <= n2 < Pow10(w)
    ensures Pad(n1, w) == Pad(n2, w) <==> n1 == n2
  {
    PadOrder(n1, n2, w);
    PadOrder(n2, n1, w);
    LexLeRefl(Pad(n1, w));
  }

  /** A stored date starts with a month key (`date.startsWith(month)`)
      exactly when it lies in that month. */
  lemma MonthKeyPrefix(m: Date, d: Date)
    requires ValidDate(m) && ValidDate(d)
    ensures MonthKey(m) <= Format(d) <==> SameMonth(m, d)
  {
    MonthKeyInjective(m, d);
    assert Format(d)[..7] == MonthKey(d);
  }

  /** Two strings made of a block, a dash and a rest, with blocks of equal
      length, compare by block first and rest second. */
  lemma DashConcat(a1: string, b1: string, a2: string, b2: string)
    requires |a1| == |a2|
    ensures LexLe(a1 + "-" + b1, a2 + "-" + b2) <==> (a1 == a2 && LexLe(b1, b2)) || (a1 != a2 && LexLe(a1, a2))
    ensures a1 + "-" + b1 == a2 + "-" + b2 <==> a1 == a2 && b1 == b2
  {
    assert a1 + "-" + b1 == a1 + ("-" + b1);
    assert a2 + "-" + b2 == a2 + ("-" + b2);
    LexLeConcat(a1, "-" + b1, a2, "-" + b2);
    LexLeConcat("-", b1, "-", b2);
    SplitEq(a1, "-" + b1, a2, "-" + b2);
    SplitEq("-", b1, "-", b2);
  }

  /** Comparing stored dates as strings, as the analysis period filter does,
      is comparing them chronologically. */
  lemma FormatOrder(a: Date, b: Date)
    requires ValidDate(a) && ValidDate(b)
    ensures LexLe(Format(a), Format(b)) <==> DateLe(a, b)
    ensures Format(a) == Format(b) <==> a == b
  {
    PadOrder(a.year, b.year, 4);
    PadOrder(a.month, b.month, 2);
    PadOrder(a.day, b.day, 2);
    DashConcat(Pad(a.year, 4), Pad(a.month, 2), Pad(b.year, 4), Pad(b.month, 2));
    DashConcat(MonthKey(a), Pad(a.day, 2), MonthKey(b), Pad(b.day, 2));
  }

  lemma SplitEq(a1: string, b1: string, a2: string, b2: string)
    requires |a1| == |a2|
    ensures a1 + b1 == a2 + b2 <==> a1 == a2 && b1 == b2
  {
    if a1 + b1 == a2 + b2 {
      assert a1 == (a1 + b1)[..|a1|] && a2 == (a2 + b2)[..|a1|];
      assert b1 == (a1 + b1)[|a1|..] && b2 == (a2 + b2)[|a1|..];
    }
  }

  // ---------------------------------------------------------------------------
  // Day numbers and the day of the week (`Date.prototype.getDay`)

  /** Days from 1 January of year 0 to 1 January of year `y`. */
  function DaysBeforeYear(y: int): int
    requires y >= 0
  {
    365 * y + (y + 3) / 4 - (y + 99) / 100 + (y + 399) / 400
  }

  /** Days from 1 January to the first of month `m` of year `y`. */
  function DaysBeforeMonth(y: int, m: int): (n: int)
    requires 1 <= m <= 12
  {
    var common := [0, 31, 59, 90, 120, 151, 181, 212, 243, 273, 304, 334][m - 1];
    if m > 2 && IsLeapYear(y) then common + 1 else common
  }

  function DayNumber(d: Date): int
    requires ValidDate(d)
  {
    DaysBeforeYear(d.year) + DaysBeforeMonth(d.year, d.month) + d.day - 1
  }

  /** 0 for Sunday through 6 for Saturday. */
  function Weekday(d: Date): (w: int)
    requires ValidDate(d)
    ensures 0 <= w < 7
  {
    (DayNumber(d) + 6) % 7
  }

  /** The day after `d`. */
  function NextDay(d: Date): (r: Date)
    requires ValidDate(d) && d.year < 9999
    ensures ValidDate(r) && DateLe(d, r) && r != d
  {
    if d.day < DaysInMonth(d.year, d.month) then Date(d.year, d.month, d.day + 1)
    else if d.month < 12 then Date(d.year, d.month + 1, 1)
    else Date(d.year + 1, 1, 1)
  }

  lemma YearLength(y: int)
    requires y >= 0
    ensures DaysBeforeYear(y + 1) == DaysBeforeYear(y) + if IsLeapYear(y) then 366 else 365
  {
    YearSplit(y);
    StepDiv4(y);
    StepDiv100(y);
    StepDiv400(y);
    Divides(y);
  }

  lemma YearSplit(y: int)
    requires y >= 0
    ensures DaysBeforeYear(y + 1) == DaysBeforeYear(y) + 365 + ((y + 4) / 4 - (y + 3) / 4)
              - ((y + 100) / 100 - (y + 99) / 100) + ((y + 400) / 400 - (y + 399) / 400)
  {
    assert y + 1 + 3 == y + 4;
  }

  lemma Divides(y: int)
    requires y >= 0
    ensures y % 100 == 0 ==> y % 4 == 0
    ensures y % 400 == 0 ==> y % 100 == 0
  {
    if y % 100 == 0 {
      var q := y / 100;
      assert y == 4 * (25 * q);
    }
    if y % 400 == 0 {
      var q := y / 400;
      assert y == 100 * (4 * q);
    }
  }

  lemma StepDiv4(y: int)
    requires y >= 0
    ensures (y + 4) / 4 == (y + 3) / 4 + (if y % 4 == 0 then 1 else 0)
  {
  }

  lemma StepDiv100(y: int)
    requires y >= 0
    ensures (y + 100) / 100 == (y + 99) / 100 + (if y % 100 == 0 then 1 else 0)
  {
  }

  lemma StepDiv400(y: int)
    requires y >= 0
    ensures (y + 400) / 400 == (y + 399) / 400 + (if y % 400 == 0 then 1 else 0)
  {
  }

  /** Consecutive calendar days have consecutive day numbers, across month and
      year ends, leap days included. */
  lemma NextDayNumber(d: Date)
    requires ValidDate(d) && d.year < 9999
    ensures DayNumber(NextDay(d)) == DayNumber(d) + 1
    ensures Weekday(NextDay(d)) == (Weekday(d) + 1) % 7
  {
    var y, m := d.year, d.month;
    if d.day < DaysInMonth(y, m) {
    } else if m < 12 {
      NextMonthStart(y, m);
    } else {
      NextYearStart(y);
    }
    WeekdayStep(DayNumber(d));
  }

  lemma NextMonthStart(y: int, m: int)
    requires 1 <= m < 12
    ensures DaysBeforeMonth(y, m + 1) == DaysBeforeMonth(y, m) + DaysInMonth(y, m)
  {
  }

  lemma NextYearStart(y: int)
    requires y >= 0
    ensures DaysBeforeYear(y + 1) == DaysBeforeYear(y) + DaysBeforeMonth(y, 12) + DaysInMonth(y, 12)
  {
    YearLength(y);
  }

  lemma WeekdayStep(n: int)
    ensures (n + 1 + 6) % 7 == ((n + 6) % 7 + 1) % 7
  {
    var q := (n + 6) / 7;
    assert n + 6 == 7 * q + (n + 6) % 7;
  }

  /** 1 January 1970 was a Thursday. */
  lemma EpochWeekday()
    ensures Weekday(Date(1970, 1, 1)) == 4
  {
  }
}
