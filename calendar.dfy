/**
 * The month window of `/statistics` and `/bar-chart`:
 * `new Date(2021, month, 1)` up to, but not including,
 * `new Date(2021, month+1, 1)`, where `month` is the text of the query
 * string. Date arithmetic follows section 15.9.1 of ECMA-262 5.1
 * (DayFromYear, MakeDay, MakeDate, TimeClip); the local time zone is
 * taken to be UTC.
 */
module Calendar {
  import opened Transactions

  const MsPerDay: int := 86400000
  /** TimeClip's bound: 100,000,000 days either side of the epoch (section 15.9.1.14). */
  const MaxTimeValue: int := 8640000000000000
  /** The year the routes build their dates in. */
  const ReferenceYear: int := 2021

  /** Day number of 1 January of year `y` (section 15.9.1.3); `/` is floor division here. */
  function DayFromYear(y: int): int
  {
    365 * (y - 1970) + (y - 1969) / 4 - (y - 1901) / 100 + (y - 1601) / 400
  }

  predicate InLeapYear(y: int)
  {
    y % 4 == 0 && (y % 100 != 0 || y % 400 == 0)
  }

  function DaysInYear(y: int): int
  {
    if InLeapYear(y) then 366 else 365
  }

  /** Days of the year before the first day of month `mn` (0 is January), as MonthFromTime counts them. */
  function DaysBeforeMonth(mn: int, leap: bool): int
    requires 0 <= mn < 12
  {
    var plain :=
      if mn == 0 then 0 else if mn == 1 then 31 else if mn == 2 then 59
      else if mn == 3 then 90 else if mn == 4 then 120 else if mn == 5 then 151
      else if mn == 6 then 181 else if mn == 7 then 212 else if mn == 8 then 243
      else if mn == 9 then 273 else if mn == 10 then 304 else 334;
    if leap && mn >= 2 then plain + 1 else plain
  }

  /**
   * MakeDay (section 15.9.1.12): a month index outside 0..11 carries
   * into the year, `ym = year + floor(month / 12)`, `mn = month mod 12`.
   */
  function MakeDay(year: int, month: int, date: int): int
  {
    var ym := year + month / 12;
    var mn := month % 12;
    DayFromYear(ym) + DaysBeforeMonth(mn, InLeapYear(ym)) + date - 1
  }

  /** MakeDate (section 15.9.1.13). */
  function MakeDate(day: int, time: int): int
  {
    day * MsPerDay + time
  }

  /** TimeClip (section 15.9.1.14): `None` stands for NaN, an Invalid Date. */
  function TimeClip(t: int): Option<int>
  {
    if -MaxTimeValue <= t <= MaxTimeValue then Some(t) else None
  }

  /** `new Date(year, month, 1)` (section 15.9.3.1) for a month already converted to a number. */
  function NewDate(year: int, month: Option<int>): (r: Option<int>)
    ensures month.None? ==> r.None?
    ensures r.Some? ==> -MaxTimeValue <= r.value <= MaxTimeValue
  {
    match month
    case None => None
    case Some(m) => TimeClip(MakeDate(MakeDay(year, m, 1), 0))
  }

  predicate IsDigit(c: char)
  {
    '0' <= c <= '9'
  }

  predicate AllDigits(s: string)
  {
    forall i :: 0 <= i < |s| ==> IsDigit(s[i])
  }

  /** The decimal value of a string of digits. */
  function DigitsValue(s: string): nat
    requires AllDigits(s)
  {
    if s == [] then 0 else 10 * DigitsValue(s[..|s| - 1]) + (s[|s| - 1] as int - '0' as int)
  }

  /**
   * ToNumber applied to a string (section 9.3.1), for the empty string
   * (which is 0) and strings of decimal digits; every other string is
   * taken to give NaN (`None`).
   */
  function ToNumber(s: string): (r: Option<int>)
    ensures r.Some? <==> AllDigits(s)
    ensures r.Some? ==> r.value >= 0
    ensures s == "" ==> r == Some(0)
  {
    if AllDigits(s) then Some(DigitsValue(s)) else None
  }

  /** A half-open interval of time values: `start <= t < end`. */
  datatype Window = Window(start: int, end: int)

  predicate InWindow(t: Transaction, w: Window)
  {
    w.start <= t.dateOfSale < w.end
  }

  /** The records `{ dateOfSale: { $gte: w.start, $lt: w.end } }` selects, in store order. */
  function RecordsIn(store: seq<Transaction>, w: Window): (r: seq<Transaction>)
    ensures |r| <= |store|
    ensures forall t :: t in r <==> t in store && InWindow(t, w)
  {
    if store == [] then []
    else (if InWindow(store[0], w) then [store[0]] else []) + RecordsIn(store[1..], w)
  }

  /** `new Date(2021, month, 1)` for the query-string text `month`. */
  function StartDate(month: string): (r: Option<int>)
    ensures r.Some? ==> ToNumber(month).Some?
    ensures r.Some? ==> -MaxTimeValue <= r.value <= MaxTimeValue
  {
    NewDate(ReferenceYear, ToNumber(month))
  }

  /** `new Date(2021, month+1, 1)`: `month` is a string, so `month+1` appends the digit 1. */
  function EndDate(month: string): (r: Option<int>)
    ensures ToNumber(month).Some? ==> r == NewDate(ReferenceYear, Some(10 * ToNumber(month).value + 1))
  {
    var end := NewDate(ReferenceYear, ToNumber(month + "1"));
    if AllDigits(month) then EndIndexIsConcatenation(month); end else end
  }

  /** The window of two bounds, or `None` when either is an Invalid Date. */
  function DateWindow(start: Option<int>, end: Option<int>): Option<Window>
  {
    if start.Some? && end.Some? then Some(Window(start.value, end.value)) else None
  }

  /** The window both routes query for the query-string text `month`. */
  function MonthWindow(month: string): (r: Option<Window>)
    ensures r.Some? ==> ToNumber(month).Some?
    ensures r.Some? ==> 18628 * MsPerDay <= r.value.start < r.value.end
  {
    WindowOrdered(month);
    DateWindow(StartDate(month), EndDate(month))
  }

  /** The bounds of a month window start no earlier than 2021 and are in order. */
  lemma WindowOrdered(month: string)
    ensures var w := DateWindow(StartDate(month), EndDate(month));
      w.Some? ==> ToNumber(month).Some? && 18628 * MsPerDay <= w.value.start < w.value.end
  {
    if ToNumber(month).Some? {
      var m := ToNumber(month).value;
      BoundsAsDates(month, m);
      WindowOfMonthCount(m);
      BoundsOrdered(m);
      var a := FirstOfMonth(ReferenceMonth + m);
      assert 18628 * MsPerDay <= a * MsPerDay;
    }
  }

  /**
   * Day number of the first day of month `n`, counted in months from
   * January of year 0: the year is `n / 12` and the month within it `n % 12`.
   */
  function FirstOfMonth(n: int): int
  {
    DayFromYear(n / 12) + DaysBeforeMonth(n % 12, InLeapYear(n / 12))
  }

  // ---------------------------------------------------------------------
  // Properties of the date arithmetic
  // ---------------------------------------------------------------------

  /** The concatenated month text reads as ten times the month plus one. */
  lemma EndIndexIsConcatenation(s: string)
    requires AllDigits(s)
    ensures ToNumber(s + "1") == Some(10 * DigitsValue(s) + 1)
  {
    var t := s + "1";
    DigitAppended(s);
    assert t[..|t| - 1] == s;
    assert DigitsValue(t) == 10 * DigitsValue(s) + 1;
  }

  /** Appending the digit 1 to a string of digits gives a string of digits. */
  lemma DigitAppended(s: string)
    requires AllDigits(s)
    ensures AllDigits(s + "1")
  {
    var t := s + "1";
    forall i | 0 <= i < |t| ensures IsDigit(t[i]) {
      if i < |s| {
        assert t[i] == s[i];
      }
    }
  }

  /**
   * Floor division by `d` of `y - c` steps up by one, from year `y` to
   * year `y + 1`, exactly when `d` divides `y + 1 - c`.
   */
  lemma FloorStep(y: int, c: int, d: int)
    requires d == 4 || d == 100 || d == 400
    ensures (y + 1 - c) / d - (y - c) / d == if (y + 1 - c) % d == 0 then 1 else 0
  {
    var x := y - c;
    var q, r := x / d, x % d;
    assert x == d * q + r;
    if r == d - 1 {
      assert x + 1 == d * (q + 1);
    } else {
      assert x + 1 == d * q + (r + 1);
    }
  }

  /** The offsets in DayFromYear are multiples of 4, 100 and 400 respectively. */
  lemma LeapOffsets(y: int)
    ensures (y - 1968) % 4 == y % 4
    ensures (y - 1900) % 100 == y % 100
    ensures (y - 1600) % 400 == y % 400
  {
    var q4, q100, q400 := y / 4, y / 100, y / 400;
    assert y - 1968 == 4 * (q4 - 492) + y % 4;
    assert y - 1900 == 100 * (q100 - 19) + y % 100;
    assert y - 1600 == 400 * (q400 - 4) + y % 400;
  }

  /** The three leap-year terms of DayFromYear step by one exactly at the years that divide. */
  lemma LeapSteps(y: int)
    ensures (y + 1 - 1969) / 4 - (y - 1969) / 4 == if y % 4 == 0 then 1 else 0
    ensures (y + 1 - 1901) / 100 - (y - 1901) / 100 == if y % 100 == 0 then 1 else 0
    ensures (y + 1 - 1601) / 400 - (y - 1601) / 400 == if y % 400 == 0 then 1 else 0
  {
    FloorStep(y, 1969, 4);
    FloorStep(y, 1901, 100);
    FloorStep(y, 1601, 400);
    LeapOffsets(y);
    assert y + 1 - 1969 == y - 1968 && y + 1 - 1901 == y - 1900 && y + 1 - 1601 == y - 1600;
  }

  /** Successive years start DaysInYear days apart. */
  lemma YearLength(y: int)
    ensures DayFromYear(y + 1) - DayFromYear(y) == DaysInYear(y)
  {
    var a := (y + 1 - 1969) / 4 - (y - 1969) / 4;
    var b := (y + 1 - 1901) / 100 - (y - 1901) / 100;
    var c := (y + 1 - 1601) / 400 - (y - 1601) / 400;
    LeapSteps(y);
    assert DayFromYear(y + 1) - DayFromYear(y) == 365 + a - b + c;
    CenturyDivisors(y);
  }

  /** A multiple of 400 is a multiple of 100, and a multiple of 100 one of 4. */
  lemma CenturyDivisors(y: int)
    ensures y % 400 == 0 ==> y % 100 == 0
    ensures y % 100 == 0 ==> y % 4 == 0
  {
    if y % 400 == 0 {
      var q := y / 400;
      assert y == 100 * (4 * q);
    }
    if y % 100 == 0 {
      var q := y / 100;
      assert y == 4 * (25 * q);
    }
  }

  /** Month count `12 * year + month` splits back into MakeDay's carried year and month. */
  lemma CarrySplit(year: int, month: int)
    ensures (12 * year + month) / 12 == year + month / 12
    ensures (12 * year + month) % 12 == month % 12
  {
    var q, r := month / 12, month % 12;
    assert 12 * year + month == 12 * (year + q) + r;
  }

  /** MakeDay's carry: only the month count `12 * year + month` matters. */
  lemma MakeDayCarries(year: int, month: int)
    ensures MakeDay(year, month, 1) == FirstOfMonth(12 * year + month)
  {
    CarrySplit(year, month);
  }

  /** Within one year the months are 28 to 31 days long, December 31. */
  lemma MonthTable(r: int, leap: bool)
    requires 0 <= r < 12
    ensures r < 11 ==> 28 <= DaysBeforeMonth(r + 1, leap) - DaysBeforeMonth(r, leap) <= 31
    ensures DaysBeforeMonth(11, leap) == (if leap then 366 else 365) - 31
  {
  }

  /** Split of month `n + 1` into year and month, by whether month `n` is December. */
  lemma NextMonthSplit(n: int)
    ensures n % 12 < 11 ==> (n + 1) / 12 == n / 12 && (n + 1) % 12 == n % 12 + 1
    ensures n % 12 == 11 ==> (n + 1) / 12 == n / 12 + 1 && (n + 1) % 12 == 0
  {
    var y, r := n / 12, n % 12;
    assert n == 12 * y + r;
    if r < 11 {
      assert n + 1 == 12 * y + (r + 1);
    } else {
      assert n + 1 == 12 * (y + 1);
    }
  }

  /** Consecutive months are 28 to 31 days long. */
  lemma MonthLength(n: int)
    ensures 28 <= FirstOfMonth(n + 1) - FirstOfMonth(n) <= 31
  {
    var y, r := n / 12, n % 12;
    NextMonthSplit(n);
    MonthTable(r, InLeapYear(y));
    if r == 11 {
      YearLength(y);
    }
  }

  /** Later months start later: FirstOfMonth is strictly increasing. */
  lemma FirstOfMonthIncreasing(a: int, b: int)
    requires a < b
    ensures FirstOfMonth(a) < FirstOfMonth(b)
  {
    forall n ensures FirstOfMonth(n) < FirstOfMonth(n + 1) {
      MonthLength(n);
    }
    StepsIncrease(FirstOfMonth, a, b);
  }

  /** A function that grows at every step grows from any point to any later one. */
  lemma {:induction false} StepsIncrease(f: int -> int, a: int, b: int)
    requires forall n :: f(n) < f(n + 1)
    requires a < b
    ensures f(a) < f(b)
    decreases b - a
  {
    if a < b - 1 {
      StepsIncrease(f, a, b - 1);
      assert f(b - 1) < f(b - 1 + 1);
    }
  }

  /** Different months start on different days. */
  lemma FirstOfMonthInjective(a: int, b: int)
    ensures FirstOfMonth(a) == FirstOfMonth(b) <==> a == b
  {
    if a < b {
      FirstOfMonthIncreasing(a, b);
    } else if b < a {
      FirstOfMonthIncreasing(b, a);
    }
  }

  /** Month number of January of the reference year. */
  const ReferenceMonth: int := 12 * ReferenceYear

  /** `new Date(2021, m, 1)` is TimeClip of the first day of month `m` counted from January 2021. */
  lemma NewDateAsMonth(m: int)
    ensures NewDate(ReferenceYear, Some(m)) == TimeClip(FirstOfMonth(ReferenceMonth + m) * MsPerDay)
  {
    MakeDayCarries(ReferenceYear, m);
  }

  /** For month text with the value `m`, the bounds are the dates of months `m` and `10 * m + 1`. */
  lemma BoundsAsDates(s: string, m: int)
    requires ToNumber(s) == Some(m)
    ensures StartDate(s) == NewDate(ReferenceYear, Some(m))
    ensures EndDate(s) == NewDate(ReferenceYear, Some(10 * m + 1))
  {
    assert AllDigits(s) && DigitsValue(s) == m;
    EndIndexIsConcatenation(s);
    assert ToNumber(s + "1") == Some(10 * m + 1);
  }

  /** The end month starts after the start month, which starts no earlier than 1 January 2021. */
  lemma BoundsOrdered(m: nat)
    ensures 18628 <= FirstOfMonth(ReferenceMonth + m) < FirstOfMonth(ReferenceMonth + (10 * m + 1))
  {
    assert FirstOfMonth(ReferenceMonth) == 18628;
    if m > 0 {
      FirstOfMonthIncreasing(ReferenceMonth, ReferenceMonth + m);
    }
    FirstOfMonthIncreasing(ReferenceMonth + m, ReferenceMonth + (10 * m + 1));
  }

  /**
   * The window of month count `m`: from the first of month `m` of 2021 to
   * the first of month `10 * m + 1` of 2021, both carried into later
   * years as MakeDay does; it exists exactly when that end lies within
   * TimeClip's range.
   */
  lemma WindowOfMonthCount(m: nat)
    ensures var w := DateWindow(NewDate(ReferenceYear, Some(m)), NewDate(ReferenceYear, Some(10 * m + 1)));
      && (w.Some? <==> FirstOfMonth(ReferenceMonth + (10 * m + 1)) * MsPerDay <= MaxTimeValue)
      && (w.Some? ==> w.value == Window(FirstOfMonth(ReferenceMonth + m) * MsPerDay,
                                        FirstOfMonth(ReferenceMonth + (10 * m + 1)) * MsPerDay))
  {
    NewDateAsMonth(m);
    NewDateAsMonth(10 * m + 1);
    BoundsOrdered(m);
    var a, b := FirstOfMonth(ReferenceMonth + m), FirstOfMonth(ReferenceMonth + (10 * m + 1));
    assert a * MsPerDay < b * MsPerDay;
  }

  /**
   * For month text with the value `m`, the window runs from the first of
   * month `m` of 2021 to the first of month `10 * m + 1`; it exists
   * exactly when that end lies within TimeClip's range.
   */
  lemma WindowBounds(s: string, m: int)
    requires ToNumber(s) == Some(m)
    ensures MonthWindow(s).Some? <==>
      FirstOfMonth(ReferenceMonth + (10 * m + 1)) * MsPerDay <= MaxTimeValue
    ensures MonthWindow(s).Some? ==>
      MonthWindow(s).value == Window(FirstOfMonth(ReferenceMonth + m) * MsPerDay,
                                     FirstOfMonth(ReferenceMonth + (10 * m + 1)) * MsPerDay)
  {
    BoundsAsDates(s, m);
    WindowOfMonthCount(m);
  }

  /** Month `10 * m + 1` is the month after month `m` exactly when `m` is 0. */
  lemma NextMonthOnlyForZero(m: nat)
    ensures FirstOfMonth(ReferenceMonth + (10 * m + 1)) == FirstOfMonth(ReferenceMonth + m + 1) <==> m == 0
  {
    FirstOfMonthInjective(ReferenceMonth + (10 * m + 1), ReferenceMonth + m + 1);
  }

  /**
   * The window is one calendar month long, ending where the month after
   * its first day begins, exactly when the month text has the value 0;
   * otherwise it runs on for `9 * m` further months.
   */
  lemma OneMonthOnlyForJanuary(s: string, m: int)
    requires ToNumber(s) == Some(m)
    requires MonthWindow(s).Some?
    ensures MonthWindow(s).value.end == FirstOfMonth(ReferenceMonth + m + 1) * MsPerDay <==> m == 0
  {
    WindowBounds(s, m);
    NextMonthOnlyForZero(m);
  }

  /** Day numbers of 1 June 2021 and 1 April 2025. */
  lemma JuneAndAprilDays()
    ensures MakeDay(2021, 5, 1) == 18779 && MakeDay(2025, 3, 1) == 20179
  {
    JuneFirst();
    AprilFirst();
  }

  /** 1 June 2021 is day 18779 of the epoch. */
  lemma JuneFirst()
    ensures MakeDay(2021, 5, 1) == 18779
  {
  }

  /** 1 April 2025 is day 20179 of the epoch. */
  lemma AprilFirst()
    ensures MakeDay(2025, 3, 1) == 20179
  {
  }

  /** A month text of "5" queries from 1 June 2021 up to 1 April 2025. */
  lemma JuneQueryRunsToApril2025()
    ensures MonthWindow("5") == Some(Window(MakeDay(2021, 5, 1) * MsPerDay, MakeDay(2025, 3, 1) * MsPerDay))
    ensures MonthWindow("5") == Some(Window(18779 * MsPerDay, 20179 * MsPerDay))
  {
    JuneAndAprilDays();
    WindowBounds("5", 5);
    MakeDayCarries(2021, 5);
    MakeDayCarries(2025, 3);
  }
}
