/** The proleptic Gregorian calendar in UTC: epoch seconds and months. */
module Calendar {

  const SECONDS_PER_DAY: int := 86400
  /** Days from 0001-01-01 to 1970-01-01. */
  const EPOCH_DAYS: int := 719162

  predicate Leap(y: int)
  {
    y % 4 == 0 && (y % 100 != 0 || y % 400 == 0)
  }

  /** Days before 1 January of year `y`, counted from 0001-01-01. */
  function DaysBeforeYear(y: int): int
  {
    365 * (y - 1) + (y - 1) / 4 - (y - 1) / 100 + (y - 1) / 400
  }

  /** Days of the year before month `m` (0 = January). */
  function DaysBeforeMonth(m: nat, leap: bool): nat
    requires m < 12
  {
    [0, 31, 59, 90, 120, 151, 181, 212, 243, 273, 304, 334][m] + (if leap && m >= 2 then 1 else 0)
  }

  /** The first second of month `k`, counted in months: k = 12 * year + month. */
  function MonthStart(k: int): int
  {
    (DaysBeforeYear(k / 12) + DaysBeforeMonth(k % 12, Leap(k / 12)) - EPOCH_DAYS) * SECONDS_PER_DAY
  }

  lemma YearLength(y: int)
    ensures DaysBeforeYear(y + 1) == DaysBeforeYear(y) + (if Leap(y) then 366 else 365)
  {
    Quotient(y - 1, 4);
    Quotient(y - 1, 100);
    Quotient(y - 1, 400);
  }

  /** Adding one raises a quotient exactly when it completes a multiple. */
  lemma Quotient(x: int, d: int)
    requires d > 0
    ensures (x + 1) / d == x / d + (if (x + 1) % d == 0 then 1 else 0)
  {
    var q, r := x / d, x % d;
    assert x == q * d + r;
    if r == d - 1 {
      assert x + 1 == (q + 1) * d;
      DivUnique(x + 1, d, q + 1, 0);
    } else {
      DivUnique(x + 1, d, q, r + 1);
    }
  }

  lemma MulNonNegative(a: int, b: int)
    requires a >= 0 && b >= 0
    ensures a * b >= 0
  {
  }

  lemma DivUnique(x: int, d: int, q: int, r: int)
    requires d > 0 && 0 <= r < d && x == q * d + r
    ensures x / d == q && x % d == r
  {
    var q', r' := x / d, x % d;
    var diff := q' - q;
    assert x == q' * d + r';
    assert diff * d == q' * d - q * d;
    if diff > 0 {
      assert (diff - 1) * d == diff * d - d;
      MulNonNegative(diff - 1, d);
    } else if diff < 0 {
      assert (-diff - 1) * d == -(diff * d) - d;
      MulNonNegative(-diff - 1, d);
    }
  }

  lemma MonthsIncrease(k: int)
    ensures MonthStart(k) < MonthStart(k + 1)
  {
    Quotient(k, 12);
    YearLength(k / 12);
    var y, m := k / 12, k % 12;
    assert k == 12 * y + m;
    if m == 11 {
      DivUnique(k + 1, 12, y + 1, 0);
    } else {
      DivUnique(k + 1, 12, y, m + 1);
    }
  }

  lemma {:induction false} MonthStartMonotone(j: int, k: int)
    requires j < k
    ensures MonthStart(j) < MonthStart(k)
    decreases k - j
  {
    hide MonthStart;
    MonthsIncrease(k - 1);
    if j < k - 1 {
      MonthStartMonotone(j, k - 1);
    }
  }

  /** Second `t` lies in month `k`. */
  predicate InMonth(t: int, k: int)
  {
    MonthStart(k) <= t < MonthStart(k + 1)
  }

  lemma MonthUnique(t: int, j: int, k: int)
    requires InMonth(t, j) && InMonth(t, k)
    ensures j == k
  {
    hide MonthStart;
    if j < k {
      if j + 1 < k { MonthStartMonotone(j + 1, k); }
    } else if k < j {
      if k + 1 < j { MonthStartMonotone(k + 1, j); }
    }
  }

  lemma {:induction false} FindMonth(t: int, lo: int, hi: int) returns (k: int)
    requires lo < hi && MonthStart(lo) <= t < MonthStart(hi)
    ensures lo <= k < hi && InMonth(t, k)
    decreases hi - lo
  {
    hide MonthStart;
    if lo + 1 == hi || t < MonthStart(lo + 1) {
      k := lo;
    } else {
      k := FindMonth(t, lo + 1, hi);
    }
  }

  /** Month starts grow by at least 28 days a month. */
  lemma {:induction false} MonthStartGrows(n: nat)
    ensures MonthStart(23640 + n) >= MonthStart(23640) + n
    ensures MonthStart(23640 - n) <= MonthStart(23640) - n
  {
    hide MonthStart;
    if n > 0 {
      MonthStartGrows(n - 1);
      MonthsIncrease(23640 + n - 1);
      MonthsIncrease(23640 - n);
    }
  }

  lemma MonthExists(t: int)
    ensures exists k: int :: InMonth(t, k)
  {
    hide MonthStart;
    var base := MonthStart(23640);
    var n: nat := (if t >= base then t - base else base - t) + 1;
    MonthStartGrows(n);
    var k := FindMonth(t, 23640 - n, 23640 + n);
  }

  /** The month an epoch second lies in, counted 12 * year + month. */
  ghost function MonthIndex(t: int): (k: int)
    ensures InMonth(t, k)
  {
    MonthExists(t);
    var k: int :| InMonth(t, k);
    k
  }

  lemma MonthIndexMonotone(s: int, t: int)
    requires s <= t
    ensures MonthIndex(s) <= MonthIndex(t)
  {
    hide MonthStart;
    var j, k := MonthIndex(s), MonthIndex(t);
    if j > k {
      if k + 1 < j { MonthStartMonotone(k + 1, j); }
    }
  }

  /** gmtime: month number 1 .. 12, and year. */
  ghost function MonthOf(t: int): (m: int)
    ensures 1 <= m <= 12
  {
    MonthIndex(t) % 12 + 1
  }

  ghost function YearOf(t: int): int
  {
    MonthIndex(t) / 12
  }

  /** The month of a second, from the calendar. */
  lemma MonthIs(t: int, y: int, m: int)
    requires 1 <= m <= 12 && InMonth(t, 12 * y + m - 1)
    ensures YearOf(t) == y && MonthOf(t) == m
  {
    hide InMonth, MonthStart;
    MonthUnique(t, MonthIndex(t), 12 * y + m - 1);
    DivUnique(12 * y + m - 1, 12, y, m - 1);
  }

  /** The first second of a month, by year and month. */
  lemma MonthStartAt(y: int, m: nat)
    requires m < 12
    ensures MonthStart(12 * y + m)
         == (DaysBeforeYear(y) + DaysBeforeMonth(m, Leap(y)) - EPOCH_DAYS) * SECONDS_PER_DAY
  {
    hide DaysBeforeYear, DaysBeforeMonth, Leap;
    DivUnique(12 * y + m, 12, y, m);
  }

  lemma YearDays()
    ensures DaysBeforeYear(1970) == 719162 && DaysBeforeYear(1971) == 719527 && !Leap(1970) && !Leap(1971)
  {
  }

  lemma MonthDays()
    ensures DaysBeforeMonth(10, false) == 304 && DaysBeforeMonth(11, false) == 334
    ensures DaysBeforeMonth(0, false) == 0 && DaysBeforeMonth(1, false) == 31 && DaysBeforeMonth(2, false) == 59
  {
  }

  lemma November()
    ensures InMonth(26265600, 12 * 1970 + 11 - 1)
  {
    hide MonthStart, DaysBeforeYear, DaysBeforeMonth, Leap;
    YearDays();
    MonthDays();
    MonthStartAt(1970, 10);
    MonthStartAt(1970, 11);
  }

  lemma December()
    ensures InMonth(28857600, 12 * 1970 + 12 - 1)
  {
    hide MonthStart, DaysBeforeYear, DaysBeforeMonth, Leap;
    YearDays();
    MonthDays();
    MonthStartAt(1970, 11);
    MonthStartAt(1971, 0);
  }

  lemma February()
    ensures InMonth(34214400, 12 * 1971 + 2 - 1)
  {
    hide MonthStart, DaysBeforeYear, DaysBeforeMonth, Leap;
    YearDays();
    MonthDays();
    MonthStartAt(1971, 1);
    MonthStartAt(1971, 2);
  }

  // --- The calendar's lengths -------------------------------------------------------------------

  /** The length of every month. */
  lemma MonthLength(y: int, m: int)
    requires 1 <= m <= 12
    ensures MonthStart(12 * y + m) - MonthStart(12 * y + m - 1) == SECONDS_PER_DAY *
            (if m == 2 then (if Leap(y) then 29 else 28) else if m in {4, 6, 9, 11} then 30 else 31)
  {
    hide MonthStart, DaysBeforeYear, Leap;
    MonthStartAt(y, m - 1);
    if m < 12 {
      MonthStartAt(y, m);
    } else {
      MonthStartAt(y + 1, 0);
      YearLength(y);
    }
  }

  /** The calendar repeats after 400 years, which are 146097 days. */
  lemma FourCenturies(k: int)
    ensures MonthStart(k + 4800) == MonthStart(k) + 146097 * SECONDS_PER_DAY
  {
    hide MonthStart, DaysBeforeYear, DaysBeforeMonth, Leap;
    var y, m := k / 12, k % 12;
    assert k == 12 * y + m;
    MonthStartAt(y, m);
    MonthStartAt(y + 400, m);
    FourCenturyDays(y);
  }

  lemma FourCenturyDays(y: int)
    ensures DaysBeforeYear(y + 400) == DaysBeforeYear(y) + 146097 && Leap(y + 400) == Leap(y)
  {
    QuotientBy(y - 1, 4, 100);
    QuotientBy(y - 1, 100, 4);
    QuotientBy(y - 1, 400, 1);
    QuotientBy(y, 4, 100);
    QuotientBy(y, 100, 4);
    QuotientBy(y, 400, 1);
  }

  lemma QuotientBy(x: int, d: int, n: int)
    requires d > 0
    ensures (x + n * d) / d == x / d + n && (x + n * d) % d == x % d
  {
    var q, r := x / d, x % d;
    assert x == q * d + r;
    assert (q + n) * d == q * d + n * d;
    DivUnique(x + n * d, d, q + n, r);
  }

  /** Leap days: 29 February of 1972 and of 2000, and none in 2100 (the second behind its
      28 February is in March). */
  lemma LeapDays()
    ensures MonthOf(68169600) == 2 && YearOf(68169600) == 1972
    ensures MonthOf(951782400) == 2 && YearOf(951782400) == 2000
    ensures MonthOf(4107542399) == 2 && MonthOf(4107542400) == 3 && YearOf(4107542400) == 2100
  {
    hide *;
    February1972();
    February2000();
    Spring2100();
    MonthIs(68169600, 1972, 2);
    MonthIs(951782400, 2000, 2);
    MonthIs(4107542399, 2100, 2);
    MonthIs(4107542400, 2100, 3);
  }

  lemma LeapYearDays()
    ensures DaysBeforeYear(1972) == 719892 && Leap(1972)
    ensures DaysBeforeYear(2000) == 730119 && Leap(2000)
    ensures DaysBeforeYear(2100) == 766644 && !Leap(2100)
    ensures DaysBeforeMonth(1, true) == 31 && DaysBeforeMonth(2, true) == 60
    ensures DaysBeforeMonth(1, false) == 31 && DaysBeforeMonth(2, false) == 59 && DaysBeforeMonth(3, false) == 90
  {
  }

  lemma February1972()
    ensures InMonth(68169600, 12 * 1972 + 2 - 1)
  {
    hide MonthStart, DaysBeforeYear, DaysBeforeMonth, Leap;
    LeapYearDays();
    MonthStartAt(1972, 1);
    MonthStartAt(1972, 2);
  }

  lemma February2000()
    ensures InMonth(951782400, 12 * 2000 + 2 - 1)
  {
    hide MonthStart, DaysBeforeYear, DaysBeforeMonth, Leap;
    LeapYearDays();
    MonthStartAt(2000, 1);
    MonthStartAt(2000, 2);
  }

  lemma Spring2100()
    ensures InMonth(4107542399, 12 * 2100 + 2 - 1) && InMonth(4107542400, 12 * 2100 + 3 - 1)
  {
    hide MonthStart, DaysBeforeYear, DaysBeforeMonth, Leap;
    LeapYearDays();
    MonthStartAt(2100, 1);
    MonthStartAt(2100, 2);
    MonthStartAt(2100, 3);
  }
}
