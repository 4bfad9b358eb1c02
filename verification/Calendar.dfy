/** The proleptic Gregorian calendar as Python's `datetime` counts it. Day 1 is Monday, 1 January of year 1; a
    month is counted from year 0, so that month k is month k % 12 + 1 of year k / 12. */
module Calendar {

  predicate IsLeap(year: nat) {
    year % 4 == 0 && (year % 100 != 0 || year % 400 == 0)
  }

  function YearLength(year: nat): nat {
    365 + if IsLeap(year) then 1 else 0
  }

  /** The days of all years before `year`. */
  function DaysBeforeYear(year: nat): nat
    requires year >= 1
  {
    if year == 1 then 0 else DaysBeforeYear(year - 1) + YearLength(year - 1)
  }

  /** The last day of a month: `calendar.monthrange(year, month)[1]`. */
  function DaysInMonth(year: nat, month: nat): (n: nat)
    requires 1 <= month <= 12
    ensures 28 <= n <= 31
  {
    if month == 2 then (if IsLeap(year) then 29 else 28)
    else if month == 4 || month == 6 || month == 9 || month == 11 then 30
    else 31
  }

  function DaysBeforeMonth(year: nat, month: nat): nat
    requires 1 <= month <= 12
  {
    if month == 1 then 0 else DaysBeforeMonth(year, month - 1) + DaysInMonth(year, month - 1)
  }

  /** The day number of a date. */
  function Ordinal(year: nat, month: nat, day: nat): nat
    requires year >= 1 && 1 <= month <= 12
  {
    DaysBeforeYear(year) + DaysBeforeMonth(year, month) + day
  }

  // ----- months in a row -----

  function MonthLength(k: nat): nat {
    DaysInMonth(k / 12, k % 12 + 1)
  }

  /** The day number of the first day of month k. */
  function MonthStart(k: nat): nat
    requires k >= 12
  {
    Ordinal(k / 12, k % 12 + 1, 1)
  }

  lemma December(year: nat)
    ensures DaysBeforeMonth(year, 12) + 31 == YearLength(year)
  {
    assert DaysBeforeMonth(year, 2) == 31;
    assert DaysBeforeMonth(year, 3) == 31 + DaysInMonth(year, 2);
    assert DaysBeforeMonth(year, 5) == DaysBeforeMonth(year, 3) + 61;
    assert DaysBeforeMonth(year, 7) == DaysBeforeMonth(year, 5) + 61;
    assert DaysBeforeMonth(year, 9) == DaysBeforeMonth(year, 7) + 62;
    assert DaysBeforeMonth(year, 11) == DaysBeforeMonth(year, 9) + 61;
  }

  /** Each month starts where the one before it ends, across the turn of the year too. */
  lemma NextMonthStart(k: nat)
    requires k >= 12
    ensures MonthStart(k + 1) == MonthStart(k) + MonthLength(k)
  {
    var year, month := k / 12, k % 12 + 1;
    if month == 12 {
      assert (k + 1) / 12 == year + 1 && (k + 1) % 12 == 0;
      assert DaysBeforeYear(year + 1) == DaysBeforeYear(year) + YearLength(year);
      December(year);
    } else {
      assert (k + 1) / 12 == year && (k + 1) % 12 + 1 == month + 1;
    }
  }

  lemma {:induction false} MonthsIncrease(j: nat, k: nat)
    requires 12 <= j < k
    ensures MonthStart(j) + MonthLength(j) <= MonthStart(k)
    ensures MonthStart(j) < MonthStart(k)
  {
    NextMonthStart(k - 1);
    if j < k - 1 {
      MonthsIncrease(j, k - 1);
    }
  }

  // ----- from a day number to its date -----

  /** Month `k` holds day `n`. */
  predicate InMonth(n: nat, k: nat) {
    k >= 12 && MonthStart(k) <= n < MonthStart(k) + MonthLength(k)
  }

  lemma {:induction false} MonthExists(n: nat) returns (k: nat)
    requires n >= 1
    ensures InMonth(n, k) && k <= n + 11
  {
    if n == 1 {
      k := 12;
    } else {
      k := MonthExists(n - 1);
      NextMonthStart(k);
      k := if n < MonthStart(k) + MonthLength(k) then k else k + 1;
    }
  }

  lemma MonthUnique(n: nat, j: nat, k: nat)
    requires InMonth(n, j) && InMonth(n, k)
    ensures j == k
  {
    if j < k {
      MonthsIncrease(j, k);
    } else if k < j {
      MonthsIncrease(k, j);
    }
  }

  function MonthOf(n: nat): (k: nat)
    requires n >= 1
    ensures InMonth(n, k)
  {
    assert exists k :: 12 <= k <= n + 11 && InMonth(n, k) by {
      var k := MonthExists(n);
    }
    assert forall j, k :: 12 <= j <= n + 11 && InMonth(n, j) && 12 <= k <= n + 11 && InMonth(n, k) ==> j == k by {
      forall j, k | 12 <= j <= n + 11 && InMonth(n, j) && 12 <= k <= n + 11 && InMonth(n, k)
        ensures j == k
      {
        MonthUnique(n, j, k);
      }
    }
    var k :| 12 <= k <= n + 11 && InMonth(n, k);
    k
  }

  datatype Date = Date(year: nat, month: nat, day: nat)

  predicate ValidDate(d: Date) {
    d.year >= 1 && 1 <= d.month <= 12 && 1 <= d.day <= DaysInMonth(d.year, d.month)
  }

  function DateOf(n: nat): (d: Date)
    requires n >= 1
    ensures ValidDate(d) && Ordinal(d.year, d.month, d.day) == n
  {
    var k := MonthOf(n);
    Date(k / 12, k % 12 + 1, n - MonthStart(k) + 1)
  }

  lemma DateInMonth(n: nat, k: nat)
    requires n >= 1 && InMonth(n, k)
    ensures DateOf(n) == Date(k / 12, k % 12 + 1, n - MonthStart(k) + 1)
  {
    MonthUnique(n, k, MonthOf(n));
  }

  lemma MonthStartPositive(k: nat)
    requires k >= 12
    ensures MonthStart(k) >= 1
  {
  }

  /** Every valid date is read back from its day number. */
  lemma DateOfOrdinal(d: Date)
    requires ValidDate(d)
    ensures Ordinal(d.year, d.month, d.day) >= 1 && DateOf(Ordinal(d.year, d.month, d.day)) == d
  {
    var n := Ordinal(d.year, d.month, d.day);
    var k := 12 * d.year + d.month - 1;
    assert k / 12 == d.year && k % 12 + 1 == d.month;
    MonthUnique(n, k, MonthOf(n));
  }

  /** Monday is 0. */
  function Weekday(n: nat): (w: nat)
    ensures w < 7
  {
    (n + 6) % 7
  }
}
