/** When the next scheduled backup runs (app/services/schedule_utils.py). Instants are microseconds, local time is
    UTC plus a constant offset, and day n begins at n * DAY. */
module Schedule {
  import opened Basics
  import opened Text
  import opened Calendar

  const MINUTE: nat := 60_000_000
  const DAY: nat := 1440 * MINUTE

  // ----- the time of day -----

  datatype Clock = Clock(hour: int, minute: int)

  predicate ValidClock(c: Clock) {
    0 <= c.hour <= 23 && 0 <= c.minute <= 59
  }

  /** The digits of a numeral with single underscores between digits. */
  function DropUnderscores(s: string): Option<string> {
    if s == "" || !IsDigit(s[0]) then None
    else if |s| == 1 then Some(s)
    else
      var rest := DropUnderscores(if s[1] == '_' then s[2..] else s[1..]);
      if rest.Some? then Some([s[0]] + rest.value) else None
  }

  lemma {:induction false} DroppedAreDigits(s: string)
    ensures DropUnderscores(s).Some? ==> AllDigits(DropUnderscores(s).value)
  {
    if s != "" && IsDigit(s[0]) && |s| > 1 {
      DroppedAreDigits(if s[1] == '_' then s[2..] else s[1..]);
    }
  }

  /** `int(s)`; None for a ValueError. */
  function PyInt(s: string): Option<int> {
    var t := Strip(s);
    var body := if StartsWith(t, "-") || StartsWith(t, "+") then t[1..] else t;
    DroppedAreDigits(body);
    match DropUnderscores(body)
    case None => None
    case Some(digits) => Some(if StartsWith(t, "-") then -(ParseNat(digits) as int) else ParseNat(digits))
  }

  function ParseClock(raw: string): Option<Clock> {
    var parts := Split(raw, ':');
    if |parts| != 2 then None
    else
      match (PyInt(parts[0]), PyInt(parts[1]))
      case (Some(h), Some(m)) => Some(Clock(h, m))
      case _ => None
  }

  function TwoDigits(n: nat): string
    requires n < 100
  {
    [DigitChar(n / 10), DigitChar(n % 10)]
  }

  function PrintClock(c: Clock): string
    requires ValidClock(c)
  {
    TwoDigits(c.hour) + ":" + TwoDigits(c.minute)
  }

  function SanitizeDailyTime(time: string, default: string): string {
    match ParseClock(Strip(time))
    case Some(c) => if ValidClock(c) then PrintClock(c) else default
    case None => default
  }

  lemma PyIntTwoDigits(n: nat)
    requires n < 100
    ensures PyInt(TwoDigits(n)) == Some(n)
  {
    var t := TwoDigits(n);
    var a, b := [t[0]], [t[1]];
    assert t[1..] == b && t[..1] == a && a[..0] == "" && b[..0] == "";
    StripTrimmed(t);
    assert DropUnderscores(b) == Some(b);
    assert DropUnderscores(t) == Some(a + b);
    assert ParseNat(a) == n / 10;
    assert ParseNat(t) == 10 * ParseNat(a) + n % 10;
    assert a + b == t;
  }

  /** A printed time of day is read back as it was. */
  lemma ParsePrintClock(c: Clock)
    requires ValidClock(c)
    ensures ParseClock(PrintClock(c)) == Some(c) && Strip(PrintClock(c)) == PrintClock(c)
  {
    var h, m := TwoDigits(c.hour), TwoDigits(c.minute);
    SplitHead(h, ':', m);
    SplitHead(m, ':', "");
    PyIntTwoDigits(c.hour);
    PyIntTwoDigits(c.minute);
    StripTrimmed(PrintClock(c));
  }

  /** The result is always a printed time of day if the fallback is one; then sanitising it again, with any
      fallback, changes nothing. */
  lemma SanitizedIsClock(time: string, default: Clock) returns (c: Clock)
    requires ValidClock(default)
    ensures ValidClock(c) && SanitizeDailyTime(time, PrintClock(default)) == PrintClock(c)
    ensures forall again :: SanitizeDailyTime(PrintClock(c), again) == PrintClock(c)
  {
    var parsed := ParseClock(Strip(time));
    c := if parsed.Some? && ValidClock(parsed.value) then parsed.value else default;
    ParsePrintClock(c);
  }

  const TWO := Clock(2, 0)
  const MIDNIGHT := Clock(0, 0)

  /** The time of day a time string stands for. */
  function ClockOf(time: string, default: Clock): (c: Clock)
    requires ValidClock(default)
    ensures ValidClock(c)
  {
    var parsed := ParseClock(Strip(time));
    if parsed.Some? && ValidClock(parsed.value) then parsed.value else default
  }

  // ----- instants -----

  function DayOf(t: int): int {
    t / DAY
  }

  /** The instant of a clock time on a day. */
  function At(day: int, c: Clock): int {
    day * DAY + (c.hour * 60 + c.minute) * MINUTE
  }

  lemma AtDay(day: int, c: Clock)
    requires ValidClock(c)
    ensures DayOf(At(day, c)) == day && day * DAY <= At(day, c) < (day + 1) * DAY
  {
    InDay(day, (c.hour * 60 + c.minute) * MINUTE);
  }

  lemma InDay(day: int, within: int)
    requires 0 <= within < DAY
    ensures (day * DAY + within) / DAY == day
  {
  }

  /** From 1 January of year 1 on. */
  predicate Representable(local: int) {
    local >= DAY
  }

  // ----- the next run -----

  function NextDaily(c: Clock, local: int): int {
    var candidate := At(DayOf(local), c);
    if candidate <= local then candidate + DAY else candidate
  }

  function Clamp(lo: int, n: int, hi: int): int {
    Max(lo, Min(n, hi))
  }

  /** The weekday wanted; none stands for the reference's own. */
  function TargetWeekday(dayOfWeek: Option<int>, local: int): (w: nat)
    requires Representable(local)
    ensures w < 7
  {
    Clamp(0, if dayOfWeek.Some? then dayOfWeek.value else Weekday(DayOf(local)), 6)
  }

  function NextWeekly(c: Clock, dayOfWeek: Option<int>, local: int): int
    requires Representable(local)
  {
    var today := Weekday(DayOf(local));
    var target := TargetWeekday(dayOfWeek, local);
    var candidate := At(DayOf(local), c) + (target - today) % 7 * DAY;
    if candidate <= local then candidate + 7 * DAY else candidate
  }

  /** The run of one month: the day wanted, or the last day if the month is shorter. */
  function MonthlyRun(year: nat, month: nat, target: nat, c: Clock): int
    requires year >= 1 && 1 <= month <= 12
  {
    At(Ordinal(year, month, Min(target, DaysInMonth(year, month))), c)
  }

  /** The day of the month wanted: none and 0 stand for 1. */
  function TargetDay(dayOfMonth: Option<int>): (d: nat)
    ensures 1 <= d <= 31
  {
    Clamp(1, if dayOfMonth.Some? && dayOfMonth.value != 0 then dayOfMonth.value else 1, 31)
  }

  function NextMonthly(c: Clock, dayOfMonth: Option<int>, local: int): int
    requires Representable(local)
  {
    var today := DateOf(DayOf(local));
    ThisOrNextMonth(today.year, today.month, TargetDay(dayOfMonth), c, local)
  }

  function ThisOrNextMonth(year: nat, month: nat, target: nat, c: Clock, local: int): int
    requires year >= 1 && 1 <= month <= 12
  {
    var candidate := MonthlyRun(year, month, target, c);
    if candidate > local then candidate
    else if month + 1 > 12 then MonthlyRun(year + 1, 1, target, c)
    else MonthlyRun(year, month + 1, target, c)
  }

  /** The routine of a schedule: frequency as stored, and the days the rarer frequencies use. */
  datatype Routine = Routine(time: string, frequency: string, dayOfWeek: Option<int>, dayOfMonth: Option<int>)

  datatype Frequency = Daily | Weekly | Monthly

  /** Everything that is not weekly or monthly is daily. */
  function FrequencyOf(stored: string): Frequency {
    var f := Lower(Strip(stored));
    if f == "weekly" then Weekly else if f == "monthly" then Monthly else Daily
  }

  function ComputeNextDailyRunAt(time: string, utc: int, offset: int): int {
    NextDaily(ClockOf(time, TWO), utc + offset) - offset
  }

  function ComputeNextRunAt(r: Routine, utc: int, offset: int): int
    requires Representable(utc + offset)
  {
    var c := ClockOf(r.time, MIDNIGHT);
    match FrequencyOf(r.frequency)
    case Weekly => NextWeekly(c, r.dayOfWeek, utc + offset) - offset
    case Monthly => NextMonthly(c, r.dayOfMonth, utc + offset) - offset
    case Daily => ComputeNextDailyRunAt(PrintClock(c), utc, offset)
  }

  // ----- what an occurrence is -----

  /** Local instant `t` has clock time `c`, to the microsecond. */
  predicate AtClock(c: Clock, t: int) {
    t == At(DayOf(t), c)
  }

  /** The day has the day of the month wanted, or is the last of a month that has no such day. */
  predicate MonthlyDay(target: nat, day: int) {
    && day >= 1
    && var d := DateOf(day);
       d.day == target || (d.day < target && d.day == DaysInMonth(d.year, d.month))
  }

  predicate WeeklyDay(weekday: nat, day: int) {
    day >= 1 && Weekday(day) == weekday
  }

  function MonthlyOn(target: nat): int -> bool {
    day => MonthlyDay(target, day)
  }

  function WeeklyOn(weekday: nat): int -> bool {
    day => WeeklyDay(weekday, day)
  }

  function EveryDay(): int -> bool {
    day => true
  }

  /** The days of a routine, for runs counted from `local`: a weekly routine without a day keeps to the weekday of
      `local`. */
  function DaysOf(r: Routine, local: int): int -> bool
    requires Representable(local)
  {
    match FrequencyOf(r.frequency)
    case Weekly => WeeklyOn(TargetWeekday(r.dayOfWeek, local))
    case Monthly => MonthlyOn(TargetDay(r.dayOfMonth))
    case Daily => EveryDay()
  }

  /** `r` is the least local instant after `local` that has clock time `c` on a chosen day. */
  predicate LeastRun(on: int -> bool, c: Clock, local: int, r: int) {
    && r > local && AtClock(c, r) && on(DayOf(r))
    && forall t :: local < t < r && AtClock(c, t) ==> !on(DayOf(t))
  }

  // ----- the least occurrence, for any choice of days -----

  lemma DayBounds(t: int)
    ensures DayOf(t) * DAY <= t < (DayOf(t) + 1) * DAY
  {
  }

  /** `first` is the first chosen day from today on, or an earlier one with none in between, and `next` is the
      chosen day after it, which the run moves on to if the run of `first` is past. */
  lemma LeastOnDays(on: int -> bool, c: Clock, local: int, first: int, next: int)
    requires ValidClock(c) && on(first) && on(next)
    requires first < next && DayOf(local) < next
    requires forall d :: DayOf(local) <= d < next && d != first ==> !on(d)
    ensures LeastRun(on, c, local, if At(first, c) <= local then At(next, c) else At(first, c))
  {
    DayBounds(local);
    AtDay(first, c);
    AtDay(next, c);
    var r := if At(first, c) <= local then At(next, c) else At(first, c);
    forall t | local < t < r && AtClock(c, t)
      ensures !on(DayOf(t))
    {
      DayBounds(t);
    }
  }

  // ----- each frequency -----

  lemma DailyLeast(c: Clock, local: int)
    requires ValidClock(c)
    ensures LeastRun(EveryDay(), c, local, NextDaily(c, local))
  {
    LeastOnDays(EveryDay(), c, local, DayOf(local), DayOf(local) + 1);
  }

  lemma SameWeekday(w: nat, target: nat, ahead: nat, k: nat)
    requires w < 7 && target < 7 && ahead == if target >= w then target - w else target + 7 - w
    requires k < ahead + 7
    ensures (w + k) % 7 == target <==> k == ahead
  {
    if (w + k) % 7 == target {
      assert w + k == target || w + k == target + 7 || w + k == target + 14;
    }
  }

  lemma WeekdayShift(n: nat, k: nat)
    ensures Weekday(n + k) == (Weekday(n) + k) % 7
  {
  }

  lemma DaysAhead(w: nat, target: nat)
    requires w < 7 && target < 7
    ensures (target - w) % 7 == if target >= w then target - w else target + 7 - w
  {
  }

  lemma WeeklyDays(day: nat, target: nat, k: nat)
    requires day >= 1 && target < 7
    ensures var ahead := (target - Weekday(day)) % 7;
            (k < ahead + 7 ==> (WeeklyDay(target, day + k) <==> k == ahead)) && WeeklyDay(target, day + ahead + 7)
  {
    var ahead := (target - Weekday(day)) % 7;
    DaysAhead(Weekday(day), target);
    WeekdayShift(day, ahead);
    SameWeekday(Weekday(day), target, ahead, ahead);
    WeekdayShift(day + ahead, 7);
    if k < ahead + 7 {
      WeekdayShift(day, k);
      SameWeekday(Weekday(day), target, ahead, k);
    }
  }

  lemma WeeklyLeast(c: Clock, dayOfWeek: Option<int>, local: int)
    requires ValidClock(c) && Representable(local)
    ensures LeastRun(WeeklyOn(TargetWeekday(dayOfWeek, local)), c, local, NextWeekly(c, dayOfWeek, local))
  {
    var day, target := DayOf(local), TargetWeekday(dayOfWeek, local);
    var ahead := (target - Weekday(day)) % 7;
    WeeklyDays(day, target, ahead);
    forall d | day <= d < day + ahead + 7 && d != day + ahead
      ensures !WeeklyOn(target)(d)
    {
      WeeklyDays(day, target, d - day);
    }
    LeastOnDays(WeeklyOn(target), c, local, day + ahead, day + ahead + 7);
    AtLater(day, ahead, c);
    AtLater(day + ahead, 7, c);
  }

  lemma AtLater(day: int, k: int, c: Clock)
    ensures At(day + k, c) == At(day, c) + k * DAY
  {
  }

  /** The day of the run of month `k`. */
  function RunDay(k: nat, target: nat): int
    requires k >= 12
  {
    MonthStart(k) + Min(target, MonthLength(k)) - 1
  }

  lemma RunOfMonth(k: nat, target: nat, c: Clock)
    requires k >= 12 && 1 <= target <= 31
    ensures MonthlyRun(k / 12, k % 12 + 1, target, c) == At(RunDay(k, target), c)
    ensures InMonth(RunDay(k, target), k)
  {
  }

  /** A day matches exactly when it is the day of the run of its month. */
  lemma MonthlyIsRun(target: nat, day: nat, k: nat)
    requires 1 <= target <= 31 && day >= 1 && InMonth(day, k)
    ensures MonthlyDay(target, day) <==> day == RunDay(k, target)
  {
    DateInMonth(day, k);
    Capped(target, MonthLength(k), day - MonthStart(k) + 1);
  }

  lemma Capped(target: nat, length: nat, d: nat)
    requires d <= length
    ensures (d == target || (d < target && d == length)) <==> d == Min(target, length)
  {
  }

  /** No chosen day of months `k` and `k + 1` but the days of their runs. */
  lemma OtherDays(k: nat, target: nat, d: nat)
    requires k >= 12 && 1 <= target <= 31 && d >= 1
    ensures MonthStart(k) <= d < RunDay(k + 1, target) && d != RunDay(k, target) ==> !MonthlyDay(target, d)
  {
    NextMonthStart(k);
    RunOfMonth(k + 1, target, MIDNIGHT);
    if MonthStart(k) <= d < RunDay(k + 1, target) {
      MonthlyIsRun(target, d, if d < MonthStart(k + 1) then k else k + 1);
    }
  }

  lemma NextMonthlyRuns(c: Clock, dayOfMonth: Option<int>, local: int, k: nat)
    requires Representable(local) && InMonth(DayOf(local), k)
    ensures var first, next := At(RunDay(k, TargetDay(dayOfMonth)), c), At(RunDay(k + 1, TargetDay(dayOfMonth)), c);
            NextMonthly(c, dayOfMonth, local) == if first <= local then next else first
  {
    DateInMonth(DayOf(local), k);
    ThisOrNextRuns(c, TargetDay(dayOfMonth), local, k);
  }

  lemma ThisOrNextRuns(c: Clock, target: nat, local: int, k: nat)
    requires k >= 12 && 1 <= target <= 31
    ensures var first, next := At(RunDay(k, target), c), At(RunDay(k + 1, target), c);
            ThisOrNextMonth(k / 12, k % 12 + 1, target, c, local) == if first <= local then next else first
  {
    RunOfMonth(k, target, c);
    RunOfMonth(k + 1, target, c);
    MonthAfter(k);
  }

  lemma MonthAfter(k: nat)
    ensures (k + 1) / 12 == (if k % 12 == 11 then k / 12 + 1 else k / 12)
    ensures (k + 1) % 12 == (if k % 12 == 11 then 0 else k % 12 + 1)
  {
  }

  lemma RunDayMatches(k: nat, target: nat)
    requires k >= 12 && 1 <= target <= 31
    ensures MonthlyOn(target)(RunDay(k, target))
  {
    MonthStartPositive(k);
    RunOfMonth(k, target, MIDNIGHT);
    MonthlyIsRun(target, RunDay(k, target), k);
  }

  lemma RunDaysInOrder(k: nat, target: nat, today: nat)
    requires 1 <= target <= 31 && InMonth(today, k)
    ensures RunDay(k, target) < RunDay(k + 1, target) && today < RunDay(k + 1, target)
  {
    NextMonthStart(k);
    RunOfMonth(k, target, MIDNIGHT);
    RunOfMonth(k + 1, target, MIDNIGHT);
  }

  /** `first` and `next` are two chosen days, with no other from `today` to `next`. */
  predicate Neighbours(on: int -> bool, today: int, first: int, next: int) {
    && on(first) && on(next) && first < next && today < next
    && forall d :: today <= d < next && d != first ==> !on(d)
  }

  lemma NoOtherDays(target: nat, today: nat, k: nat)
    requires 1 <= target <= 31 && today >= 1 && InMonth(today, k)
    ensures forall d :: today <= d < RunDay(k + 1, target) && d != RunDay(k, target) ==> !MonthlyOn(target)(d)
  {
    forall d | today <= d < RunDay(k + 1, target) && d != RunDay(k, target)
      ensures !MonthlyOn(target)(d)
    {
      OtherDays(k, target, d);
    }
  }

  lemma TwoRunDays(target: nat, today: nat, k: nat)
    requires 1 <= target <= 31 && InMonth(today, k)
    ensures var first, next := RunDay(k, target), RunDay(k + 1, target);
            MonthlyOn(target)(first) && MonthlyOn(target)(next) && first < next && today < next
  {
    RunDaysInOrder(k, target, today);
    RunDayMatches(k, target);
    RunDayMatches(k + 1, target);
  }

  lemma NeighbourRuns(target: nat, today: nat, k: nat)
    requires 1 <= target <= 31 && today >= 1 && InMonth(today, k)
    ensures Neighbours(MonthlyOn(target), today, RunDay(k, target), RunDay(k + 1, target))
  {
    TwoRunDays(target, today, k);
    NoOtherDays(target, today, k);
  }

  lemma LeastOfNeighbours(on: int -> bool, c: Clock, local: int, first: int, next: int)
    requires ValidClock(c) && Neighbours(on, DayOf(local), first, next)
    ensures LeastRun(on, c, local, if At(first, c) <= local then At(next, c) else At(first, c))
  {
    LeastOnDays(on, c, local, first, next);
  }

  lemma MonthlyLeast(c: Clock, dayOfMonth: Option<int>, local: int)
    requires ValidClock(c) && Representable(local)
    ensures LeastRun(MonthlyOn(TargetDay(dayOfMonth)), c, local, NextMonthly(c, dayOfMonth, local))
  {
    var target, k := TargetDay(dayOfMonth), MonthOf(DayOf(local));
    NextMonthlyRuns(c, dayOfMonth, local, k);
    NeighbourRuns(target, DayOf(local), k);
    LeastOfNeighbours(MonthlyOn(target), c, local, RunDay(k, target), RunDay(k + 1, target));
  }

  // ----- any routine -----

  lemma NextDailyRunIsLeast(time: string, utc: int, offset: int)
    ensures var local := utc + offset;
            LeastRun(EveryDay(), ClockOf(time, TWO), local, ComputeNextDailyRunAt(time, utc, offset) + offset)
  {
    DailyLeast(ClockOf(time, TWO), utc + offset);
  }

  lemma PrintedClockOf(c: Clock)
    requires ValidClock(c)
    ensures ClockOf(PrintClock(c), TWO) == c
  {
    ParsePrintClock(c);
  }

  lemma NextWeeklyRunIsLeast(r: Routine, utc: int, offset: int)
    requires Representable(utc + offset) && FrequencyOf(r.frequency) == Weekly
    ensures var local := utc + offset;
            LeastRun(DaysOf(r, local), ClockOf(r.time, MIDNIGHT), local, ComputeNextRunAt(r, utc, offset) + offset)
  {
    WeeklyLeast(ClockOf(r.time, MIDNIGHT), r.dayOfWeek, utc + offset);
  }

  lemma NextMonthlyRunIsLeast(r: Routine, utc: int, offset: int)
    requires Representable(utc + offset) && FrequencyOf(r.frequency) == Monthly
    ensures var local := utc + offset;
            LeastRun(DaysOf(r, local), ClockOf(r.time, MIDNIGHT), local, ComputeNextRunAt(r, utc, offset) + offset)
  {
    MonthlyLeast(ClockOf(r.time, MIDNIGHT), r.dayOfMonth, utc + offset);
  }

  /** The next run is the least occurrence strictly after the reference, whatever the frequency. */
  lemma NextRunIsLeast(r: Routine, utc: int, offset: int)
    requires Representable(utc + offset)
    ensures var local := utc + offset;
            LeastRun(DaysOf(r, local), ClockOf(r.time, MIDNIGHT), local, ComputeNextRunAt(r, utc, offset) + offset)
  {
    match FrequencyOf(r.frequency)
    case Weekly => NextWeeklyRunIsLeast(r, utc, offset);
    case Monthly => NextMonthlyRunIsLeast(r, utc, offset);
    case Daily =>
      PrintedClockOf(ClockOf(r.time, MIDNIGHT));
      NextDailyRunIsLeast(PrintClock(ClockOf(r.time, MIDNIGHT)), utc, offset);
  }
}
