/** What every run of the scheduler keeps: each batch reaches every eligible device once, and two batches of a tenant
    always have an occurrence of its daily time between them. */
module SchedulerRuns {
  import opened Basics
  import opened Schedule
  import opened Routing
  import opened Dispatch
  import opened Folds
  import opened Scheduler

  // ----- one run reaches every eligible device of every tenant due exactly once -----

  function VpnDevices(jobs: seq<Job>): nat {
    if jobs == [] then 0
    else VpnDevices(jobs[..|jobs| - 1]) + match jobs[|jobs| - 1] case VpnJob(_, _, devices) => |devices| case _ => 0
  }

  lemma {:induction false} VpnDevicesConcat(a: seq<Job>, b: seq<Job>)
    ensures VpnDevices(a + b) == VpnDevices(a) + VpnDevices(b)
  {
    if b == [] {
      assert a + b == a;
    } else {
      VpnDevicesConcat(a, b[..|b| - 1]);
      assert (a + b)[..|a + b| - 1] == a + b[..|b| - 1];
    }
  }

  lemma {:induction false} NoVpnDevices(devices: seq<nat>)
    ensures VpnDevices(DirectJobs(devices)) == 0 && VpnDevices(JumpJobs(devices)) == 0
  {
    if devices != [] {
      NoVpnDevices(devices[..|devices| - 1]);
    }
  }

  lemma {:induction false} VpnDevicesOfGroups(tenant: nat, entries: seq<Entry>, route: nat -> Route, bound: int)
    requires GoodEntries(entries, route, bound)
    ensures VpnDevices(VpnJobs(tenant, entries)) == GroupSizes(entries)
  {
    if entries != [] {
      var before, e := entries[..|entries| - 1], entries[|entries| - 1];
      VpnDevicesOfGroups(tenant, before, route, bound);
      VpnJobsSnoc(tenant, entries, route, bound);
      VpnDevicesSnoc(VpnJobs(tenant, before), e.group, tenant, e.devices);
      GroupSizesSnoc(before, e);
      Snoc(entries);
    }
  }

  lemma VpnDevicesSnoc(jobs: seq<Job>, group: nat, tenant: nat, devices: seq<nat>)
    ensures VpnDevices(jobs + [VpnJob(group, tenant, devices)]) == VpnDevices(jobs) + |devices|
  {
    assert (jobs + [VpnJob(group, tenant, devices)])[..|jobs|] == jobs;
  }

  lemma {:induction false} GroupSizesSnoc(entries: seq<Entry>, e: Entry)
    ensures GroupSizes(entries + [e]) == GroupSizes(entries) + |e.devices|
  {
    if entries != [] {
      GroupSizesSnoc(entries[1..], e);
      assert (entries + [e])[1..] == entries[1..] + [e];
    } else {
      assert [e][1..] == [];
    }
  }

  /** The totals of the work fit its messages. */
  predicate TotalsFit(w: Work) {
    w.totals.devices == w.totals.direct + w.totals.jump + VpnDevices(w.jobs)
  }

  /** Each device is reached as often as it should be: once if it is eligible and its tenant is due. */
  predicate ReachedRight(env: Env, w: Work, tenants: seq<nat>, device: nat) {
    AllReached(w.jobs)[device] ==
      if device < |env.devices| && env.devices[device].tenant in tenants &&
         IsEligible(env, env.devices[device].tenant, device)
      then 1 else 0
  }

  lemma TenantJobsFit(env: Env, tenant: nat)
    ensures var due, eligible := TenantDue(env, tenant), Eligible(env, tenant, |env.devices|);
            |eligible| == |due.direct| + |due.jump| + VpnDevices(JobsOf(tenant, due))
  {
    var due, eligible := TenantDue(env, tenant), Eligible(env, tenant, |env.devices|);
    var a, b, c := DirectJobs(due.direct), JumpJobs(due.jump), VpnJobs(tenant, due.groups);
    RouteAllSorted(eligible, RouteIn(env));
    BatchReachesAll(tenant, eligible, RouteIn(env));
    NoVpnDevices(due.direct);
    NoVpnDevices(due.jump);
    VpnDevicesOfGroups(tenant, due.groups, RouteIn(env), Last(eligible));
    VpnDevicesConcat(a + b, c);
    VpnDevicesConcat(a, b);
  }

  lemma TenantJobsReach(env: Env, tenant: nat, device: nat)
    ensures AllReached(JobsOf(tenant, TenantDue(env, tenant)))[device] ==
              if IsEligible(env, tenant, device) then 1 else 0
  {
    ReachedExactlyOnce(tenant, Eligible(env, tenant, |env.devices|), RouteIn(env), device);
  }

  lemma OneBatchFits(env: Env, w: Work, tenant: nat)
    requires TotalsFit(w)
    ensures TotalsFit(BatchOne(env, w, tenant))
  {
    TenantJobsFit(env, tenant);
    VpnDevicesConcat(w.jobs, JobsOf(tenant, TenantDue(env, tenant)));
  }

  lemma OneBatchReaches(env: Env, w: Work, tenants: seq<nat>, tenant: nat, device: nat)
    requires ReachedRight(env, w, tenants, device) && tenant !in tenants
    ensures ReachedRight(env, BatchOne(env, w, tenant), tenants + [tenant], device)
  {
    TenantJobsReach(env, tenant, device);
    ReachedConcat(w.jobs, JobsOf(tenant, TenantDue(env, tenant)));
  }

  lemma {:induction false} BatchesReach(env: Env, w: Work, tenants: seq<nat>, device: nat)
    requires Ascending(tenants) && TotalsFit(w) && ReachedRight(env, w, [], device)
    ensures var w' := Batches(env, w, tenants);
            TotalsFit(w') && ReachedRight(env, w', tenants, device)
  {
    if tenants != [] {
      var before, tenant := tenants[..|tenants| - 1], tenants[|tenants| - 1];
      BatchesReach(env, w, before, device);
      OneBatchFits(env, Batches(env, w, before), tenant);
      OneBatchReaches(env, Batches(env, w, before), before, tenant, device);
      Snoc(tenants);
    }
  }

  /** One run: a device is queued exactly once if it is eligible and a visible schedule of its tenant is due, and not
      at all otherwise; the reported number of devices is direct plus jump plus the devices of the VPN messages. */
  lemma RunReaches(env: Env, rows: seq<Row>, device: nat)
    ensures var w, all := Run(env, rows), AllRows(env, rows);
            && w.totals.devices == w.totals.direct + w.totals.jump + VpnDevices(w.jobs)
            && AllReached(w.jobs)[device] ==
                 if device < |env.devices| && IsEligible(env, env.devices[device].tenant, device) &&
                    exists i :: 0 <= i < |all| && IsDue(env, all[i]) &&
                                env.devices[all[i].device].tenant == env.devices[device].tenant
                 then 1 else 0
  {
    var all := AllRows(env, rows);
    var start := Work(Normalised(env, all, |all|), [], [], NOTHING_DONE);
    BatchesReach(env, start, DueTenants(env, all, |all|), device);
    if device < |env.devices| {
      DueIff(env, all, |all|, env.devices[device].tenant);
    }
  }

  lemma {:induction false} BatchesOnRoute(env: Env, w: Work, tenants: seq<nat>)
    requires AllOnRoute(w.jobs, RouteIn(env))
    ensures AllOnRoute(Batches(env, w, tenants).jobs, RouteIn(env))
  {
    if tenants != [] {
      var before, last := tenants[..|tenants| - 1], tenants[|tenants| - 1];
      BatchesOnRoute(env, w, before);
      BatchOnRoute(last, Eligible(env, last, |env.devices|), RouteIn(env));
    }
  }

  /** Every message of a run is on the route of each device it reaches. */
  lemma RunOnRoute(env: Env, rows: seq<Row>)
    ensures AllOnRoute(Run(env, rows).jobs, RouteIn(env))
  {
    var all := AllRows(env, rows);
    BatchesOnRoute(env, Work(Normalised(env, all, |all|), [], [], NOTHING_DONE), DueTenants(env, all, |all|));
  }

  // ----- nothing stays due -----

  /** The row is not due any more. */
  predicate Past(env: Env, row: Row) {
    row.nextRun.Some? && row.nextRun.value > env.now
  }

  lemma NormalNext(env: Env, rows: seq<Row>, row: Row)
    requires row.device < |env.devices|
    ensures var r := Normal(env, rows, row);
            r.device == row.device && r.active == row.active && (r.nextRun == row.nextRun || Past(env, r))
    ensures Normal(env, rows, row).nextRun.Some?
  {
    var time := Normal(env, rows, row).routine.time;
    NextDailyRunIsLeast(time, env.now, env.offset);
  }

  lemma {:induction false} NormalisedNext(env: Env, rows: seq<Row>, n: nat, i: nat)
    requires n <= |rows| && i < |rows| && Visible(env.devices, rows[i])
    ensures var r := Normalised(env, rows, n)[i];
            && r.device == rows[i].device && r.active == rows[i].active
            && (r.nextRun == rows[i].nextRun || Past(env, r)) && (i < n ==> r.nextRun.Some?)
  {
    if n > 0 {
      var before := Normalised(env, rows, n - 1);
      NormalisedNext(env, rows, n - 1, i);
      if i == n - 1 {
        NormalNext(env, before, before[i]);
      }
    }
  }

  lemma OneBatchNext(env: Env, w: Work, tenant: nat, i: nat)
    requires i < |w.rows|
    ensures var r := BatchOne(env, w, tenant).rows;
            && |r| == |w.rows| && r[i].device == w.rows[i].device && r[i].active == w.rows[i].active
            && if VisibleOf(env.devices, w.rows[i], tenant) then Past(env, r[i]) else r[i] == w.rows[i]
  {
    NextDailyRunIsLeast(TenantTime(env.devices, w.rows, tenant), env.now + SECOND, env.offset);
  }

  lemma {:induction false} BatchesNext(env: Env, w: Work, tenants: seq<nat>, i: nat)
    requires i < |w.rows| && Visible(env.devices, w.rows[i])
    ensures var r := Batches(env, w, tenants).rows;
            && |r| == |w.rows| && r[i].device == w.rows[i].device && r[i].active == w.rows[i].active
            && if env.devices[w.rows[i].device].tenant in tenants then Past(env, r[i]) else r[i] == w.rows[i]
  {
    if tenants != [] {
      var before, last := tenants[..|tenants| - 1], tenants[|tenants| - 1];
      BatchesNext(env, w, before, i);
      OneBatchNext(env, Batches(env, w, before), last, i);
      Snoc(tenants);
    }
  }

  /** After a run every visible schedule has a next run in the future: run again at the same instant, it queues
      nothing. */
  lemma NothingStaysDue(env: Env, rows: seq<Row>, i: nat)
    requires i < |AllRows(env, rows)| && Visible(env.devices, AllRows(env, rows)[i])
    ensures |Run(env, rows).rows| == |AllRows(env, rows)| && Past(env, Run(env, rows).rows[i])
  {
    var all := AllRows(env, rows);
    var due, normal := DueTenants(env, all, |all|), Normalised(env, all, |all|);
    NormalisedNext(env, all, |all|, i);
    BatchesNext(env, Work(normal, [], [], NOTHING_DONE), due, i);
    DueIff(env, all, |all|, env.devices[all[i].device].tenant);
    if !Past(env, normal[i]) {
      assert IsDue(env, all[i]);
    }
  }

  // ----- what a batched schedule waits for -----

  /** The row has just run and waits for the least occurrence of its time more than a second from now. */
  predicate WaitsForNext(env: Env, row: Row) {
    && row.lastRun == Some(env.now) && row.nextRun.Some?
    && LeastRun(EveryDay(), ClockOf(row.routine.time, TWO), env.now + SECOND + env.offset,
                row.nextRun.value + env.offset)
  }

  lemma OneBatchWaits(env: Env, w: Work, tenant: nat, i: nat)
    requires i < |w.rows| && VisibleOf(env.devices, w.rows[i], tenant)
    ensures |BatchOne(env, w, tenant).rows| == |w.rows| && WaitsForNext(env, BatchOne(env, w, tenant).rows[i])
  {
    RescheduledWaits(env, w.rows[i], TenantTime(env.devices, w.rows, tenant));
  }

  lemma RescheduledWaits(env: Env, row: Row, time: string)
    ensures var next := ComputeNextDailyRunAt(time, env.now + SECOND, env.offset);
            WaitsForNext(env, Rescheduled(row, time, env.now, next))
  {
    NextDailyRunIsLeast(time, env.now + SECOND, env.offset);
  }

  lemma {:induction false} BatchesWait(env: Env, w: Work, tenants: seq<nat>, i: nat)
    requires i < |w.rows| && Visible(env.devices, w.rows[i]) && env.devices[w.rows[i].device].tenant in tenants
    ensures |Batches(env, w, tenants).rows| == |w.rows| && WaitsForNext(env, Batches(env, w, tenants).rows[i])
  {
    var before, last := tenants[..|tenants| - 1], tenants[|tenants| - 1];
    var tenant := env.devices[w.rows[i].device].tenant;
    BatchesNext(env, w, before, i);
    OneBatchNext(env, Batches(env, w, before), last, i);
    if tenant == last {
      OneBatchWaits(env, Batches(env, w, before), last, i);
    } else {
      Snoc(tenants);
      BatchesWait(env, w, before, i);
    }
  }

  /** A run that batches a tenant moves each of its visible schedules to the least occurrence of its time more than a
      second away. */
  lemma BatchedWaitForNext(env: Env, rows: seq<Row>, i: nat)
    requires i < |AllRows(env, rows)| && Visible(env.devices, AllRows(env, rows)[i])
    requires var all := AllRows(env, rows);
             env.devices[all[i].device].tenant in DueTenants(env, all, |all|)
    ensures |Run(env, rows).rows| == |AllRows(env, rows)| && WaitsForNext(env, Run(env, rows).rows[i])
  {
    var all := AllRows(env, rows);
    NormalisedNext(env, all, |all|, i);
    BatchesWait(env, Work(Normalised(env, all, |all|), [], [], NOTHING_DONE), DueTenants(env, all, |all|), i);
  }

  /** Clock time `c` occurs after `from` and not after `to`. */
  predicate OccursWithin(c: Clock, from: int, to: int) {
    exists t :: from < t <= to && AtClock(c, t)
  }

  lemma LeastIff(c: Clock, local: int, r: int)
    requires LeastRun(EveryDay(), c, local + SECOND, r)
    ensures LeastRun(EveryDay(), c, local, r) <==> !OccursWithin(c, local, local + SECOND)
  {
    if OccursWithin(c, local, local + SECOND) {
      var t :| local < t <= local + SECOND && AtClock(c, t);
      assert EveryDay()(DayOf(t));
    } else {
      forall t | local < t < r && AtClock(c, t)
        ensures !EveryDay()(DayOf(t))
      {
        assert t > local + SECOND;
      }
    }
  }

  // ----- the time a batch goes by -----

  /** The rows as the batches of a run find them. */
  function BatchStart(env: Env, rows: seq<Row>): seq<Row> {
    Normalised(env, AllRows(env, rows), |AllRows(env, rows)|)
  }

  /** The daily time of a tenant as the batches of a run find it. */
  function TimeOf(env: Env, rows: seq<Row>, tenant: nat): string {
    TenantTime(env.devices, BatchStart(env, rows), tenant)
  }

  /** The tenant's visible rows are the same ones with the same times. */
  predicate SameTimes(devices: seq<Device>, rows: seq<Row>, rows': seq<Row>, tenant: nat) {
    && |rows'| == |rows|
    && forall i :: 0 <= i < |rows| ==>
         && (VisibleOf(devices, rows'[i], tenant) <==> VisibleOf(devices, rows[i], tenant))
         && (VisibleOf(devices, rows[i], tenant) ==> rows'[i].routine.time == rows[i].routine.time)
  }

  lemma {:induction false} SameTimesSameTenantTimes(devices: seq<Device>, rows: seq<Row>, rows': seq<Row>, tenant: nat)
    requires SameTimes(devices, rows, rows', tenant)
    ensures TenantTimes(devices, rows', tenant) == TenantTimes(devices, rows, tenant)
  {
    if rows != [] {
      var n := |rows| - 1;
      assert forall i :: 0 <= i < n ==> rows[..n][i] == rows[i] && rows'[..n][i] == rows'[i];
      SameTimesSameTenantTimes(devices, rows[..n], rows'[..n], tenant);
    }
  }

  /** The batch of another tenant changes neither the tenant's times nor its daily time. */
  lemma OtherBatchSameTime(env: Env, rows: seq<Row>, other: nat, time: string, tenant: nat)
    requires other != tenant
    ensures TenantTime(env.devices, TenantRows(env, rows, other, time), tenant) == TenantTime(env.devices, rows, tenant)
  {
    var r := TenantRows(env, rows, other, time);
    forall i | 0 <= i < |rows|
      ensures VisibleOf(env.devices, r[i], tenant) <==> VisibleOf(env.devices, rows[i], tenant)
      ensures VisibleOf(env.devices, rows[i], tenant) ==> r[i].routine.time == rows[i].routine.time
    {
    }
    SameTimesSameTenantTimes(env.devices, rows, r, tenant);
  }

  lemma {:induction false} OtherBatchesSameTime(env: Env, w: Work, tenants: seq<nat>, tenant: nat)
    requires tenant !in tenants
    ensures TenantTime(env.devices, Batches(env, w, tenants).rows, tenant) == TenantTime(env.devices, w.rows, tenant)
  {
    if tenants != [] {
      var before, last := tenants[..|tenants| - 1], tenants[|tenants| - 1];
      OtherBatchesSameTime(env, w, before, tenant);
      var wb := Batches(env, w, before);
      OtherBatchSameTime(env, wb.rows, last, TenantTime(env.devices, wb.rows, last), tenant);
    }
  }

  lemma OneBatchTime(env: Env, w: Work, tenant: nat, i: nat)
    requires i < |w.rows| && VisibleOf(env.devices, w.rows[i], tenant)
    ensures |BatchOne(env, w, tenant).rows| == |w.rows|
    ensures BatchOne(env, w, tenant).rows[i].routine.time == TenantTime(env.devices, w.rows, tenant)
  {
  }

  lemma {:induction false} BatchesTime(env: Env, w: Work, tenants: seq<nat>, i: nat)
    requires i < |w.rows| && Visible(env.devices, w.rows[i]) && Ascending(tenants)
    requires env.devices[w.rows[i].device].tenant in tenants
    ensures |Batches(env, w, tenants).rows| == |w.rows|
    ensures Batches(env, w, tenants).rows[i].routine.time ==
              TenantTime(env.devices, w.rows, env.devices[w.rows[i].device].tenant)
  {
    var before, last := tenants[..|tenants| - 1], tenants[|tenants| - 1];
    var tenant := env.devices[w.rows[i].device].tenant;
    BatchesNext(env, w, before, i);
    if tenant == last {
      OtherBatchesSameTime(env, w, before, tenant);
      OneBatchTime(env, Batches(env, w, before), last, i);
    } else {
      Snoc(tenants);
      BatchesTime(env, w, before, i);
      OneBatchNext(env, Batches(env, w, before), last, i);
    }
  }

  /** The row is of a tenant that the run batches. */
  predicate IsBatched(env: Env, rows: seq<Row>, i: nat) {
    var all := AllRows(env, rows);
    i < |all| && Visible(env.devices, all[i]) && env.devices[all[i].device].tenant in DueTenants(env, all, |all|)
  }

  /** A batched row has its tenant's daily time and waits for the least occurrence of it more than a second away. */
  lemma BatchedTime(env: Env, rows: seq<Row>, i: nat)
    requires IsBatched(env, rows, i)
    ensures |Run(env, rows).rows| == |AllRows(env, rows)| && WaitsForNext(env, Run(env, rows).rows[i])
    ensures Run(env, rows).rows[i].routine.time ==
              TimeOf(env, rows, env.devices[AllRows(env, rows)[i].device].tenant)
  {
    var all := AllRows(env, rows);
    BatchedWaitForNext(env, rows, i);
    NormalisedNext(env, all, |all|, i);
    BatchesTime(env, Work(BatchStart(env, rows), [], [], NOTHING_DONE), DueTenants(env, all, |all|), i);
  }

  /** A batch skips no occurrence of the tenant's daily time exactly when none falls in the second after it: the next
      run of each of its schedules is then the least occurrence after the batch, and otherwise one is passed over for
      good. */
  lemma SkipsNothingIff(env: Env, rows: seq<Row>, i: nat, c: Clock)
    requires IsBatched(env, rows, i)
    requires c == ClockOf(TimeOf(env, rows, env.devices[AllRows(env, rows)[i].device].tenant), TWO)
    ensures |Run(env, rows).rows| == |AllRows(env, rows)| && Run(env, rows).rows[i].nextRun.Some?
    ensures var local, next := env.now + env.offset, Run(env, rows).rows[i].nextRun.value + env.offset;
            LeastRun(EveryDay(), c, local, next) <==> !OccursWithin(c, local, local + SECOND)
  {
    BatchedTime(env, rows, i);
    WaitingLeastIff(env, Run(env, rows).rows[i], c);
  }

  lemma WaitingLeastIff(env: Env, row: Row, c: Clock)
    requires WaitsForNext(env, row) && c == ClockOf(row.routine.time, TWO)
    ensures var local := env.now + env.offset;
            LeastRun(EveryDay(), c, local, row.nextRun.value + env.offset) <==> !OccursWithin(c, local, local + SECOND)
  {
    LeastIff(c, env.now + env.offset, row.nextRun.value + env.offset);
  }

  /** Instants at which it does skip: in any run that batches a tenant a second or less before an occurrence of its
      daily time, its schedules move on to the day after. */
  lemma SkipsWithinSecond(env: Env, rows: seq<Row>, i: nat, c: Clock, day: int, early: nat)
    requires IsBatched(env, rows, i) && 0 < early <= SECOND
    requires c == ClockOf(TimeOf(env, rows, env.devices[AllRows(env, rows)[i].device].tenant), TWO)
    requires env.now + env.offset == At(day, c) - early
    ensures OccursWithin(c, env.now + env.offset, env.now + env.offset + SECOND)
    ensures |Run(env, rows).rows| == |AllRows(env, rows)|
    ensures Run(env, rows).rows[i].nextRun == Some(At(day + 1, c) - env.offset)
  {
    BatchedTime(env, rows, i);
    WaitingPassesOver(env, Run(env, rows).rows[i], c, day, early);
  }

  lemma WaitingPassesOver(env: Env, row: Row, c: Clock, day: int, early: nat)
    requires WaitsForNext(env, row) && c == ClockOf(row.routine.time, TWO) && 0 < early <= SECOND
    requires env.now + env.offset == At(day, c) - early
    ensures OccursWithin(c, env.now + env.offset, env.now + env.offset + SECOND)
    ensures row.nextRun == Some(At(day + 1, c) - env.offset)
  {
    PassesOver(c, day, env.now + env.offset, early, row.nextRun.value + env.offset);
  }

  lemma PassesOver(c: Clock, day: int, local: int, early: nat, r: int)
    requires ValidClock(c) && 0 < early <= SECOND && local == At(day, c) - early
    requires LeastRun(EveryDay(), c, local + SECOND, r)
    ensures OccursWithin(c, local, local + SECOND) && r == At(day + 1, c)
  {
    AtDay(day, c);
    assert AtClock(c, At(day, c));
    AtLater(day, 1, c);
    NextAfter(c, day, local + SECOND);
    DailyLeast(c, local + SECOND);
    LeastUnique(c, local + SECOND, r, At(day + 1, c));
  }

  lemma LeastUnique(c: Clock, local: int, r: int, r': int)
    requires LeastRun(EveryDay(), c, local, r) && LeastRun(EveryDay(), c, local, r')
    ensures r == r'
  {
    assert EveryDay()(DayOf(r)) && EveryDay()(DayOf(r'));
  }

  lemma NextAfter(c: Clock, day: int, local: int)
    requires ValidClock(c) && At(day, c) <= local < At(day + 1, c)
    ensures NextDaily(c, local) == At(day + 1, c)
  {
    AtDay(day, c);
    AtDay(day + 1, c);
    DayBounds(local);
    AtLater(day, 1, c);
  }

  // ----- a schedule that is overdue at such an instant -----

  /** One tenant with one device, at a local instant `early` before the clock time of a day, in any zone. */
  function OverdueEnv(policy: Policy, link: Link, day: int, c: Clock, early: nat, offset: int): Env {
    Env([Device(0, None, true, link)], policy, {}, At(day, c) - early - offset, offset)
  }

  /** Its schedule, due by now. */
  function OverdueRow(env: Env, c: Clock): Row
    requires ValidClock(c)
  {
    Row(0, DailyRoutine(PrintClock(c)), true, None, Some(env.now))
  }

  lemma OverdueStart(env: Env, row: Row)
    requires |env.devices| == 1 && env.devices[0].enabled && env.devices[0].tenant == 0
    requires row.device == 0 && row.active && row.nextRun == Some(env.now)
    ensures AllRows(env, [row]) == [row] && IsBatched(env, [row], 0)
  {
    assert HasRow(env.devices, [row], 0) by {
      assert [row][0].device == 0 && Visible(env.devices, [row][0]);
    }
    assert Added(env, [row], 1) == [];
    assert [row] + [] == [row];
    DueIff(env, [row], 1, 0);
    assert IsDue(env, [row][0]);
  }

  lemma OverdueTime(env: Env, row: Row, c: Clock)
    requires ValidClock(c) && |env.devices| == 1 && env.devices[0].enabled && env.devices[0].tenant == 0
    requires row == OverdueRow(env, c) && AllRows(env, [row]) == [row]
    ensures TimeOf(env, [row], 0) == PrintClock(c)
  {
    ParsePrintClock(c);
    var normal := Normal(env, [row], row);
    assert Normalised(env, [row], 0) == [row];
    assert BatchStart(env, [row]) == [normal];
    assert [normal][..0] == [];
    assert TenantTimes(env.devices, [normal], 0) == [PrintClock(c)];
  }

  /** For every time of day, day and zone: a schedule overdue a second or less before its occurrence is batched, and
      moves on to the day after. */
  lemma OverdueSkips(policy: Policy, link: Link, day: int, c: Clock, early: nat, offset: int)
    requires ValidClock(c) && 0 < early <= SECOND
    ensures var env := OverdueEnv(policy, link, day, c, early, offset);
            var after := Run(env, [OverdueRow(env, c)]).rows;
            |after| == 1 && after[0].nextRun == Some(At(day + 1, c) - offset)
  {
    OverdueMovesOn(OverdueEnv(policy, link, day, c, early, offset), day, c, early);
  }

  lemma OverdueMovesOn(env: Env, day: int, c: Clock, early: nat)
    requires ValidClock(c) && 0 < early <= SECOND && env.now + env.offset == At(day, c) - early
    requires |env.devices| == 1 && env.devices[0].enabled && env.devices[0].tenant == 0
    ensures var after := Run(env, [OverdueRow(env, c)]).rows;
            |after| == 1 && after[0].nextRun == Some(At(day + 1, c) - env.offset)
  {
    var row := OverdueRow(env, c);
    OverdueStart(env, row);
    OverdueTime(env, row, c);
    PrintedClockOf(c);
    SkipsWithinSecond(env, [row], 0, c, day, early);
  }
}
