/** One run of the scheduler task (app/tasks/backups.py, run_scheduled_backups). Devices and tenants are numbered in
    the order of their identifiers, and queries return rows in that order. */
module Scheduler {
  import opened Basics
  import opened Schedule
  import opened Routing
  import opened Dispatch
  import opened Folds

  const SECOND: nat := 1_000_000

  /** `enabled`: active, scheduled for backup, and in an active group or in none. */
  datatype Device = Device(tenant: nat, typeId: Option<nat>, enabled: bool, link: Link)

  datatype Row = Row(device: nat, routine: Routine, active: bool, lastRun: Option<int>, nextRun: Option<int>)

  /** What a run reads and does not change. */
  datatype Env = Env(devices: seq<Device>, policy: Policy, excludedTypes: set<nat>, now: int, offset: int)

  /** The row is active and so is its device: what the query for schedules returns. */
  predicate Visible(devices: seq<Device>, row: Row) {
    row.device < |devices| && row.active && devices[row.device].enabled
  }

  predicate VisibleOf(devices: seq<Device>, row: Row, tenant: nat) {
    Visible(devices, row) && devices[row.device].tenant == tenant
  }

  // ----- the daily time of a tenant -----

  const DEFAULT_TIME := PrintClock(TWO)

  function TenantTimes(devices: seq<Device>, rows: seq<Row>, tenant: nat): seq<string> {
    if rows == [] then []
    else
      var rest, row := TenantTimes(devices, rows[..|rows| - 1], tenant), rows[|rows| - 1];
      if VisibleOf(devices, row, tenant) && row.routine.time != ""
      then rest + [SanitizeDailyTime(row.routine.time, DEFAULT_TIME)]
      else rest
  }

  /** The first of the most frequent among the first `n` times. */
  function FirstMax(times: seq<string>, n: nat): (r: string)
    requires 1 <= n <= |times|
    ensures forall i :: 0 <= i < n ==> multiset(times)[times[i]] <= multiset(times)[r]
    ensures exists i :: 0 <= i < n && times[i] == r &&
                        forall j :: 0 <= j < i ==> multiset(times)[times[j]] < multiset(times)[r]
  {
    if n == 1 then times[0]
    else
      var best := FirstMax(times, n - 1);
      if multiset(times)[times[n - 1]] > multiset(times)[best] then times[n - 1] else best
  }

  function TenantTime(devices: seq<Device>, rows: seq<Row>, tenant: nat): string {
    var times := TenantTimes(devices, rows, tenant);
    if times == [] then DEFAULT_TIME else FirstMax(times, |times|)
  }

  // ----- rows for devices that have none -----

  predicate HasRow(devices: seq<Device>, rows: seq<Row>, device: nat) {
    exists i :: 0 <= i < |rows| && rows[i].device == device && Visible(devices, rows[i])
  }

  function DailyRoutine(time: string): Routine {
    Routine(time, "daily", None, None)
  }

  function NewRow(env: Env, rows: seq<Row>, device: nat): Row
    requires device < |env.devices|
  {
    var time := TenantTime(env.devices, rows, env.devices[device].tenant);
    Row(device, DailyRoutine(time), true, None, Some(ComputeNextDailyRunAt(time, env.now, env.offset)))
  }

  predicate NeedsRow(env: Env, rows: seq<Row>, device: nat)
    requires device < |env.devices|
  {
    env.devices[device].enabled && !HasRow(env.devices, rows, device)
  }

  /** The rows added for the first `n` devices. */
  function Added(env: Env, rows: seq<Row>, n: nat): seq<Row>
    requires n <= |env.devices|
  {
    if n == 0 then []
    else if NeedsRow(env, rows, n - 1) then Added(env, rows, n - 1) + [NewRow(env, rows, n - 1)]
    else Added(env, rows, n - 1)
  }

  // ----- every row made daily -----

  function Normal(env: Env, rows: seq<Row>, row: Row): Row
    requires row.device < |env.devices|
  {
    var time := if row.routine.time == "" then TenantTime(env.devices, rows, env.devices[row.device].tenant)
                else SanitizeDailyTime(row.routine.time, DEFAULT_TIME);
    row.(routine := DailyRoutine(time),
         nextRun := if row.nextRun.Some? then row.nextRun
                    else Some(ComputeNextDailyRunAt(time, env.now, env.offset)))
  }

  /** The rows after the first `n` have been looked at. */
  function Normalised(env: Env, rows: seq<Row>, n: nat): (r: seq<Row>)
    requires n <= |rows|
    ensures |r| == |rows|
  {
    if n == 0 then rows
    else
      var before := Normalised(env, rows, n - 1);
      if Visible(env.devices, before[n - 1]) then before[n - 1 := Normal(env, before, before[n - 1])] else before
  }

  predicate IsDue(env: Env, row: Row) {
    Visible(env.devices, row) && row.nextRun.Some? && row.nextRun.value <= env.now
  }

  /** The tenants with a row due among the first `n`. */
  function DueTenants(env: Env, rows: seq<Row>, n: nat): (tenants: seq<nat>)
    requires n <= |rows|
    ensures Ascending(tenants)
  {
    if n == 0 then []
    else if IsDue(env, rows[n - 1]) then
      Insert(DueTenants(env, rows, n - 1), env.devices[rows[n - 1].device].tenant)
    else DueTenants(env, rows, n - 1)
  }

  lemma {:induction false} DueIff(env: Env, rows: seq<Row>, n: nat, tenant: nat)
    requires n <= |rows|
    ensures tenant in DueTenants(env, rows, n) <==>
              exists i :: 0 <= i < n && IsDue(env, rows[i]) && env.devices[rows[i].device].tenant == tenant
  {
    if n > 0 {
      DueIff(env, rows, n - 1, tenant);
    }
  }

  /** Rows without a next run, which the run initialises. */
  function WithoutRun(env: Env, rows: seq<Row>, n: nat): nat
    requires n <= |rows|
  {
    if n == 0 then 0
    else WithoutRun(env, rows, n - 1) + if Visible(env.devices, rows[n - 1]) && rows[n - 1].nextRun.None? then 1 else 0
  }

  function VisibleCount(devices: seq<Device>, rows: seq<Row>, n: nat): nat
    requires n <= |rows|
  {
    if n == 0 then 0 else VisibleCount(devices, rows, n - 1) + if Visible(devices, rows[n - 1]) then 1 else 0
  }

  // ----- the batches -----

  predicate IsEligible(env: Env, tenant: nat, device: nat) {
    && device < |env.devices| && env.devices[device].enabled && env.devices[device].tenant == tenant
    && !(env.devices[device].typeId.Some? && env.devices[device].typeId.value in env.excludedTypes)
  }

  function Eligible(env: Env, tenant: nat, n: nat): (devices: seq<nat>)
    requires n <= |env.devices|
    ensures Ascending(devices) && forall d: nat :: d in devices <==> d < n && IsEligible(env, tenant, d)
  {
    if n == 0 then []
    else
      var before := Eligible(env, tenant, n - 1);
      assert forall i :: 0 <= i < |before| ==> before[i] in before;
      if IsEligible(env, tenant, n - 1) then before + [n - 1] else before
  }

  function RouteIn(env: Env): nat -> Route {
    (device: nat) => if device < |env.devices| then RouteOf(env.policy, env.devices[device].link) else ToDirect
  }

  function Rescheduled(row: Row, time: string, now: int, next: int): Row {
    row.(routine := DailyRoutine(time), lastRun := Some(now), nextRun := Some(next))
  }

  /** The first `n` rows rescheduled if they are the tenant's. */
  function BatchRows(env: Env, rows: seq<Row>, tenant: nat, time: string, next: int, n: nat): (r: seq<Row>)
    requires n <= |rows|
    ensures |r| == |rows|
    ensures forall i :: 0 <= i < |rows| ==>
              r[i] == if i < n && VisibleOf(env.devices, rows[i], tenant) then Rescheduled(rows[i], time, env.now, next)
                      else rows[i]
  {
    if n == 0 then rows
    else
      var before := BatchRows(env, rows, tenant, time, next, n - 1);
      if VisibleOf(env.devices, rows[n - 1], tenant)
      then before[n - 1 := Rescheduled(rows[n - 1], time, env.now, next)]
      else before
  }

  /** A record of one tenant's batch. */
  datatype Batch = Batch(tenant: nat, at: int, time: string)

  datatype Totals = Totals(devices: nat, direct: nat, jump: nat, vpnGroups: nat)

  datatype Work = Work(rows: seq<Row>, jobs: seq<Job>, batches: seq<Batch>, totals: Totals)

  /** The tenant's eligible devices on their routes. */
  function TenantDue(env: Env, tenant: nat): Due {
    RouteAll(Eligible(env, tenant, |env.devices|), RouteIn(env))
  }

  function TenantTotals(env: Env, tenant: nat, before: Totals): Totals {
    var due := TenantDue(env, tenant);
    Totals(before.devices + |Eligible(env, tenant, |env.devices|)|, before.direct + |due.direct|,
           before.jump + |due.jump|, before.vpnGroups + |VpnJobs(tenant, due.groups)|)
  }

  /** The rows once the tenant is moved to its next daily occurrence. */
  function TenantRows(env: Env, rows: seq<Row>, tenant: nat, time: string): seq<Row> {
    BatchRows(env, rows, tenant, time, ComputeNextDailyRunAt(time, env.now + SECOND, env.offset), |rows|)
  }

  function BatchOne(env: Env, w: Work, tenant: nat): Work {
    var time := TenantTime(env.devices, w.rows, tenant);
    Work(TenantRows(env, w.rows, tenant, time), w.jobs + JobsOf(tenant, TenantDue(env, tenant)),
         w.batches + [Batch(tenant, env.now, time)], TenantTotals(env, tenant, w.totals))
  }

  lemma BatchParts(env: Env, w: Work, tenant: nat)
    ensures var w' := BatchStep(env)(w, tenant);
            && w'.rows == TenantRows(env, w.rows, tenant, TenantTime(env.devices, w.rows, tenant))
            && w'.jobs == w.jobs + JobsOf(tenant, TenantDue(env, tenant))
            && w'.totals == TenantTotals(env, tenant, w.totals) && |w'.batches| == |w.batches| + 1
  {
  }

  function BatchStep(env: Env): (Work, nat) -> Work {
    (w: Work, tenant: nat) => BatchOne(env, w, tenant)
  }

  function Batches(env: Env, w: Work, tenants: seq<nat>): Work {
    FoldLeft(BatchStep(env), tenants, w)
  }

  // ----- the whole run -----

  const NOTHING_DONE := Totals(0, 0, 0, 0)

  /** The rows the batches start from. */
  function AllRows(env: Env, rows: seq<Row>): seq<Row> {
    rows + Added(env, rows, |env.devices|)
  }

  function Run(env: Env, rows: seq<Row>): Work {
    var all := AllRows(env, rows);
    Batches(env, Work(Normalised(env, all, |all|), [], [], NOTHING_DONE), DueTenants(env, all, |all|))
  }

  datatype Report = Report(schedulesChecked: nat, tenantBatches: nat, totals: Totals, initialized: nat,
                           blockedByForceStop: bool, blockedByRunningBulk: bool)

  function ReportOf(env: Env, rows: seq<Row>): Report {
    var all, w := AllRows(env, rows), Run(env, rows);
    Report(VisibleCount(env.devices, w.rows, |w.rows|), |w.batches|, w.totals,
           |Added(env, rows, |env.devices|)| + WithoutRun(env, all, |all|), false, false)
  }
}
