/** The scheduler task as it runs: rows and queues changed in place. */
module SchedulerTask {
  import opened Basics
  import Text
  import opened Schedule
  import opened Routing
  import opened Dispatch
  import opened Folds
  import opened Scheduler

  class Service {
    var devices: seq<Device>
    var rows: seq<Row>
    var jobs: seq<Job>

    /** Gives a daily row to every enabled device that has none. */
    method AddMissingRows(env: Env) returns (initialized: nat)
      requires env.devices == devices
      modifies this`rows
      ensures rows == AllRows(env, old(rows)) && initialized == |Added(env, old(rows), |devices|)|
    {
      var known := rows;
      var added: seq<Row> := [];
      for i := 0 to |devices|
        invariant added == Added(env, known, i)
      {
        if devices[i].enabled && !HasRow(devices, known, i) {
          added := added + [NewRow(env, known, i)];
        }
      }
      rows := rows + added;
      initialized := |added|;
    }

    /** Makes every visible row daily, starts those without a next run, and collects the tenants due. */
    method NormaliseRows(env: Env) returns (initialized: nat, due: seq<nat>)
      requires env.devices == devices
      modifies this`rows
      ensures rows == Normalised(env, old(rows), |old(rows)|)
      ensures due == DueTenants(env, old(rows), |old(rows)|) && initialized == WithoutRun(env, old(rows), |old(rows)|)
    {
      initialized, due := 0, [];
      ghost var before := rows;
      for i := 0 to |rows|
        invariant |rows| == |before| && rows == Normalised(env, before, i)
        invariant forall j :: i <= j < |rows| ==> rows[j] == before[j]
        invariant due == DueTenants(env, before, i) && initialized == WithoutRun(env, before, i)
      {
        initialized, due := NormaliseRow(env, i, initialized, due);
      }
    }

    method NormaliseRow(env: Env, i: nat, before: nat, sofar: seq<nat>) returns (initialized: nat, due: seq<nat>)
      requires env.devices == devices && i < |rows| && Ascending(sofar)
      modifies this`rows
      ensures var row := old(rows)[i];
              && rows == (if Visible(devices, row) then old(rows)[i := Normal(env, old(rows), row)] else old(rows))
              && initialized == before + (if Visible(devices, row) && row.nextRun.None? then 1 else 0)
              && due == if IsDue(env, row) then Insert(sofar, devices[row.device].tenant) else sofar
    {
      initialized, due := before, sofar;
      var row := rows[i];
      if Visible(devices, row) {
        rows := rows[i := Normal(env, rows, row)];
        if row.nextRun.None? {
          initialized := initialized + 1;
        } else if row.nextRun.value <= env.now {
          due := Insert(due, devices[row.device].tenant);
        }
      }
    }

    method FindEligible(env: Env, tenant: nat) returns (eligible: seq<nat>)
      requires env.devices == devices
      ensures eligible == Eligible(env, tenant, |devices|)
    {
      eligible := [];
      for i := 0 to |devices|
        invariant eligible == Eligible(env, tenant, i)
      {
        if IsEligible(env, tenant, i) {
          eligible := eligible + [i];
        }
      }
    }

    /** Cuts the eligible devices into direct, jump and VPN-group lists. */
    method RouteDevices(eligible: seq<nat>, route: nat -> Route) returns (due: Due)
      ensures due == RouteAll(eligible, route)
    {
      due := NOTHING_DUE;
      for i := 0 to |eligible|
        invariant due == RouteAll(eligible[..i], route)
      {
        assert eligible[..i + 1][..i] == eligible[..i];
        due := AddDue(due, eligible[i], route(eligible[i]));
      }
      assert eligible[..|eligible|] == eligible;
    }

    /** Queues one tenant's devices, each on its route. */
    method QueueBatch(env: Env, tenant: nat, before: Totals) returns (totals: Totals)
      requires env.devices == devices
      modifies this`jobs
      ensures jobs == old(jobs) + JobsOf(tenant, TenantDue(env, tenant)) && totals == TenantTotals(env, tenant, before)
    {
      var eligible := FindEligible(env, tenant);
      var due := RouteDevices(eligible, RouteIn(env));
      var direct, jump, groups := QueueDue(tenant, due);
      totals := Totals(before.devices + |eligible|, before.direct + direct, before.jump + jump,
                       before.vpnGroups + groups);
    }

    method QueueDue(tenant: nat, due: Due) returns (direct: nat, jump: nat, groups: nat)
      modifies this`jobs
      ensures jobs == old(jobs) + JobsOf(tenant, due)
      ensures direct == |due.direct| && jump == |due.jump| && groups == |VpnJobs(tenant, due.groups)|
    {
      direct := QueueDirect(due.direct);
      jump := QueueJump(due.jump);
      groups := QueueGroups(tenant, due.groups);
    }

    method QueueDirect(due: seq<nat>) returns (queued: nat)
      modifies this`jobs
      ensures jobs == old(jobs) + DirectJobs(due) && queued == |due|
    {
      queued := 0;
      for i := 0 to |due|
        invariant jobs == old(jobs) + DirectJobs(due[..i]) && queued == i
      {
        assert due[..i + 1][..i] == due[..i];
        jobs := jobs + [DirectJob(due[i])];
        queued := queued + 1;
      }
      assert due[..|due|] == due;
    }

    method QueueJump(due: seq<nat>) returns (queued: nat)
      modifies this`jobs
      ensures jobs == old(jobs) + JumpJobs(due) && queued == |due|
    {
      queued := 0;
      for i := 0 to |due|
        invariant jobs == old(jobs) + JumpJobs(due[..i]) && queued == i
      {
        assert due[..i + 1][..i] == due[..i];
        jobs := jobs + [JumpJob(due[i])];
        queued := queued + 1;
      }
      assert due[..|due|] == due;
    }

    method QueueGroups(tenant: nat, due: seq<Entry>) returns (queued: nat)
      modifies this`jobs
      ensures jobs == old(jobs) + VpnJobs(tenant, due) && queued == |VpnJobs(tenant, due)|
    {
      queued := 0;
      for i := 0 to |due|
        invariant jobs == old(jobs) + VpnJobs(tenant, due[..i]) && queued == |VpnJobs(tenant, due[..i])|
      {
        assert due[..i + 1][..i] == due[..i];
        var unique := SortedSet(due[i].devices);
        if unique == [] {
          continue;
        }
        jobs := jobs + [VpnJob(due[i].group, tenant, unique)];
        queued := queued + 1;
      }
      assert due[..|due|] == due;
    }

    /** Moves the tenant's rows to its next daily occurrence. */
    method Reschedule(env: Env, tenant: nat, time: string)
      requires env.devices == devices
      modifies this`rows
      ensures rows == TenantRows(env, old(rows), tenant, time)
    {
      var next := ComputeNextDailyRunAt(time, env.now + SECOND, env.offset);
      ghost var before := rows;
      for i := 0 to |rows|
        invariant |rows| == |before| && rows == BatchRows(env, before, tenant, time, next, i)
      {
        if VisibleOf(devices, rows[i], tenant) {
          rows := rows[i := Rescheduled(rows[i], time, env.now, next)];
        }
      }
    }

    /** One tenant's batch. */
    method RunBatch(env: Env, tenant: nat, before: Totals) returns (totals: Totals)
      requires env.devices == devices
      modifies this`rows, this`jobs
      ensures rows == TenantRows(env, old(rows), tenant, TenantTime(devices, old(rows), tenant))
      ensures jobs == old(jobs) + JobsOf(tenant, TenantDue(env, tenant))
      ensures totals == TenantTotals(env, tenant, before)
    {
      var time := TenantTime(devices, rows, tenant);
      totals := QueueBatch(env, tenant, before);
      Reschedule(env, tenant, time);
    }

    /** The same as a step from the work `w` done so far; `queued` was queued before this run. */
    method StepBatch(env: Env, tenant: nat, before: Totals, ghost queued: seq<Job>, ghost w: Work)
        returns (totals: Totals)
      requires env.devices == devices && rows == w.rows && jobs == queued + w.jobs && before == w.totals
      modifies this`rows, this`jobs
      ensures var w' := BatchStep(env)(w, tenant);
              && rows == w'.rows && jobs == queued + w'.jobs && totals == w'.totals && |w'.batches| == |w.batches| + 1
    {
      totals := RunBatch(env, tenant, before);
      ghost var more := JobsOf(tenant, TenantDue(env, tenant));
      Text.Assoc(queued, w.jobs, more);
      BatchParts(env, w, tenant);
    }

    /** All batches, for the tenants due in ascending order. */
    method RunBatches(env: Env, due: seq<nat>) returns (totals: Totals, batches: nat)
      requires env.devices == devices
      modifies this`rows, this`jobs
      ensures var w := Batches(env, Work(old(rows), [], [], NOTHING_DONE), due);
              rows == w.rows && jobs == old(jobs) + w.jobs && totals == w.totals && batches == |w.batches|
    {
      totals, batches := NOTHING_DONE, 0;
      ghost var queued := jobs;
      ghost var start := Work(rows, [], [], NOTHING_DONE);
      ghost var w := start;
      for i := 0 to |due|
        invariant w == FoldLeft(BatchStep(env), due[..i], start)
        invariant rows == w.rows && jobs == queued + w.jobs && totals == w.totals && batches == |w.batches|
      {
        FoldSnoc(BatchStep(env), due[..i], due[i], start);
        assert due[..i + 1] == due[..i] + [due[i]];
        totals := StepBatch(env, due[i], totals, queued, w);
        w := BatchStep(env)(w, due[i]);
        batches := batches + 1;
      }
      assert due[..|due|] == due;
    }

    method RunScheduledBackups(policy: Policy, excludedTypes: set<nat>, now: int, offset: int,
                               stopped: bool, bulkActive: bool) returns (report: Report)
      modifies this`rows, this`jobs
      ensures stopped || bulkActive ==>
                && rows == old(rows) && jobs == old(jobs)
                && report == Report(0, 0, NOTHING_DONE, 0, stopped, !stopped)
      ensures var env := Env(devices, policy, excludedTypes, now, offset);
              var work := Run(env, old(rows));
              !stopped && !bulkActive ==>
                (rows == work.rows && jobs == old(jobs) + work.jobs && report == ReportOf(env, old(rows)))
    {
      if stopped {
        return Report(0, 0, NOTHING_DONE, 0, true, false);
      }
      if bulkActive {
        return Report(0, 0, NOTHING_DONE, 0, false, true);
      }
      var env := Env(devices, policy, excludedTypes, now, offset);
      var added := AddMissingRows(env);
      var initialized, due := NormaliseRows(env);
      var totals, batches := RunBatches(env, due);
      report := Report(VisibleCount(devices, rows, |rows|), batches, totals, added + initialized, false, false);
    }
  }
}
