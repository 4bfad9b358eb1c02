/** Two batches of one tenant always have an occurrence of its daily time between them, whatever devices come and go,
    as long as no schedule is edited and none comes back into view. */
module SchedulerGaps {
  import opened Basics
  import opened Schedule
  import opened Dispatch
  import opened Folds
  import opened Scheduler

  // ----- times of day -----

  /** What the proof needs to know about times of day: which are written as the scheduler writes them, and which
      instants are occurrences of one. */
  datatype Theory = Theory(clean: string -> bool, occurs: (string, int) -> bool)

  ghost predicate Sound(th: Theory, offset: int) {
    && th.clean(DEFAULT_TIME)
    && (forall time :: th.clean(SanitizeDailyTime(time, DEFAULT_TIME)))
    && (forall time :: th.clean(time) ==> time != "" && SanitizeDailyTime(time, DEFAULT_TIME) == time)
    && forall time, utc ::
         var next := ComputeNextDailyRunAt(time, utc, offset); next > utc && th.occurs(time, next)
  }

  /** Daily times in a zone with this offset. */
  function DailyTheory(offset: int): Theory {
    Theory(time => time != "" && SanitizeDailyTime(time, DEFAULT_TIME) == time,
           (time, t) => AtClock(ClockOf(time, TWO), t + offset))
  }

  lemma SanitizedIsClean(time: string)
    ensures var clean := SanitizeDailyTime(time, DEFAULT_TIME);
            clean != "" && SanitizeDailyTime(clean, DEFAULT_TIME) == clean
  {
    var c := SanitizedIsClock(time, TWO);
    assert SanitizeDailyTime(PrintClock(c), DEFAULT_TIME) == PrintClock(c);
  }

  lemma DefaultIsClean()
    ensures SanitizeDailyTime(DEFAULT_TIME, DEFAULT_TIME) == DEFAULT_TIME
  {
    ParsePrintClock(TWO);
  }

  lemma DailyTheorySound(offset: int)
    ensures Sound(DailyTheory(offset), offset)
  {
    DefaultIsClean();
    forall time
      ensures DailyTheory(offset).clean(SanitizeDailyTime(time, DEFAULT_TIME))
    {
      SanitizedIsClean(time);
    }
    forall time, utc
      ensures var next := ComputeNextDailyRunAt(time, utc, offset); next > utc && DailyTheory(offset).occurs(time, next)
    {
      NextDailyRunIsLeast(time, utc, offset);
    }
  }

  // ----- settled tenants -----

  /** The schedules of `tenant` wait for an occurrence of `time` after `at`. */
  datatype Wait = Wait(tenant: nat, at: int, time: string)

  predicate RowWaits(row: Row, x: Wait, th: Theory) {
    && row.routine.time == x.time && row.nextRun.Some? && row.nextRun.value > x.at
    && th.occurs(x.time, row.nextRun.value)
  }

  predicate Settled(devices: seq<Device>, rows: seq<Row>, x: Wait, th: Theory) {
    && th.clean(x.time)
    && forall i :: 0 <= i < |rows| && VisibleOf(devices, rows[i], x.tenant) ==> RowWaits(rows[i], x, th)
  }

  predicate HasVisible(devices: seq<Device>, rows: seq<Row>, tenant: nat) {
    exists i :: 0 <= i < |rows| && VisibleOf(devices, rows[i], tenant)
  }

  predicate SameTime(devices: seq<Device>, rows: seq<Row>, tenant: nat, time: string) {
    forall i :: 0 <= i < |rows| && VisibleOf(devices, rows[i], tenant) ==> rows[i].routine.time == time
  }

  predicate AllClean(times: seq<string>, th: Theory) {
    forall i :: 0 <= i < |times| ==> th.clean(times[i])
  }

  lemma {:induction false} TimesAreClean(devices: seq<Device>, rows: seq<Row>, tenant: nat, th: Theory, offset: int)
    requires Sound(th, offset)
    ensures AllClean(TenantTimes(devices, rows, tenant), th)
  {
    if rows != [] {
      TimesAreClean(devices, rows[..|rows| - 1], tenant, th, offset);
      CleanSnoc(TenantTimes(devices, rows[..|rows| - 1], tenant), rows[|rows| - 1].routine.time, th, offset);
    }
  }

  lemma CleanSnoc(times: seq<string>, time: string, th: Theory, offset: int)
    requires Sound(th, offset) && AllClean(times, th)
    ensures AllClean(times + [SanitizeDailyTime(time, DEFAULT_TIME)], th)
  {
    assert th.clean(SanitizeDailyTime(time, DEFAULT_TIME));
  }

  lemma MaxIsClean(times: seq<string>, th: Theory)
    requires AllClean(times, th) && times != []
    ensures th.clean(FirstMax(times, |times|))
  {
    var i :| 0 <= i < |times| && times[i] == FirstMax(times, |times|);
  }

  lemma TenantTimeIsClean(devices: seq<Device>, rows: seq<Row>, tenant: nat, th: Theory, offset: int)
    requires Sound(th, offset)
    ensures th.clean(TenantTime(devices, rows, tenant))
  {
    TimesAreClean(devices, rows, tenant, th, offset);
    if TenantTimes(devices, rows, tenant) != [] {
      MaxIsClean(TenantTimes(devices, rows, tenant), th);
    }
  }

  lemma {:induction false} UniformTimes(devices: seq<Device>, rows: seq<Row>, tenant: nat, time: string)
    requires time != "" && SanitizeDailyTime(time, DEFAULT_TIME) == time && SameTime(devices, rows, tenant, time)
    ensures var times := TenantTimes(devices, rows, tenant);
            && (forall i :: 0 <= i < |times| ==> times[i] == time)
            && (times != [] <==> HasVisible(devices, rows, tenant))
  {
    if rows != [] {
      var before := rows[..|rows| - 1];
      forall i | 0 <= i < |before| && VisibleOf(devices, before[i], tenant)
        ensures before[i].routine.time == time
      {
        assert before[i] == rows[i];
      }
      UniformTimes(devices, before, tenant, time);
      VisibleSnoc(devices, before, rows[|rows| - 1], tenant);
      assert before + [rows[|rows| - 1]] == rows;
    }
  }

  lemma VisibleSnoc(devices: seq<Device>, rows: seq<Row>, row: Row, tenant: nat)
    ensures HasVisible(devices, rows + [row], tenant) <==>
              HasVisible(devices, rows, tenant) || VisibleOf(devices, row, tenant)
  {
    if HasVisible(devices, rows, tenant) {
      var i :| 0 <= i < |rows| && VisibleOf(devices, rows[i], tenant);
      assert (rows + [row])[i] == rows[i];
    }
    assert (rows + [row])[|rows|] == row;
  }

  /** The daily time of a settled tenant is the time its rows wait for. */
  lemma SettledTime(devices: seq<Device>, rows: seq<Row>, x: Wait, th: Theory, offset: int)
    requires Sound(th, offset) && Settled(devices, rows, x, th)
    ensures HasVisible(devices, rows, x.tenant) ==> TenantTime(devices, rows, x.tenant) == x.time
  {
    UniformTimes(devices, rows, x.tenant, x.time);
  }

  lemma SettledAtTenantTime(devices: seq<Device>, rows: seq<Row>, x: Wait, th: Theory, offset: int)
    requires Sound(th, offset) && Settled(devices, rows, x, th)
    ensures Settled(devices, rows, x.(time := TenantTime(devices, rows, x.tenant)), th)
  {
    SettledTime(devices, rows, x, th, offset);
    TenantTimeIsClean(devices, rows, x.tenant, th, offset);
  }

  // ----- new rows and daily rows -----

  lemma NewRowWaits(env: Env, rows: seq<Row>, device: nat, at: int, th: Theory)
    requires Sound(th, env.offset) && device < |env.devices| && at <= env.now
    ensures var tenant := env.devices[device].tenant;
            RowWaits(NewRow(env, rows, device), Wait(tenant, at, TenantTime(env.devices, rows, tenant)), th)
  {
  }

  lemma {:induction false} AddedRowIsNew(env: Env, rows: seq<Row>, n: nat, i: nat) returns (device: nat)
    requires n <= |env.devices| && i < |Added(env, rows, n)|
    ensures device < |env.devices| && Added(env, rows, n)[i] == NewRow(env, rows, device)
  {
    if i < |Added(env, rows, n - 1)| {
      device := AddedRowIsNew(env, rows, n - 1, i);
    } else {
      device := n - 1;
    }
  }

  lemma AddedRowWaits(env: Env, rows: seq<Row>, i: nat, tenant: nat, at: int, th: Theory)
    requires Sound(th, env.offset) && at <= env.now && i < |Added(env, rows, |env.devices|)|
    requires VisibleOf(env.devices, Added(env, rows, |env.devices|)[i], tenant)
    ensures RowWaits(Added(env, rows, |env.devices|)[i], Wait(tenant, at, TenantTime(env.devices, rows, tenant)), th)
  {
    var device := AddedRowIsNew(env, rows, |env.devices|, i);
    NewRowWaits(env, rows, device, at, th);
  }

  lemma SettledConcat(devices: seq<Device>, a: seq<Row>, b: seq<Row>, x: Wait, th: Theory)
    requires Settled(devices, a, x, th) && Settled(devices, b, x, th)
    ensures Settled(devices, a + b, x, th)
  {
  }

  /** Rows for devices without one keep a tenant settled, at its daily time. */
  lemma AddedSettled(env: Env, rows: seq<Row>, x: Wait, th: Theory)
    requires Sound(th, env.offset) && Settled(env.devices, rows, x, th) && x.at <= env.now
    ensures Settled(env.devices, AllRows(env, rows), x.(time := TenantTime(env.devices, rows, x.tenant)), th)
  {
    SettledAtTenantTime(env.devices, rows, x, th, env.offset);
    var added, y := Added(env, rows, |env.devices|), x.(time := TenantTime(env.devices, rows, x.tenant));
    forall i | 0 <= i < |added| && VisibleOf(env.devices, added[i], x.tenant)
      ensures RowWaits(added[i], y, th)
    {
      AddedRowWaits(env, rows, i, x.tenant, x.at, th);
    }
    SettledConcat(env.devices, rows, added, y, th);
  }

  /** `rows'` has the same rows as `rows` but for what a run may change. */
  predicate SameRows(rows: seq<Row>, rows': seq<Row>) {
    && |rows'| == |rows|
    && forall i :: 0 <= i < |rows| ==> rows'[i].device == rows[i].device && rows'[i].active == rows[i].active
  }

  lemma SameVisible(devices: seq<Device>, rows: seq<Row>, rows': seq<Row>, tenant: nat)
    requires SameRows(rows, rows') && HasVisible(devices, rows, tenant)
    ensures HasVisible(devices, rows', tenant)
  {
    var i :| 0 <= i < |rows| && VisibleOf(devices, rows[i], tenant);
    assert VisibleOf(devices, rows'[i], tenant);
  }

  lemma NormalKeeps(env: Env, rows: seq<Row>, row: Row, x: Wait, th: Theory)
    requires Sound(th, env.offset) && row.device < |env.devices| && th.clean(x.time) && RowWaits(row, x, th)
    ensures RowWaits(Normal(env, rows, row), x, th)
  {
  }

  lemma SettledUpdate(devices: seq<Device>, rows: seq<Row>, i: nat, row: Row, x: Wait, th: Theory)
    requires i < |rows| && Settled(devices, rows, x, th)
    requires VisibleOf(devices, row, x.tenant) ==> RowWaits(row, x, th)
    ensures Settled(devices, rows[i := row], x, th)
  {
  }

  lemma NormalStep(env: Env, rows: seq<Row>, i: nat, x: Wait, th: Theory)
    requires Sound(th, env.offset) && i < |rows| && Settled(env.devices, rows, x, th) && Visible(env.devices, rows[i])
    ensures Settled(env.devices, rows[i := Normal(env, rows, rows[i])], x, th)
  {
    if VisibleOf(env.devices, rows[i], x.tenant) {
      NormalKeeps(env, rows, rows[i], x, th);
    }
    SettledUpdate(env.devices, rows, i, Normal(env, rows, rows[i]), x, th);
  }

  lemma {:induction false} NormalisedSettled(env: Env, rows: seq<Row>, n: nat, x: Wait, th: Theory)
    requires Sound(th, env.offset) && n <= |rows| && Settled(env.devices, rows, x, th)
    ensures Settled(env.devices, Normalised(env, rows, n), x, th)
  {
    if n > 0 {
      var before := Normalised(env, rows, n - 1);
      NormalisedSettled(env, rows, n - 1, x, th);
      if Visible(env.devices, before[n - 1]) {
        NormalStep(env, before, n - 1, x, th);
      }
    }
  }

  lemma {:induction false} NormalisedSame(env: Env, rows: seq<Row>, n: nat)
    requires n <= |rows|
    ensures SameRows(rows, Normalised(env, rows, n))
  {
    if n > 0 {
      NormalisedSame(env, rows, n - 1);
    }
  }

  // ----- one batch -----

  /** What one batch of `tenant` does to the schedules: it is recorded, leaves the waits of other tenants alone and
      makes its own tenant wait from now on; and if the tenant was waiting, its time is the time waited for. */
  ghost predicate StepOk(devices: seq<Device>, now: int, th: Theory, w: Work, tenant: nat, w': Work) {
    && |w'.batches| == |w.batches| + 1 && w'.batches[..|w.batches|] == w.batches
    && w'.batches[|w.batches|].tenant == tenant && w'.batches[|w.batches|].at == now
    && SameRows(w.rows, w'.rows)
    && (forall x: Wait :: Settled(devices, w.rows, x, th) && x.tenant != tenant ==> Settled(devices, w'.rows, x, th))
    && Settled(devices, w'.rows, Wait(tenant, now, w'.batches[|w.batches|].time), th)
    && (forall x: Wait ::
          (Settled(devices, w.rows, x, th) && x.tenant == tenant && HasVisible(devices, w.rows, tenant)) ==>
          w'.batches[|w.batches|].time == x.time)
  }

  /** A batch leaves the rows of other tenants alone. */
  lemma OtherTenantsKept(env: Env, rows: seq<Row>, other: nat, newTime: string, x: Wait, th: Theory)
    requires Settled(env.devices, rows, x, th) && other != x.tenant
    ensures Settled(env.devices, TenantRows(env, rows, other, newTime), x, th)
  {
    var r := TenantRows(env, rows, other, newTime);
    forall i | 0 <= i < |r| && VisibleOf(env.devices, r[i], x.tenant)
      ensures RowWaits(r[i], x, th)
    {
      assert VisibleOf(env.devices, rows[i], x.tenant);
    }
  }

  /** After its batch, all rows of the tenant wait for an occurrence after now. */
  lemma BatchSettles(env: Env, rows: seq<Row>, tenant: nat, time: string, th: Theory)
    requires Sound(th, env.offset) && th.clean(time)
    ensures Settled(env.devices, TenantRows(env, rows, tenant, time), Wait(tenant, env.now, time), th)
    ensures SameRows(rows, TenantRows(env, rows, tenant, time))
  {
    var r := TenantRows(env, rows, tenant, time);
    forall i | 0 <= i < |r| && VisibleOf(env.devices, r[i], tenant)
      ensures RowWaits(r[i], Wait(tenant, env.now, time), th)
    {
      assert VisibleOf(env.devices, rows[i], tenant);
    }
  }

  lemma BatchOneOk(env: Env, th: Theory, w: Work, tenant: nat)
    requires Sound(th, env.offset)
    ensures StepOk(env.devices, env.now, th, w, tenant, BatchOne(env, w, tenant))
  {
    var time := TenantTime(env.devices, w.rows, tenant);
    TenantTimeIsClean(env.devices, w.rows, tenant, th, env.offset);
    BatchSettles(env, w.rows, tenant, time, th);
    forall x: Wait | Settled(env.devices, w.rows, x, th) && x.tenant != tenant
      ensures Settled(env.devices, TenantRows(env, w.rows, tenant, time), x, th)
    {
      OtherTenantsKept(env, w.rows, tenant, time, x, th);
    }
    forall x: Wait | Settled(env.devices, w.rows, x, th) && x.tenant == tenant &&
                     HasVisible(env.devices, w.rows, tenant)
      ensures time == x.time
    {
      SettledTime(env.devices, w.rows, x, th, env.offset);
    }
  }

  // ----- all batches of a run, for any step that behaves like one batch -----

  ghost predicate StepsOk(devices: seq<Device>, now: int, th: Theory, step: (Work, nat) -> Work) {
    forall w, tenant :: StepOk(devices, now, th, w, tenant, step(w, tenant))
  }

  /** The records are those of `tenants`, in order, at `now`. */
  predicate RecordsAre(batches: seq<Batch>, tenants: seq<nat>, now: int) {
    && |batches| == |tenants|
    && forall j :: 0 <= j < |batches| ==> batches[j].tenant == tenants[j] && batches[j].at == now
  }

  lemma {:induction false} FoldRecords(devices: seq<Device>, now: int, th: Theory, step: (Work, nat) -> Work,
                                       w: Work, tenants: seq<nat>)
    requires StepsOk(devices, now, th, step) && w.batches == []
    ensures RecordsAre(FoldLeft(step, tenants, w).batches, tenants, now)
    ensures SameRows(w.rows, FoldLeft(step, tenants, w).rows)
  {
    if tenants != [] {
      var before, last := tenants[..|tenants| - 1], tenants[|tenants| - 1];
      var wb := FoldLeft(step, before, w);
      FoldRecords(devices, now, th, step, w, before);
      var w' := step(wb, last);
      assert StepOk(devices, now, th, wb, last, w');
      forall j | 0 <= j < |w'.batches|
        ensures w'.batches[j].tenant == tenants[j] && w'.batches[j].at == now
      {
        if j < |wb.batches| {
          assert w'.batches[j] == w'.batches[..|wb.batches|][j];
        }
      }
    }
  }

  lemma SettledEarlier(devices: seq<Device>, rows: seq<Row>, x: Wait, at: int, th: Theory)
    requires Settled(devices, rows, x, th) && at <= x.at
    ensures Settled(devices, rows, x.(at := at), th)
  {
    forall i | 0 <= i < |rows| && VisibleOf(devices, rows[i], x.tenant)
      ensures RowWaits(rows[i], x.(at := at), th)
    {
      assert RowWaits(rows[i], x, th);
    }
  }

  lemma {:induction false} FoldSettled(devices: seq<Device>, now: int, th: Theory, step: (Work, nat) -> Work,
                                       w: Work, tenants: seq<nat>, x: Wait) returns (y: Wait)
    requires StepsOk(devices, now, th, step) && Settled(devices, w.rows, x, th) && x.at <= now
    ensures Settled(devices, FoldLeft(step, tenants, w).rows, y, th) && y.tenant == x.tenant && y.at == x.at
    ensures x.tenant !in tenants ==> y == x
  {
    y := x;
    if tenants != [] {
      var before, last := tenants[..|tenants| - 1], tenants[|tenants| - 1];
      y := FoldSettled(devices, now, th, step, w, before, x);
      y := StepSettled(devices, now, th, FoldLeft(step, before, w), last, step(FoldLeft(step, before, w), last), y);
    }
  }

  lemma StepSettled(devices: seq<Device>, now: int, th: Theory, w: Work, tenant: nat, w': Work, x: Wait)
      returns (y: Wait)
    requires StepOk(devices, now, th, w, tenant, w') && Settled(devices, w.rows, x, th) && x.at <= now
    ensures Settled(devices, w'.rows, y, th) && y.tenant == x.tenant && y.at == x.at
    ensures x.tenant != tenant ==> y == x
  {
    y := x;
    if tenant == x.tenant {
      y := Wait(tenant, now, w'.batches[|w.batches|].time);
      SettledEarlier(devices, w'.rows, y, x.at, th);
      y := y.(at := x.at);
    }
  }

  /** Every tenant batched waits from now on. */
  lemma {:induction false} FoldNewWait(devices: seq<Device>, now: int, th: Theory, step: (Work, nat) -> Work,
                                       w: Work, tenants: seq<nat>, tenant: nat) returns (y: Wait)
    requires StepsOk(devices, now, th, step) && tenant in tenants
    ensures Settled(devices, FoldLeft(step, tenants, w).rows, y, th) && y.tenant == tenant && y.at == now
  {
    var before, last := tenants[..|tenants| - 1], tenants[|tenants| - 1];
    var wb := FoldLeft(step, before, w);
    var w' := step(wb, last);
    assert StepOk(devices, now, th, wb, last, w');
    if tenant == last {
      y := Wait(tenant, now, w'.batches[|wb.batches|].time);
    } else {
      Snoc(tenants);
      y := FoldNewWait(devices, now, th, step, w, before, tenant);
      y := StepSettled(devices, now, th, wb, last, w', y);
    }
  }

  lemma StepAppends(devices: seq<Device>, now: int, th: Theory, step: (Work, nat) -> Work, w: Work, tenant: nat)
    requires StepsOk(devices, now, th, step)
    ensures var batches := step(w, tenant).batches;
            |batches| == |w.batches| + 1 && forall j :: 0 <= j < |w.batches| ==> batches[j] == w.batches[j]
  {
    var w' := step(w, tenant);
    assert StepOk(devices, now, th, w, tenant, w');
    forall j | 0 <= j < |w.batches|
      ensures w'.batches[j] == w.batches[j]
    {
      assert w'.batches[j] == w'.batches[..|w.batches|][j];
    }
  }

  lemma {:induction false} FoldAppends(devices: seq<Device>, now: int, th: Theory, step: (Work, nat) -> Work,
                                       w: Work, tenants: seq<nat>)
    requires StepsOk(devices, now, th, step)
    ensures |w.batches| <= |FoldLeft(step, tenants, w).batches|
    ensures forall j :: 0 <= j < |w.batches| ==> FoldLeft(step, tenants, w).batches[j] == w.batches[j]
  {
    if tenants != [] {
      FoldAppends(devices, now, th, step, w, tenants[..|tenants| - 1]);
      StepAppends(devices, now, th, step, FoldLeft(step, tenants[..|tenants| - 1], w), tenants[|tenants| - 1]);
    }
  }

  lemma LastTime(devices: seq<Device>, now: int, th: Theory, step: (Work, nat) -> Work,
                 w: Work, before: seq<nat>, x: Wait)
    requires StepsOk(devices, now, th, step) && w.batches == [] && x.tenant !in before
    requires Settled(devices, w.rows, x, th) && x.at <= now && HasVisible(devices, w.rows, x.tenant)
    ensures var batches := step(FoldLeft(step, before, w), x.tenant).batches;
            |batches| == |before| + 1 && batches[|before|].time == x.time
  {
    var wb := FoldLeft(step, before, w);
    var y := FoldSettled(devices, now, th, step, w, before, x);
    FoldRecords(devices, now, th, step, w, before);
    SameVisible(devices, w.rows, wb.rows, x.tenant);
    assert StepOk(devices, now, th, wb, x.tenant, step(wb, x.tenant));
  }

  lemma SplitFold(step: (Work, nat) -> Work, w: Work, tenants: seq<nat>, j: nat)
    requires j < |tenants|
    ensures FoldLeft(step, tenants, w) ==
              FoldLeft(step, tenants[j + 1..], step(FoldLeft(step, tenants[..j], w), tenants[j]))
  {
    FoldSnoc(step, tenants[..j], tenants[j], w);
    FoldConcat(step, tenants[..j] + [tenants[j]], tenants[j + 1..], w);
    assert tenants == tenants[..j] + [tenants[j]] + tenants[j + 1..];
  }

  /** The time recorded for a tenant that was waiting is the time it waited for. */
  lemma FoldTime(devices: seq<Device>, now: int, th: Theory, step: (Work, nat) -> Work,
                 w: Work, tenants: seq<nat>, j: nat, x: Wait)
    requires StepsOk(devices, now, th, step) && w.batches == [] && Ascending(tenants) && j < |tenants|
    requires Settled(devices, w.rows, x, th) && x.at <= now && x.tenant == tenants[j]
    requires HasVisible(devices, w.rows, x.tenant)
    ensures j < |FoldLeft(step, tenants, w).batches| && FoldLeft(step, tenants, w).batches[j].time == x.time
  {
    LastTime(devices, now, th, step, w, tenants[..j], x);
    SplitFold(step, w, tenants, j);
    FoldAppends(devices, now, th, step, step(FoldLeft(step, tenants[..j], w), tenants[j]), tenants[j + 1..]);
  }

  // ----- one run -----

  /** What one run does to the schedules: waits go on, every batch starts one, and a batch of a tenant that was waiting
      has an occurrence of its time behind it, after the wait began. */
  ghost predicate RunOk(devices: seq<Device>, now: int, th: Theory, rows: seq<Row>, run: Work) {
    && (forall x: Wait :: (Settled(devices, rows, x, th) && x.at <= now) ==>
          Waiting(devices, run.rows, x.tenant, x.at, th))
    && (forall j :: 0 <= j < |run.batches| ==>
          run.batches[j].at == now && Waiting(devices, run.rows, run.batches[j].tenant, now, th))
    && (forall x: Wait, j ::
          (0 <= j < |run.batches| && run.batches[j].tenant == x.tenant && x.at <= now &&
           Settled(devices, rows, x, th)) ==>
            Occurred(x.at, now, run.batches[j].time, th))
    && forall j, k :: 0 <= j < k < |run.batches| ==> run.batches[j].tenant != run.batches[k].tenant
  }

  ghost predicate Waiting(devices: seq<Device>, rows: seq<Row>, tenant: nat, at: int, th: Theory) {
    exists x: Wait :: x.tenant == tenant && x.at == at && Settled(devices, rows, x, th)
  }

  /** `time` has an occurrence after `from` and not after `to`. */
  ghost predicate Occurred(from: int, to: int, time: string, th: Theory) {
    exists t :: from < t <= to && th.occurs(time, t)
  }

  lemma BatchStepsOk(env: Env, th: Theory)
    requires Sound(th, env.offset)
    ensures StepsOk(env.devices, env.now, th, BatchStep(env))
  {
    forall w, tenant
      ensures StepOk(env.devices, env.now, th, w, tenant, BatchStep(env)(w, tenant))
    {
      BatchOneOk(env, th, w, tenant);
    }
  }

  /** The row that makes a settled tenant due is at an occurrence of its time. */
  lemma DueOccurred(env: Env, rows: seq<Row>, x: Wait, th: Theory)
    requires x.tenant in DueTenants(env, rows, |rows|) && Settled(env.devices, rows, x, th)
    ensures HasVisible(env.devices, rows, x.tenant) && Occurred(x.at, env.now, x.time, th)
  {
    DueIff(env, rows, |rows|, x.tenant);
    var i :| 0 <= i < |rows| && IsDue(env, rows[i]) && env.devices[rows[i].device].tenant == x.tenant;
    assert VisibleOf(env.devices, rows[i], x.tenant);
    assert RowWaits(rows[i], x, th);
  }

  /** The last part of a run: from all rows, through the daily rows, to the batches. */
  lemma WaitThroughRun(env: Env, th: Theory, all: seq<Row>, x: Wait, step: (Work, nat) -> Work, due: seq<nat>,
                       run: Work)
    requires Sound(th, env.offset) && Settled(env.devices, all, x, th) && x.at <= env.now
    requires StepsOk(env.devices, env.now, th, step) && due == DueTenants(env, all, |all|)
    requires run == FoldLeft(step, due, Work(Normalised(env, all, |all|), [], [], NOTHING_DONE))
    ensures Waiting(env.devices, run.rows, x.tenant, x.at, th)
    ensures forall j :: 0 <= j < |run.batches| && run.batches[j].tenant == x.tenant ==>
              Occurred(x.at, env.now, run.batches[j].time, th)
  {
    var start := Work(Normalised(env, all, |all|), [], [], NOTHING_DONE);
    NormalisedSettled(env, all, |all|, x, th);
    NormalisedSame(env, all, |all|);
    var y := FoldSettled(env.devices, env.now, th, step, start, due, x);
    FoldRecords(env.devices, env.now, th, step, start, due);
    forall j | 0 <= j < |run.batches| && run.batches[j].tenant == x.tenant
      ensures Occurred(x.at, env.now, run.batches[j].time, th)
    {
      DueOccurred(env, all, x, th);
      SameVisible(env.devices, all, start.rows, x.tenant);
      FoldTime(env.devices, env.now, th, step, start, due, j, x);
    }
  }

  lemma NewWaits(env: Env, th: Theory, start: Work, step: (Work, nat) -> Work, due: seq<nat>, run: Work)
    requires StepsOk(env.devices, env.now, th, step) && Ascending(due) && start.batches == []
    requires run == FoldLeft(step, due, start)
    ensures forall j :: 0 <= j < |run.batches| ==>
              run.batches[j].at == env.now && Waiting(env.devices, run.rows, run.batches[j].tenant, env.now, th)
    ensures forall j, k :: 0 <= j < k < |run.batches| ==> run.batches[j].tenant != run.batches[k].tenant
  {
    FoldRecords(env.devices, env.now, th, step, start, due);
    forall j | 0 <= j < |run.batches|
      ensures Waiting(env.devices, run.rows, run.batches[j].tenant, env.now, th)
    {
      var y := FoldNewWait(env.devices, env.now, th, step, start, due, due[j]);
    }
  }

  lemma RunIsOk(env: Env, th: Theory, rows: seq<Row>)
    requires Sound(th, env.offset)
    ensures RunOk(env.devices, env.now, th, rows, Run(env, rows))
  {
    var run, all := Run(env, rows), AllRows(env, rows);
    var due := DueTenants(env, all, |all|);
    BatchStepsOk(env, th);
    NewWaits(env, th, Work(Normalised(env, all, |all|), [], [], NOTHING_DONE), BatchStep(env), due, run);
    forall x: Wait | Settled(env.devices, rows, x, th) && x.at <= env.now
      ensures Waiting(env.devices, run.rows, x.tenant, x.at, th)
      ensures forall j :: 0 <= j < |run.batches| && run.batches[j].tenant == x.tenant ==>
                Occurred(x.at, env.now, run.batches[j].time, th)
    {
      AddedSettled(env, rows, x, th);
      WaitThroughRun(env, th, all, x.(time := TenantTime(env.devices, rows, x.tenant)), BatchStep(env), due, run);
    }
  }

  // ----- runs of the system -----

  datatype World = World(devices: seq<Device>, rows: seq<Row>, batches: seq<Batch>, clock: int)

  predicate TickStep(w: World, env: Env, w': World) {
    && env.devices == w.devices && env.now >= w.clock
    && w' == World(w.devices, Run(env, w.rows).rows, w.batches + Run(env, w.rows).batches, env.now)
  }

  /** Devices come, go and change; schedules are at most switched off. */
  ghost predicate ChangeStep(w: World, w': World) {
    && w'.batches == w.batches && w'.clock >= w.clock && |w'.rows| == |w.rows|
    && forall i :: 0 <= i < |w.rows| ==>
         && w'.rows[i].routine == w.rows[i].routine && w'.rows[i].nextRun == w.rows[i].nextRun
         && forall t :: VisibleOf(w'.devices, w'.rows[i], t) ==> VisibleOf(w.devices, w.rows[i], t)
  }

  ghost predicate Step(w: World, w': World, offset: int) {
    ChangeStep(w, w') || exists env: Env :: env.offset == offset && TickStep(w, env, w')
  }

  /** Any two batches of one tenant have an occurrence of the later one's daily time between them. */
  ghost predicate AllSeparated(batches: seq<Batch>, th: Theory) {
    forall j, k :: 0 <= j < k < |batches| && batches[j].tenant == batches[k].tenant ==>
      Occurred(batches[j].at, batches[k].at, batches[k].time, th)
  }

  ghost predicate Inv(w: World, th: Theory) {
    && AllSeparated(w.batches, th)
    && forall k :: 0 <= k < |w.batches| ==>
         w.batches[k].at <= w.clock && Waiting(w.devices, w.rows, w.batches[k].tenant, w.batches[k].at, th)
  }

  lemma ChangeKeepsWait(w: World, w': World, x: Wait, th: Theory)
    requires ChangeStep(w, w') && Settled(w.devices, w.rows, x, th)
    ensures Settled(w'.devices, w'.rows, x, th)
  {
    forall i | 0 <= i < |w'.rows| && VisibleOf(w'.devices, w'.rows[i], x.tenant)
      ensures RowWaits(w'.rows[i], x, th)
    {
      assert VisibleOf(w.devices, w.rows[i], x.tenant);
    }
  }

  lemma ChangeKeepsInv(w: World, w': World, th: Theory)
    requires ChangeStep(w, w') && Inv(w, th)
    ensures Inv(w', th)
  {
    forall k | 0 <= k < |w'.batches|
      ensures Waiting(w'.devices, w'.rows, w'.batches[k].tenant, w'.batches[k].at, th)
    {
      assert Waiting(w.devices, w.rows, w.batches[k].tenant, w.batches[k].at, th);
      var x: Wait :| x.tenant == w.batches[k].tenant && x.at == w.batches[k].at && Settled(w.devices, w.rows, x, th);
      ChangeKeepsWait(w, w', x, th);
    }
  }

  lemma RunKeepsInv(w: World, now: int, th: Theory, run: Work)
    requires Inv(w, th) && w.clock <= now && RunOk(w.devices, now, th, w.rows, run)
    ensures Inv(World(w.devices, run.rows, w.batches + run.batches, now), th)
  {
    var n, batches := |w.batches|, w.batches + run.batches;
    forall k | 0 <= k < |batches|
      ensures batches[k].at <= now && Waiting(w.devices, run.rows, batches[k].tenant, batches[k].at, th)
    {
      if k < n {
        assert Waiting(w.devices, w.rows, w.batches[k].tenant, w.batches[k].at, th);
        var x: Wait :| x.tenant == w.batches[k].tenant && x.at == w.batches[k].at && Settled(w.devices, w.rows, x, th);
      }
    }
    forall j, k | 0 <= j < k < |batches| && batches[j].tenant == batches[k].tenant
      ensures Occurred(batches[j].at, batches[k].at, batches[k].time, th)
    {
      if j < n <= k {
        assert Waiting(w.devices, w.rows, w.batches[j].tenant, w.batches[j].at, th);
        var x: Wait :| x.tenant == w.batches[j].tenant && x.at == w.batches[j].at && Settled(w.devices, w.rows, x, th);
        assert batches[k] == run.batches[k - n];
      }
    }
  }

  lemma {:induction false} EveryRunKeepsInv(trace: seq<World>, offset: int, th: Theory)
    requires Sound(th, offset) && trace != [] && trace[0].batches == []
    requires forall i :: 0 <= i < |trace| - 1 ==> Step(trace[i], trace[i + 1], offset)
    ensures Inv(trace[|trace| - 1], th)
  {
    if |trace| > 1 {
      var w, w' := trace[|trace| - 2], trace[|trace| - 1];
      EveryRunKeepsInv(trace[..|trace| - 1], offset, th);
      assert Step(w, w', offset);
      if ChangeStep(w, w') {
        ChangeKeepsInv(w, w', th);
      } else {
        var env: Env :| env.offset == offset && TickStep(w, env, w');
        RunIsOk(env, th, w.rows);
        RunKeepsInv(w, env.now, th, Run(env, w.rows));
      }
    }
  }

  lemma DailyOccurrence(from: int, to: int, time: string, offset: int) returns (t: int)
    requires Occurred(from, to, time, DailyTheory(offset))
    ensures from < t <= to && AtClock(ClockOf(time, TWO), t + offset)
  {
    t :| from < t <= to && DailyTheory(offset).occurs(time, t);
  }

  lemma EverySeparated(trace: seq<World>, offset: int, th: Theory, a: Batch, b: Batch, j: nat, k: nat)
    requires Sound(th, offset) && trace != [] && trace[0].batches == []
    requires forall i :: 0 <= i < |trace| - 1 ==> Step(trace[i], trace[i + 1], offset)
    requires j < k < |trace[|trace| - 1].batches|
    requires a == trace[|trace| - 1].batches[j] && b == trace[|trace| - 1].batches[k] && a.tenant == b.tenant
    ensures Occurred(a.at, b.at, b.time, th)
  {
    EveryRunKeepsInv(trace, offset, th);
  }

  /** In every run of the system, two batches of one tenant have an occurrence of its daily time between them: never
      more than one batch for one daily occurrence. */
  lemma EveryRun(trace: seq<World>, offset: int, a: Batch, b: Batch, j: nat, k: nat) returns (t: int)
    requires trace != [] && trace[0].batches == []
    requires forall i :: 0 <= i < |trace| - 1 ==> Step(trace[i], trace[i + 1], offset)
    requires j < k < |trace[|trace| - 1].batches|
    requires a == trace[|trace| - 1].batches[j] && b == trace[|trace| - 1].batches[k] && a.tenant == b.tenant
    ensures a.at < t <= b.at && AtClock(ClockOf(b.time, TWO), t + offset)
  {
    DailyTheorySound(offset);
    EverySeparated(trace, offset, DailyTheory(offset), a, b, j, k);
    t := DailyOccurrence(a.at, b.at, b.time, offset);
  }
}
