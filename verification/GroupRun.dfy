/** The device loop of a group backup (app/tasks/backups.py, run_vpn_group_backups_task): what is counted and what
    progress is reported, for any device outcomes and any timing of a stop request. */
module GroupRun {
  import opened Basics
  import opened Folds

  /** What backing up one device comes to; Raised is an exception that leaves the loop. */
  datatype Outcome = Succeeded | Failed | Raised

  /** One turn of the loop: whether a stop is requested when it begins, and what its device would come to. */
  datatype Turn = Turn(stop: bool, outcome: Outcome)

  /** A line of the result; the line for an interruption has no device. */
  datatype Detail = Detail(device: Option<nat>, success: bool)

  datatype Phase = Going | Cancelled | Broken

  datatype Loop = Loop(phase: Phase, processed: nat, success: nat, failed: nat,
                       details: seq<Detail>, progress: seq<int>)

  datatype Status = Success | Failure | Stopped | Error

  /** `result` is None where the task returns only an error. */
  datatype End = End(status: Status, result: Option<Loop>, progress: seq<int>)

  // ----- progress -----

  /** `_multi_device_progress`, with the fraction of the current device in hundredths. */
  function Progress(total: nat, processed: nat, hundredths: nat): int {
    var t := Max(1, total);
    var f := Min(99, hundredths);
    Min(95, Max(5, 5 + ((100 * processed + f) * 90) / (100 * t)))
  }

  /** The progress of the direct branch. */
  function DirectProgress(total: nat, processed: nat): int {
    Min(95, (processed * 100) / Max(1, total))
  }

  // ----- the loop -----

  const BEGIN := Loop(Going, 0, 0, 0, [], [5])

  function Report(s: Loop, progress: int): Loop {
    s.(progress := s.progress + [progress])
  }

  function Cancel(s: Loop, total: nat): Loop {
    s.(phase := Cancelled, failed := s.failed + Max(0, total - s.processed),
       details := s.details + [Detail(None, false)])
  }

  function Count(s: Loop, success: bool): Loop {
    s.(success := if success then s.success + 1 else s.success,
       failed := if success then s.failed else s.failed + 1,
       processed := s.processed + 1,
       details := s.details + [Detail(Some(s.processed), success)])
  }

  function TurnOf(vpn: bool, total: nat, s: Loop, turn: Turn): Loop {
    if s.phase != Going then s
    else if turn.stop then Cancel(s, total)
    else
      var started := if vpn then Report(s, Progress(total, s.processed, 20)) else s;
      if turn.outcome == Raised then started.(phase := Broken)
      else
        var counted := Count(started, turn.outcome == Succeeded);
        Report(counted, if vpn then Progress(total, counted.processed, 0) else DirectProgress(total, counted.processed))
  }

  function LoopStep(vpn: bool, total: nat): (Loop, Turn) -> Loop {
    (s: Loop, turn: Turn) => TurnOf(vpn, total, s, turn)
  }

  function Looped(vpn: bool, total: nat, turns: seq<Turn>): Loop {
    FoldLeft(LoopStep(vpn, total), turns, BEGIN)
  }

  /** What a group run is given: its devices' turns, whether a VPN is needed and connects, and whether a stop is
      already requested. */
  datatype Input = Input(turns: seq<Turn>, vpnRequired: seq<bool>, forceVpn: bool, vpnConnects: bool, stopped: bool)

  predicate UsesVpn(x: Input) {
    x.turns != [] && (x.forceVpn || true in x.vpnRequired)
  }

  function Finish(s: Loop): End {
    var final := s.progress + [100];
    match s.phase
    case Broken => End(Error, None, final)
    case Cancelled => End(Stopped, Some(s), final)
    case Going => End(if s.failed == 0 then Success else Failure, Some(s), final)
  }

  function RunGroup(x: Input): End {
    var total := |x.turns|;
    if x.turns == [] then End(Success, Some(Loop(Going, 0, 0, 0, [], [])), [100])
    else if x.stopped then End(Stopped, Some(Loop(Cancelled, 0, 0, total, [Detail(None, false)], [])), [100])
    else if UsesVpn(x) && !x.vpnConnects then End(Error, None, [5, 100])
    else Finish(Looped(UsesVpn(x), total, x.turns))
  }

  /** The task as it runs. */
  class Task {
    var success: nat
    var failed: nat
    var processed: nat
    var details: seq<Detail>
    var progress: seq<int>

    function Now(phase: Phase): Loop
      reads this
    {
      Loop(phase, processed, success, failed, details, progress)
    }

    method UpdateMeta(value: int)
      modifies this`progress
      ensures progress == old(progress) + [value]
    {
      progress := progress + [value];
    }

    method CountOne(ok: bool)
      modifies this
      ensures Now(Going) == Count(old(Now(Going)), ok)
    {
      if ok {
        success := success + 1;
      } else {
        failed := failed + 1;
      }
      details := details + [Detail(Some(processed), ok)];
      processed := processed + 1;
    }

    method RunTurn(vpn: bool, total: nat, turn: Turn) returns (phase: Phase)
      modifies this
      ensures Now(phase) == TurnOf(vpn, total, old(Now(Going)), turn)
    {
      if turn.stop {
        failed := failed + Max(0, total - processed);
        details := details + [Detail(None, false)];
        return Cancelled;
      }
      if vpn {
        UpdateMeta(Progress(total, processed, 20));
      }
      if turn.outcome == Raised {
        return Broken;
      }
      CountOne(turn.outcome == Succeeded);
      UpdateMeta(if vpn then Progress(total, processed, 0) else DirectProgress(total, processed));
      return Going;
    }

    method RunDevices(vpn: bool, turns: seq<Turn>) returns (phase: Phase)
      requires Now(Going) == BEGIN
      modifies this
      ensures Now(phase) == Looped(vpn, |turns|, turns)
    {
      phase := Going;
      ghost var step := LoopStep(vpn, |turns|);
      for i := 0 to |turns|
        invariant phase == Going && Now(Going) == FoldLeft(step, turns[..i], BEGIN)
      {
        assert turns[..i + 1] == turns[..i] + [turns[i]];
        FoldSnoc(step, turns[..i], turns[i], BEGIN);
        phase := RunTurn(vpn, |turns|, turns[i]);
        if phase != Going {
          RestSkipped(vpn, |turns|, turns, i + 1);
          return;
        }
      }
      assert turns[..|turns|] == turns;
    }

    method Run(x: Input) returns (end: End)
      requires Now(Going) == BEGIN.(progress := [])
      modifies this
      ensures end == RunGroup(x)
    {
      var total := |x.turns|;
      if x.turns == [] {
        UpdateMeta(100);
        return End(Success, Some(Loop(Going, 0, 0, 0, [], [])), progress);
      }
      if x.stopped {
        failed := total;
        details := details + [Detail(None, false)];
        UpdateMeta(100);
        assert details == [Detail(None, false)] && progress == [100];
        return End(Stopped, Some(Loop(Cancelled, 0, success, failed, details, [])), progress);
      }
      UpdateMeta(5);
      var vpn := x.forceVpn || true in x.vpnRequired;
      if vpn && !x.vpnConnects {
        UpdateMeta(100);
        return End(Error, None, progress);
      }
      var phase := RunDevices(vpn, x.turns);
      var loop := Now(phase);
      UpdateMeta(100);
      if phase == Broken {
        return End(Error, None, progress);
      }
      var status := if phase == Cancelled then Stopped else if failed == 0 then Success else Failure;
      return End(status, Some(loop), progress);
    }
  }

  // ----- the loop stops once it is not going -----

  lemma {:induction false} RestSkipped(vpn: bool, total: nat, turns: seq<Turn>, n: nat)
    requires n <= |turns| && Looped(vpn, total, turns[..n]).phase != Going
    ensures Looped(vpn, total, turns) == Looped(vpn, total, turns[..n])
    decreases |turns| - n
  {
    if n == |turns| {
      assert turns[..n] == turns;
    } else {
      assert turns[..n + 1] == turns[..n] + [turns[n]];
      FoldSnoc(LoopStep(vpn, total), turns[..n], turns[n], BEGIN);
      RestSkipped(vpn, total, turns, n + 1);
    }
  }

  // ----- conservation -----

  function Successes(turns: seq<Turn>): nat {
    if turns == [] then 0
    else Successes(turns[..|turns| - 1]) + if turns[|turns| - 1].outcome == Succeeded then 1 else 0
  }

  /** The number of turns before the first at which a stop is requested or an exception leaves the loop. */
  function Completed(turns: seq<Turn>): (n: nat)
    ensures n <= |turns|
    ensures forall i :: 0 <= i < n ==> !turns[i].stop && turns[i].outcome != Raised
    ensures n < |turns| ==> turns[n].stop || turns[n].outcome == Raised
  {
    if turns == [] || turns[0].stop || turns[0].outcome == Raised then 0 else 1 + Completed(turns[1..])
  }

  /** What the loop has counted after turns none of which ends it. */
  lemma {:induction false} Counted(vpn: bool, total: nat, turns: seq<Turn>)
    requires forall i :: 0 <= i < |turns| ==> !turns[i].stop && turns[i].outcome != Raised
    ensures var s := Looped(vpn, total, turns);
            && s.phase == Going && s.processed == |turns| && s.success == Successes(turns)
            && s.success + s.failed == |turns| && |s.details| == |turns|
            && forall i :: 0 <= i < |turns| ==> s.details[i] == Detail(Some(i), turns[i].outcome == Succeeded)
  {
    if turns != [] {
      Counted(vpn, total, turns[..|turns| - 1]);
    }
  }

  /** The turn that ends the loop after `s`. */
  lemma EndingTurn(vpn: bool, total: nat, s: Loop, turn: Turn)
    requires s.phase == Going && s.success + s.failed == s.processed < total && (turn.stop || turn.outcome == Raised)
    ensures var r := TurnOf(vpn, total, s, turn);
            && r.processed == s.processed && r.success == s.success
            && r.phase == (if turn.stop then Cancelled else Broken)
            && (turn.stop ==> r.success + r.failed == total && |r.details| == |s.details| + 1)
            && (!turn.stop ==> |r.details| == |s.details|)
  {
  }

  lemma LoopedSnoc(vpn: bool, total: nat, turns: seq<Turn>, n: nat)
    requires n < |turns|
    ensures Looped(vpn, total, turns[..n + 1]) == TurnOf(vpn, total, Looped(vpn, total, turns[..n]), turns[n])
  {
    assert turns[..n + 1] == turns[..n] + [turns[n]];
    FoldSnoc(LoopStep(vpn, total), turns[..n], turns[n], BEGIN);
  }

  /** How the loop ends: with everything processed, or at the first stop or exception, and what is counted then. A
      stop counts every device not yet processed as failed. */
  lemma LoopEnds(vpn: bool, turns: seq<Turn>)
    ensures var s, n := Looped(vpn, |turns|, turns), Completed(turns);
            && s.processed == n && s.success == Successes(turns[..n])
            && s.phase == (if n == |turns| then Going else if turns[n].stop then Cancelled else Broken)
            && (s.phase != Broken ==> s.success + s.failed == |turns|)
            && |s.details| == n + (if s.phase == Cancelled then 1 else 0)
  {
    var n := Completed(turns);
    Counted(vpn, |turns|, turns[..n]);
    if n == |turns| {
      assert turns[..n] == turns;
    } else {
      LoopedSnoc(vpn, |turns|, turns, n);
      EndingTurn(vpn, |turns|, Looped(vpn, |turns|, turns[..n]), turns[n]);
      RestSkipped(vpn, |turns|, turns, n + 1);
    }
  }

  /** Every end that returns a result accounts for every device: succeeded plus failed is the total. */
  lemma Conservation(x: Input)
    ensures var end := RunGroup(x);
            && (end.result.Some? ==> end.result.value.success + end.result.value.failed == |x.turns|)
            && (end.result.None? <==> end.status == Error)
            && (end.status == Success ==> end.result.value.success == |x.turns|)
  {
    LoopEnds(UsesVpn(x), x.turns);
  }

  // ----- progress over a VPN -----

  lemma DivMonotone(a: nat, b: nat, d: nat)
    requires a <= b && d > 0
    ensures a / d <= b / d
  {
    assert a == d * (a / d) + a % d;
    assert b == d * (b / d) + b % d;
    if a / d > b / d {
      Scaled(b / d + 1, a / d, d);
    }
  }

  lemma Scaled(a: nat, b: nat, d: nat)
    requires a <= b
    ensures d * a <= d * b
  {
  }

  lemma ProgressGrows(total: nat, p: nat, f: nat, q: nat, g: nat)
    requires f <= 99 && g <= 99 && 100 * p + f <= 100 * q + g
    ensures 5 <= Progress(total, p, f) <= Progress(total, q, g) <= 95
  {
    DivMonotone((100 * p + f) * 90, (100 * q + g) * 90, 100 * Max(1, total));
  }

  lemma Cancels(a: nat, d: nat)
    requires d > 0
    ensures a * d / d == a
  {
    var q := a * d / d;
    assert a * d == d * q + (a * d) % d;
    if q < a {
      Scaled(q + 1, a, d);
    } else if q > a {
      Scaled(a + 1, q, d);
    }
  }

  /** The progress spans 5 to 95: 5 when nothing is done, 95 when everything is. */
  lemma ProgressSpans(total: nat)
    requires total > 0
    ensures Progress(total, 0, 0) == 5 && Progress(total, total, 0) == 95
  {
    Cancels(90, 100 * total);
    assert (100 * total + 0) * 90 == 90 * (100 * total);
  }

  predicate Rising(progress: seq<int>) {
    && (forall i :: 0 <= i < |progress| ==> 5 <= progress[i] <= 95)
    && forall i, j :: 0 <= i < j < |progress| ==> progress[i] <= progress[j]
  }

  lemma RisingSnoc(progress: seq<int>, value: int)
    requires Rising(progress) && progress != [] && progress[|progress| - 1] <= value <= 95
    ensures Rising(progress + [value])
  {
  }

  /** In the VPN branch the reported progress never decreases and stays in 5..95. */
  lemma {:induction false} VpnProgressRises(total: nat, turns: seq<Turn>)
    ensures var s := Looped(true, total, turns);
            && s.progress != [] && Rising(s.progress)
            && (s.phase == Going ==> s.progress[|s.progress| - 1] <= Progress(total, s.processed, 0))
  {
    if turns == [] {
      ProgressGrows(total, 0, 0, 0, 0);
    } else {
      var before, turn := turns[..|turns| - 1], turns[|turns| - 1];
      var s := Looped(true, total, before);
      VpnProgressRises(total, before);
      if s.phase == Going && !turn.stop {
        var begun := Progress(total, s.processed, 20);
        ProgressGrows(total, s.processed, 0, s.processed, 20);
        ProgressGrows(total, s.processed, 20, s.processed + 1, 0);
        RisingSnoc(s.progress, begun);
        RisingSnoc(s.progress + [begun], Progress(total, s.processed + 1, 0));
      }
    }
  }

  /** Over the whole VPN branch: never decreasing, in 5..95 until the last report, which is 100. */
  lemma VpnRunProgress(x: Input)
    requires UsesVpn(x) && !x.stopped
    ensures var p := RunGroup(x).progress;
            && p != [] && p[|p| - 1] == 100 && Rising(p[..|p| - 1])
  {
    VpnProgressRises(|x.turns|, x.turns);
    var p := RunGroup(x).progress;
    assert p[..|p| - 1] == if x.vpnConnects then Looped(true, |x.turns|, x.turns).progress else [5];
  }

  // ----- progress without a VPN -----

  /** The direct branch starts its own scale below the 5 already reported, so that progress falls back. */
  predicate FallsBack(progress: seq<int>) {
    exists i :: 0 <= i < |progress| - 1 && progress[i] > progress[i + 1]
  }

  lemma {:induction false} DirectProgressIs(total: nat, turns: seq<Turn>)
    ensures var s := Looped(false, total, turns);
            && |s.progress| == s.processed + 1 && s.progress[0] == 5
            && forall i :: 1 <= i <= s.processed ==> s.progress[i] == DirectProgress(total, i)
  {
    if turns != [] {
      DirectProgressIs(total, turns[..|turns| - 1]);
    }
  }

  lemma DirectGrows(total: nat, p: nat, q: nat)
    requires p <= q
    ensures 0 <= DirectProgress(total, p) <= DirectProgress(total, q) <= 95
  {
    DivMonotone(p * 100, q * 100, Max(1, total));
  }

  lemma FirstShare(total: nat)
    requires total > 0
    ensures DirectProgress(total, 1) >= 5 <==> total <= 20
  {
    if total <= 20 {
      DivMonotone(5 * total, 100, total);
      Exactly(total);
    }
  }

  lemma Exactly(total: nat)
    requires total > 0
    ensures 5 * total / total == 5
  {
  }

  lemma DirectRises(turns: seq<Turn>, i: nat)
    requires |turns| <= 20 || Completed(turns) == 0
    requires i < |Looped(false, |turns|, turns).progress|
    ensures var p := Looped(false, |turns|, turns).progress + [100]; p[i] <= p[i + 1]
  {
    DirectProgressIs(|turns|, turns);
    LoopEnds(false, turns);
    if turns != [] {
      FirstShare(|turns|);
    }
    DirectGrows(|turns|, i, i + 1);
  }

  /** The direct branch's progress falls back exactly when the group has more than 20 devices and one is processed. */
  lemma {:induction false} DirectFallsBackIff(turns: seq<Turn>)
    requires turns != []
    ensures FallsBack(Looped(false, |turns|, turns).progress + [100]) <==> |turns| > 20 && Completed(turns) > 0
  {
    var p := Looped(false, |turns|, turns).progress + [100];
    if |turns| > 20 && Completed(turns) > 0 {
      DirectProgressIs(|turns|, turns);
      LoopEnds(false, turns);
      FirstShare(|turns|);
      assert p[0] > p[1];
    } else {
      forall i | 0 <= i < |p| - 1
        ensures p[i] <= p[i + 1]
      {
        DirectRises(turns, i);
      }
    }
  }
}
