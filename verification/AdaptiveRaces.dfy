/** The adaptive controller with its report split where it really is: a worker reads the count, then the cooldown,
    counts its result, and only later writes. Other workers may act in between. */
module AdaptiveRaces {
  import opened Basics
  import opened Folds
  import opened AdaptiveSlots

  /** How far a worker is with its report; `current` is the count it read. */
  datatype Stage = Resolved(current: int) | Allowed(current: int) | Counted(current: int, streak: nat)

  datatype Work = Work(result: Result, stage: Stage)

  /** One write of the learned count. */
  datatype Stamp = Stamp(at: nat, cooldownMs: nat, afterReset: bool)

  datatype Shared = Shared(now: nat, keys: Keys, busy: map<nat, Work>, changes: seq<Stamp>, resetSince: bool)

  const INITIAL := Shared(0, NO_KEYS, map[], [], false)

  datatype Act =
    | Pass(ms: nat)
    | Clear
    | Resolve(worker: nat, result: Result)
    | Check(worker: nat)
    | Count(worker: nat)
    | Write(worker: nat)

  /** The streak counter goes up and the other is deleted; nothing is counted of a failure without saturation. */
  function CountKeys(k: Keys, p: Policy, now: nat, r: Result): Keys {
    if r.Success? then
      k.(successes := Counter(k.successes.Live(now) + 1, now + p.streakTtl * 1000), fails := NO_COUNTER)
    else if r.saturation then
      k.(fails := Counter(k.fails.Live(now) + 1, now + p.streakTtl * 1000), successes := NO_COUNTER)
    else k
  }

  function StreakOf(k: Keys, r: Result): nat {
    if r.Success? then k.successes.count else k.fails.count
  }

  /** A severe streak of saturation failures. */
  predicate IsSevere(p: Policy, r: Result, streak: nat) {
    r.Failure? && r.severe && streak >= p.severeFailStreak
  }

  predicate Writes(p: Policy, r: Result, current: int, streak: nat) {
    if r.Success? then streak >= p.successStreak && current < p.AllowedMax()
    else r.saturation && current > 1 && (streak >= p.failStreak || IsSevere(p, r, streak))
  }

  function WrittenCount(p: Policy, r: Result, current: int, streak: nat): int {
    if r.Success? then Min(p.AllowedMax(), current + 1)
    else if !IsSevere(p, r, streak) then Max(1, current - 1)
    else if p.dropToOne then 1
    else Max(1, current - 2)
  }

  function CooldownMs(p: Policy, r: Result, streak: nat): nat {
    (if IsSevere(p, r, streak) then p.severeCooldown else p.cooldown) * 1000
  }

  function WriteKeys(k: Keys, p: Policy, now: nat, r: Result, current: int, streak: nat): Keys {
    var written := k.(learned := Some(WrittenCount(p, r, current, streak)),
                      cooldownExpire := now + CooldownMs(p, r, streak));
    if r.Success? then written.(successes := NO_COUNTER) else written.(fails := NO_COUNTER)
  }

  /** The worker's step writes the count. */
  predicate WritesNow(s: Shared, p: Policy, a: Act) {
    && a.Write? && a.worker in s.busy && s.busy[a.worker].stage.Counted?
    && var w := s.busy[a.worker]; Writes(p, w.result, w.stage.current, w.stage.streak)
  }

  function Do(s: Shared, p: Policy, a: Act): Shared {
    match a
    case Pass(ms) => s.(now := s.now + ms)
    case Clear => s.(keys := ResetStep(s.keys), resetSince := true)
    case Resolve(i, r) => s.(busy := s.busy[i := Work(r, Resolved(Effective(s.keys, p)))])
    case Check(i) =>
      if i in s.busy && s.busy[i].stage.Resolved? then
        if s.now < s.keys.cooldownExpire then s.(busy := s.busy - {i})
        else s.(busy := s.busy[i := s.busy[i].(stage := Allowed(s.busy[i].stage.current))])
      else s
    case Count(i) =>
      if i in s.busy && s.busy[i].stage.Allowed? then
        var w := s.busy[i];
        var keys := CountKeys(s.keys, p, s.now, w.result);
        s.(keys := keys, busy := s.busy[i := w.(stage := Counted(w.stage.current, StreakOf(keys, w.result)))])
      else s
    case Write(i) =>
      if i in s.busy && s.busy[i].stage.Counted? then
        var w := s.busy[i];
        var done := s.(busy := s.busy - {i});
        if !Writes(p, w.result, w.stage.current, w.stage.streak) then done
        else
          done.(keys := WriteKeys(s.keys, p, s.now, w.result, w.stage.current, w.stage.streak),
                changes := s.changes + [Stamp(s.now, CooldownMs(p, w.result, w.stage.streak), s.resetSince)],
                resetSince := false)
      else s
  }

  function DoStep(p: Policy): (Shared, Act) -> Shared {
    (s, a) => Do(s, p, a)
  }

  function DoAll(s: Shared, p: Policy, acts: seq<Act>): Shared {
    FoldLeft(DoStep(p), acts, s)
  }

  // ----- an undisturbed report is the atomic one -----

  function ReportBy(s: Shared, p: Policy, i: nat, r: Result): Shared {
    Do(Do(Do(Do(s, p, Resolve(i, r)), p, Check(i)), p, Count(i)), p, Write(i))
  }

  lemma StepsAreReport(k: Keys, p: Policy, now: nat, r: Result)
    requires now >= k.cooldownExpire
    ensures var counted, current := CountKeys(k, p, now, r), Effective(k, p);
            var streak := StreakOf(counted, r);
            AdaptStep(k, p, now, r) ==
              if Writes(p, r, current, streak) then WriteKeys(counted, p, now, r, current, streak) else counted
  {
  }

  /** With nobody in between, the four steps of a worker are one report of the atomic controller. */
  lemma UndisturbedReport(s: Shared, p: Policy, i: nat, r: Result)
    ensures ReportBy(s, p, i, r).keys == AdaptStep(s.keys, p, s.now, r) && ReportBy(s, p, i, r).now == s.now
  {
    var resolved := Do(s, p, Resolve(i, r));
    assert resolved.busy[i] == Work(r, Resolved(Effective(s.keys, p)));
    if s.now < s.keys.cooldownExpire {
      assert i !in Do(resolved, p, Check(i)).busy;
    } else {
      var allowed := Do(resolved, p, Check(i));
      assert allowed.busy[i] == Work(r, Allowed(Effective(s.keys, p)));
      StepsAreReport(s.keys, p, s.now, r);
    }
  }

  // ----- what survives every interleaving -----

  predicate GoodCount(p: Policy, n: int) {
    1 <= n <= Min(16, Max(p.Configured(), p.AllowedMax()))
  }

  predicate Sound(s: Shared, p: Policy) {
    && (s.keys.learned.Some? ==> GoodCount(p, s.keys.learned.value))
    && (s.keys.fails.count == 0 || s.keys.successes.count == 0)
    && forall i :: i in s.busy ==> GoodCount(p, s.busy[i].stage.current)
  }

  lemma EffectiveIsGood(k: Keys, p: Policy)
    requires k.learned.Some? ==> GoodCount(p, k.learned.value)
    ensures GoodCount(p, Effective(k, p))
  {
  }

  lemma WrittenIsGood(p: Policy, r: Result, current: int, streak: nat)
    requires GoodCount(p, current) && Writes(p, r, current, streak)
    ensures GoodCount(p, WrittenCount(p, r, current, streak))
  {
  }

  lemma SoundStep(s: Shared, p: Policy, a: Act)
    requires Sound(s, p)
    ensures Sound(Do(s, p, a), p)
  {
    EffectiveIsGood(s.keys, p);
    if WritesNow(s, p, a) {
      var w := s.busy[a.worker];
      WrittenIsGood(p, w.result, w.stage.current, w.stage.streak);
    }
  }

  lemma {:induction false} AlwaysSound(p: Policy, acts: seq<Act>)
    ensures Sound(DoAll(INITIAL, p, acts), p)
  {
    if acts != [] {
      AlwaysSound(p, acts[..|acts| - 1]);
      SoundStep(DoAll(INITIAL, p, acts[..|acts| - 1]), p, acts[|acts| - 1]);
    }
  }

  /** However reports, resets and expiries interleave, the count in force is between 1 and 16 and above the configured
      one only as far as the boost allows, and the two streaks are never both running. */
  lemma BoundsSurvive(p: Policy, acts: seq<Act>)
    ensures var s := DoAll(INITIAL, p, acts);
            && 1 <= Effective(s.keys, p) <= Min(16, Max(p.Configured(), p.AllowedMax()))
            && (s.keys.fails.Live(s.now) == 0 || s.keys.successes.Live(s.now) == 0)
  {
    AlwaysSound(p, acts);
    EffectiveIsGood(DoAll(INITIAL, p, acts).keys, p);
  }

  // ----- when the cooldown is kept -----

  /** A worker writes although a cooldown is running: it started after the worker looked. */
  predicate Late(s: Shared, p: Policy, a: Act) {
    WritesNow(s, p, a) && s.now < s.keys.cooldownExpire
  }

  /** Writes in a row are a cooldown apart unless a reset came between them. */
  predicate Spaced(changes: seq<Stamp>) {
    forall i :: 0 < i < |changes| && !changes[i].afterReset ==>
      changes[i].at >= changes[i - 1].at + changes[i - 1].cooldownMs
  }

  /** The cooldown key stands for the last write, or for nothing. */
  predicate KeyFits(s: Shared) {
    var n := |s.changes|;
    s.keys.cooldownExpire == if n == 0 || s.resetSince then 0 else s.changes[n - 1].at + s.changes[n - 1].cooldownMs
  }

  lemma KeyFitsStep(s: Shared, p: Policy, a: Act)
    requires KeyFits(s)
    ensures KeyFits(Do(s, p, a))
  {
  }

  lemma {:induction false} KeyAlwaysFits(p: Policy, acts: seq<Act>)
    ensures KeyFits(DoAll(INITIAL, p, acts))
  {
    if acts != [] {
      KeyAlwaysFits(p, acts[..|acts| - 1]);
      KeyFitsStep(DoAll(INITIAL, p, acts[..|acts| - 1]), p, acts[|acts| - 1]);
    }
  }

  lemma SpacedSnoc(changes: seq<Stamp>, c: Stamp)
    ensures Spaced(changes + [c]) <==>
              Spaced(changes) &&
              (changes != [] && !c.afterReset ==>
                c.at >= changes[|changes| - 1].at + changes[|changes| - 1].cooldownMs)
  {
    var more := changes + [c];
    assert forall i :: 0 <= i < |changes| ==> more[i] == changes[i];
    if Spaced(more) && changes != [] {
      assert more[|changes|] == c;
    }
  }

  lemma SpacedStepIff(s: Shared, p: Policy, a: Act)
    requires KeyFits(s)
    ensures Spaced(Do(s, p, a).changes) <==> Spaced(s.changes) && !Late(s, p, a)
  {
    if WritesNow(s, p, a) {
      var w := s.busy[a.worker];
      SpacedSnoc(s.changes, Stamp(s.now, CooldownMs(p, w.result, w.stage.streak), s.resetSince));
    }
  }

  /** The writes of a run are spaced by the cooldown if and only if no worker writes while a cooldown is running. */
  lemma {:induction false} SpacedIff(p: Policy, acts: seq<Act>, n: nat)
    requires n <= |acts|
    ensures Spaced(DoAll(INITIAL, p, acts[..n]).changes) <==>
              forall k :: 0 <= k < n ==> !Late(DoAll(INITIAL, p, acts[..k]), p, acts[k])
  {
    if n > 0 {
      SpacedIff(p, acts, n - 1);
      KeyAlwaysFits(p, acts[..n - 1]);
      assert acts[..n][..n - 1] == acts[..n - 1];
      SpacedStepIff(DoAll(INITIAL, p, acts[..n - 1]), p, acts[n - 1]);
    }
  }

  // ----- two changes at once -----

  const PLAIN := Failure(true, false)
  const SEVERE := Failure(true, true)

  /** Two workers report saturation failures step by step together, the second a severe one. */
  function Together(s: Shared, p: Policy): Shared {
    DoAll(s, p, [Resolve(0, PLAIN), Resolve(1, SEVERE), Check(0), Check(1), Count(0), Count(1), Write(0), Write(1)])
  }

  /** One failure short of a reduction, with no cooldown and a count above 2. */
  predicate OnTheEdge(s: Shared, p: Policy) {
    && s.keys.fails.Live(s.now) == p.failStreak - 1 && s.now >= s.keys.cooldownExpire
    && Effective(s.keys, p) > 2
  }

  /** Both workers at these stages. */
  function Both(s: Shared, first: Stage, second: Stage): Shared {
    s.(busy := s.busy[0 := Work(PLAIN, first)][1 := Work(SEVERE, second)])
  }

  function BothCounted(s: Shared, p: Policy): Shared {
    var current, n := Effective(s.keys, p), s.keys.fails.Live(s.now);
    Both(s.(keys := CountKeys(CountKeys(s.keys, p, s.now, PLAIN), p, s.now, SEVERE)),
         Counted(current, n + 1), Counted(current, n + 2))
  }

  lemma ResolveBoth(s: Shared, p: Policy)
    ensures var current := Effective(s.keys, p);
            Do(Do(s, p, Resolve(0, PLAIN)), p, Resolve(1, SEVERE)) == Both(s, Resolved(current), Resolved(current))
  {
  }

  lemma CheckBoth(s: Shared, p: Policy, current: int)
    requires s.now >= s.keys.cooldownExpire
    ensures Do(Do(Both(s, Resolved(current), Resolved(current)), p, Check(0)), p, Check(1))
         == Both(s, Allowed(current), Allowed(current))
  {
    var one := Do(Both(s, Resolved(current), Resolved(current)), p, Check(0));
    assert one.busy == Both(s, Allowed(current), Resolved(current)).busy;
    assert Do(one, p, Check(1)).busy == Both(s, Allowed(current), Allowed(current)).busy;
  }

  lemma CountBoth(s: Shared, p: Policy)
    requires p.Valid()
    ensures var current := Effective(s.keys, p);
            Do(Do(Both(s, Allowed(current), Allowed(current)), p, Count(0)), p, Count(1)) == BothCounted(s, p)
  {
    var current, n := Effective(s.keys, p), s.keys.fails.Live(s.now);
    var one := Do(Both(s, Allowed(current), Allowed(current)), p, Count(0));
    assert one.busy == Both(s, Counted(current, n + 1), Allowed(current)).busy;
    assert Do(one, p, Count(1)).busy == BothCounted(s, p).busy;
  }

  lemma CountTogether(s: Shared, p: Policy)
    requires s.now >= s.keys.cooldownExpire && p.Valid()
    ensures var resolved := Do(Do(s, p, Resolve(0, PLAIN)), p, Resolve(1, SEVERE));
            Do(Do(Do(Do(resolved, p, Check(0)), p, Check(1)), p, Count(0)), p, Count(1)) == BothCounted(s, p)
  {
    ResolveBoth(s, p);
    CheckBoth(s, p, Effective(s.keys, p));
    CountBoth(s, p);
  }

  lemma TogetherIs(s: Shared, p: Policy)
    requires s.now >= s.keys.cooldownExpire && p.Valid()
    ensures Together(s, p) == Do(Do(BothCounted(s, p), p, Write(0)), p, Write(1))
  {
    var half := [Resolve(0, PLAIN), Resolve(1, SEVERE), Check(0), Check(1)];
    CountTogether(s, p);
    FoldFour(DoStep(p), [], Resolve(0, PLAIN), Resolve(1, SEVERE), Check(0), Check(1), s);
    FoldFour(DoStep(p), half, Count(0), Count(1), Write(0), Write(1), s);
    assert [] + half == half;
    assert half + [Count(0), Count(1), Write(0), Write(1)] ==
           [Resolve(0, PLAIN), Resolve(1, SEVERE), Check(0), Check(1), Count(0), Count(1), Write(0), Write(1)];
  }

  lemma FirstWrite(s: Shared, p: Policy)
    requires p.Valid() && OnTheEdge(s, p)
    ensures var first, current := Do(BothCounted(s, p), p, Write(0)), Effective(s.keys, p);
            && first.now == s.now && first.keys.learned == Some(current - 1) && !first.resetSince
            && first.keys.cooldownExpire == s.now + p.cooldown * 1000
            && first.changes == s.changes + [Stamp(s.now, p.cooldown * 1000, s.resetSince)]
            && 1 in first.busy && first.busy[1] == Work(SEVERE, Counted(current, p.failStreak + 1))
            && current <= 16
  {
  }

  lemma SecondWrite(s: Shared, p: Policy, current: int)
    requires p.Valid() && 2 < current <= 16 && p.severeFailStreak <= p.failStreak + 1
    requires 1 in s.busy && s.busy[1] == Work(SEVERE, Counted(current, p.failStreak + 1))
    ensures var end := Do(s, p, Write(1));
            && end.now == s.now && Effective(end.keys, p) < current - 1
            && end.changes == s.changes + [Stamp(s.now, p.severeCooldown * 1000, s.resetSince)]
  {
  }

  lemma NotSpaced(changes: seq<Stamp>, a: Stamp, b: Stamp)
    requires !b.afterReset && b.at < a.at + a.cooldownMs
    ensures !Spaced(changes + [a] + [b])
  {
    var all := changes + [a] + [b];
    assert all[|changes|] == a && all[|changes| + 1] == b;
  }

  /** From any state on the edge, with a severe streak no longer than the plain one and one more: both workers write
      at the same instant. The first lowers the count by one; the second, in the first's cooldown, goes on below
      that. */
  lemma TwoChangesAtOnce(s: Shared, p: Policy)
    requires p.Valid() && OnTheEdge(s, p) && p.severeFailStreak <= p.failStreak + 1
    ensures var first, end := Do(BothCounted(s, p), p, Write(0)), Together(s, p);
            && Effective(first.keys, p) == Effective(s.keys, p) - 1 && s.now < first.keys.cooldownExpire
            && Effective(end.keys, p) < Effective(first.keys, p) && end.now == s.now
            && |end.changes| == |s.changes| + 2 && !Spaced(end.changes)
  {
    TogetherIs(s, p);
    FirstWrite(s, p);
    var first := Do(BothCounted(s, p), p, Write(0));
    SecondWrite(first, p, Effective(s.keys, p));
    NotSpaced(s.changes, Stamp(s.now, p.cooldown * 1000, s.resetSince), Stamp(s.now, p.severeCooldown * 1000, false));
  }

  // ----- and the edge is reached -----

  function Times<S>(step: S -> S, s: S, n: nat): S {
    if n == 0 then s else step(Times(step, s, n - 1))
  }

  /** `n` saturation failures, reported one after the other. */
  function ReportTimes(p: Policy, n: nat): Shared {
    Times((s: Shared) => ReportBy(s, p, 0, PLAIN), INITIAL, n)
  }

  /** The keys after `n` saturation failures in a row. */
  function StreakKeys(p: Policy, n: nat): Keys {
    Keys(None, if n == 0 then NO_COUNTER else Counter(n, p.streakTtl * 1000), NO_COUNTER, 0)
  }

  lemma OneMoreFailure(s: Shared, p: Policy, n: nat)
    requires p.Valid() && n + 1 < p.failStreak && s.now == 0 && s.keys == StreakKeys(p, n)
    ensures ReportBy(s, p, 0, PLAIN).now == 0 && ReportBy(s, p, 0, PLAIN).keys == StreakKeys(p, n + 1)
  {
    UndisturbedReport(s, p, 0, PLAIN);
  }

  lemma {:induction false} StreakBuilds(step: Shared -> Shared, p: Policy, n: nat)
    requires n < p.failStreak
    requires forall s: Shared, m: nat :: m + 1 < p.failStreak && s.now == 0 && s.keys == StreakKeys(p, m) ==>
               step(s).now == 0 && step(s).keys == StreakKeys(p, m + 1)
    ensures Times(step, INITIAL, n).now == 0 && Times(step, INITIAL, n).keys == StreakKeys(p, n)
  {
    if n > 0 {
      StreakBuilds(step, p, n - 1);
    }
  }

  lemma EdgeReached(p: Policy, n: nat)
    requires p.Valid() && n < p.failStreak
    ensures ReportTimes(p, n).now == 0 && ReportTimes(p, n).keys == StreakKeys(p, n)
  {
    var step := (s: Shared) => ReportBy(s, p, 0, PLAIN);
    forall s: Shared, m: nat | m + 1 < p.failStreak && s.now == 0 && s.keys == StreakKeys(p, m)
      ensures step(s).now == 0 && step(s).keys == StreakKeys(p, m + 1)
    {
      OneMoreFailure(s, p, m);
    }
    StreakBuilds(step, p, n);
  }

  lemma EdgeKeys(s: Shared, p: Policy)
    requires p.Valid() && p.Configured() > 2 && s.now == 0
    requires s.keys == StreakKeys(p, p.failStreak - 1)
    ensures OnTheEdge(s, p)
  {
  }

  lemma NotKeptFrom(s: Shared, p: Policy)
    requires p.Valid() && p.Configured() > 2 && s.now == 0 && p.severeFailStreak <= p.failStreak + 1
    requires s.keys == StreakKeys(p, p.failStreak - 1)
    ensures !Spaced(Together(s, p).changes)
  {
    EdgeKeys(s, p);
    TwoChangesAtOnce(s, p);
  }

  /** So it happens in a run from the start, for every policy that starts above 2 and counts severe failures fast. */
  lemma CooldownIsNotKept(p: Policy)
    requires p.Valid() && p.Configured() > 2 && p.severeFailStreak <= p.failStreak + 1
    ensures !Spaced(Together(ReportTimes(p, p.failStreak - 1), p).changes)
  {
    EdgeReached(p, p.failStreak - 1);
    NotKeptFrom(ReportTimes(p, p.failStreak - 1), p);
  }
}
