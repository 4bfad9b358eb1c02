/** The adaptive controller of a jump host's slot count (app/tasks/backups.py): streaks of successes raise
    it, streaks of saturation failures lower it, and a cooldown separates changes. The learned count
    lives in a hash that a reset does not touch. */
module AdaptiveSlots {
  import opened Basics

  /** Every slot count is kept within 1..16. */
  function Clamp(n: int): (r: int)
    ensures 1 <= r <= 16
  {
    Max(1, Min(16, n))
  }

  /** Thresholds and seconds as `_env_int` bounds them; `base` is the configured slot count and
      `overridden` an override for this host or the default one. */
  datatype Policy = Policy(
    base: int, overridden: Option<int>, boost: nat,
    successStreak: nat, failStreak: nat, severeFailStreak: nat, dropToOne: bool,
    cooldown: nat, severeCooldown: nat, streakTtl: nat)
  {
    predicate Valid() {
      && 5 <= successStreak <= 200 && 2 <= failStreak <= 20 && 1 <= severeFailStreak <= 10
      && boost <= 8 && 30 <= cooldown <= 3600 && 30 <= severeCooldown <= 7200 && 60 <= streakTtl <= 7200
    }
    /** The count in force before anything is learned. */
    function Configured(): int {
      Clamp(if overridden.Some? then overridden.value else Max(1, base))
    }
    /** How far successes can raise the count. */
    function AllowedMax(): int {
      Clamp(Max(1, base) + boost)
    }
    /** The shortest streak of saturation failures that can lower the count. */
    function DownStreak(): nat {
      if failStreak <= severeFailStreak then failStreak else severeFailStreak
    }
  }

  /** A Redis counter with an expiry. */
  datatype Counter = Counter(count: nat, expire: nat) {
    function Live(now: nat): nat {
      if now < expire then count else 0
    }
  }

  const NO_COUNTER := Counter(0, 0)

  /** The controller's Redis keys for one jump host. */
  datatype Keys = Keys(learned: Option<int>, fails: Counter, successes: Counter, cooldownExpire: nat)

  const NO_KEYS := Keys(None, NO_COUNTER, NO_COUNTER, 0)

  /** What is reported about one backup: success, or failure with the two verdicts on its message. */
  datatype Result = Success | Failure(saturation: bool, severe: bool)

  /** `_resolve_effective_jump_host_slots`. */
  function Effective(k: Keys, p: Policy): int {
    if k.learned.Some? then Clamp(k.learned.value) else p.Configured()
  }

  function AdaptStep(k: Keys, p: Policy, now: nat, r: Result): Keys {
    var current := Effective(k, p);
    if now < k.cooldownExpire then k
    else if r.Success? then
      var streak := k.successes.Live(now) + 1;
      var counted := k.(successes := Counter(streak, now + p.streakTtl * 1000), fails := NO_COUNTER);
      if streak >= p.successStreak && current < p.AllowedMax()
      then counted.(learned := Some(Min(p.AllowedMax(), current + 1)), successes := NO_COUNTER,
                    cooldownExpire := now + p.cooldown * 1000)
      else counted
    else if !r.saturation then k
    else
      var streak := k.fails.Live(now) + 1;
      var counted := k.(fails := Counter(streak, now + p.streakTtl * 1000), successes := NO_COUNTER);
      var severe := r.severe && streak >= p.severeFailStreak;
      if current > 1 && (streak >= p.failStreak || severe) then
        counted.(learned := Some(if !severe then Max(1, current - 1)
                                 else if p.dropToOne then 1
                                 else Max(1, current - 2)),
                 fails := NO_COUNTER,
                 cooldownExpire := now + (if severe then p.severeCooldown else p.cooldown) * 1000)
      else counted
  }

  /** A batch reset deletes the streaks and the cooldown; the learned count survives. */
  function ResetStep(k: Keys): Keys {
    k.(fails := NO_COUNTER, successes := NO_COUNTER, cooldownExpire := 0)
  }

  // ----- runs -----

  datatype Event = Tick(ms: nat) | Report(r: Result) | Reset

  /** One change of the count: when, which way, the cooldown it started, and whether a reset came
      between it and the change before. */
  datatype Change = Change(at: nat, up: bool, cooldownMs: nat, afterReset: bool)

  /** A state with what has been seen so far. */
  datatype World = World(now: nat, keys: Keys, successes: nat, saturations: nat, ups: nat, downs: nat,
                         changes: seq<Change>, resetSince: bool)

  const START := World(0, NO_KEYS, 0, 0, 0, 0, [], false)

  function Observe(w: World, p: Policy, r: Result): World {
    var k' := AdaptStep(w.keys, p, w.now, r);
    var before, after := Effective(w.keys, p), Effective(k', p);
    var seen := w.(keys := k',
                   successes := w.successes + (if r.Success? then 1 else 0),
                   saturations := w.saturations + (if r.Failure? && r.saturation then 1 else 0),
                   ups := w.ups + (if after > before then 1 else 0),
                   downs := w.downs + (if after < before then 1 else 0));
    if before == after then seen
    else
      var length: nat := if k'.cooldownExpire >= w.now then k'.cooldownExpire - w.now else 0;
      seen.(changes := w.changes + [Change(w.now, after > before, length, w.resetSince)], resetSince := false)
  }

  function Step(w: World, p: Policy, e: Event): World {
    match e
    case Tick(ms) => w.(now := w.now + ms)
    case Report(r) => Observe(w, p, r)
    case Reset => w.(keys := ResetStep(w.keys), resetSince := true)
  }

  function Run(p: Policy, events: seq<Event>): World {
    if events == [] then START
    else Step(Run(p, events[..|events| - 1]), p, events[|events| - 1])
  }

  // ----- what every run keeps -----

  predicate Bounded(k: Keys, p: Policy) {
    && (k.learned.Some? ==> 1 <= k.learned.value <= 16)
    && (k.learned.Some? ==> k.learned.value <= Max(p.Configured(), p.AllowedMax()))
    && (k.fails.count == 0 || k.successes.count == 0)
  }

  /** Successes pay for ups and saturation failures for downs, with the running streaks as change. */
  predicate Paid(w: World, p: Policy) {
    && w.ups * p.successStreak + w.keys.successes.count <= w.successes
    && w.downs * p.DownStreak() + w.keys.fails.count <= w.saturations
  }

  /** Consecutive changes with no reset between them are at least the first one's cooldown apart, and
      the cooldown key stands until the last one's is over. */
  predicate Spaced(w: World, p: Policy) {
    var n := |w.changes|;
    && (forall i :: 0 <= i < n ==> w.changes[i].cooldownMs in {p.cooldown * 1000, p.severeCooldown * 1000})
    && (forall i :: 0 < i < n && !w.changes[i].afterReset ==>
          w.changes[i].at >= w.changes[i - 1].at + w.changes[i - 1].cooldownMs)
    && (n > 0 && !w.resetSince ==> w.keys.cooldownExpire == w.changes[n - 1].at + w.changes[n - 1].cooldownMs)
  }

  lemma BoundedStep(k: Keys, p: Policy, now: nat, r: Result)
    requires Bounded(k, p)
    ensures Bounded(AdaptStep(k, p, now, r), p)
  {
  }

  /** What one report does to the count: it rises by one on a success, falls on a saturation failure,
      and never moves during a cooldown; a change clears its own streak, which had reached its threshold. */
  lemma OneReport(k: Keys, p: Policy, now: nat, r: Result)
    requires p.Valid() && Bounded(k, p)
    ensures var k' := AdaptStep(k, p, now, r);
            var before, after := Effective(k, p), Effective(k', p);
            && (after > before ==> r.Success? && after == before + 1 <= p.AllowedMax())
            && (after > before ==> k.successes.count + 1 >= p.successStreak && k'.successes.count == 0)
            && (after > before ==> k'.fails.count <= k.fails.count)
            && (after < before ==> r.Failure? && r.saturation)
            && (after < before ==> k.fails.count + 1 >= p.DownStreak() && k'.fails.count == 0)
            && (after < before ==> k'.successes.count <= k.successes.count)
            && (after == before ==> k'.successes.count <= k.successes.count + (if r.Success? then 1 else 0))
            && (after == before ==> k'.fails.count <= k.fails.count + (if r.Failure? && r.saturation then 1 else 0))
            && (after == before ==> k'.cooldownExpire == k.cooldownExpire)
            && (after != before ==> now >= k.cooldownExpire)
            && (after != before ==> k'.cooldownExpire - now in {p.cooldown * 1000, p.severeCooldown * 1000})
  {
  }

  lemma PaidStep(w: World, p: Policy, r: Result)
    requires p.Valid() && Bounded(w.keys, p) && Paid(w, p)
    ensures Paid(Observe(w, p, r), p)
  {
    OneReport(w.keys, p, w.now, r);
    OneMore(w.ups, p.successStreak);
    OneMore(w.downs, p.DownStreak());
  }

  lemma OneMore(n: nat, streak: nat)
    ensures (n + 1) * streak == n * streak + streak
  {
  }

  lemma SpacedStep(w: World, p: Policy, r: Result)
    requires p.Valid() && Bounded(w.keys, p) && Spaced(w, p)
    ensures Spaced(Observe(w, p, r), p)
  {
    OneReport(w.keys, p, w.now, r);
  }

  lemma {:induction false} EveryRun(p: Policy, events: seq<Event>)
    requires p.Valid()
    ensures var w := Run(p, events); Bounded(w.keys, p) && Paid(w, p) && Spaced(w, p)
  {
    if events != [] {
      var before, e := events[..|events| - 1], events[|events| - 1];
      EveryRun(p, before);
      var w := Run(p, before);
      if e.Report? {
        BoundedStep(w.keys, p, w.now, e.r);
        PaidStep(w, p, e.r);
        SpacedStep(w, p, e.r);
      }
    }
  }

  /** In every run the count in force is between 1 and 16, and above the configured one only as far as
      the boost allows; the two streaks are never both running. */
  lemma {:induction false} CountInBounds(p: Policy, events: seq<Event>)
    requires p.Valid()
    ensures var w := Run(p, events);
            && 1 <= Effective(w.keys, p) <= Min(16, Max(p.Configured(), p.AllowedMax()))
            && (w.keys.fails.Live(w.now) == 0 || w.keys.successes.Live(w.now) == 0)
  {
    EveryRun(p, events);
  }

  /** Every rise is paid for by a full streak of successes of its own, every fall by a streak of
      saturation failures of its own. */
  lemma {:induction false} ChangesArePaidFor(p: Policy, events: seq<Event>)
    requires p.Valid()
    ensures var w := Run(p, events);
            w.ups * p.successStreak <= w.successes && w.downs * p.DownStreak() <= w.saturations
  {
    EveryRun(p, events);
  }

  /** Two changes in a row lie at least a cooldown apart unless a reset came between them. */
  lemma {:induction false} ChangesAreSpaced(p: Policy, events: seq<Event>, i: nat)
    requires p.Valid() && 0 < i < |Run(p, events).changes|
    ensures var c := Run(p, events).changes;
            c[i].afterReset || c[i].at >= c[i - 1].at + Min(p.cooldown, p.severeCooldown) * 1000
  {
    EveryRun(p, events);
  }

  /** The count learned before a reset is still in force after it, though the reset clears the rest. */
  lemma ResetKeepsLearnedCount(p: Policy, events: seq<Event>)
    ensures var w := Run(p, events);
            var w' := Run(p, events + [Reset]);
            && Effective(w'.keys, p) == Effective(w.keys, p)
            && w'.keys.fails.Live(w'.now) == 0 && w'.keys.successes.Live(w'.now) == 0
            && w'.keys.cooldownExpire <= w'.now
  {
    assert (events + [Reset])[..|events|] == events;
  }

  const SATURATED := Report(Failure(true, false))

  /** `n` saturation failures in a row, at once. */
  function SaturatedTimes(n: nat): seq<Event> {
    if n == 0 then [] else SaturatedTimes(n - 1) + [SATURATED]
  }

  lemma {:induction false} FailStreakBuilds(p: Policy, n: nat)
    requires p.Valid() && n < p.failStreak
    ensures var w := Run(p, SaturatedTimes(n));
            && w.now == 0
            && w.keys == Keys(None, if n == 0 then NO_COUNTER else Counter(n, p.streakTtl * 1000), NO_COUNTER, 0)
  {
    if n > 0 {
      FailStreakBuilds(p, n - 1);
      assert SaturatedTimes(n)[..|SaturatedTimes(n - 1)|] == SaturatedTimes(n - 1);
    }
  }

  /** So a reduction is not cleared, whatever the policy: after as many saturation failures as lower the count, and a
      reset, the count is still below the configured one. */
  lemma ReductionSurvivesReset(p: Policy)
    requires p.Valid() && p.Configured() > 1
    ensures Effective(Run(p, SaturatedTimes(p.failStreak) + [Reset]).keys, p) == p.Configured() - 1
  {
    var events := SaturatedTimes(p.failStreak);
    FailStreakBuilds(p, p.failStreak - 1);
    assert events[..|SaturatedTimes(p.failStreak - 1)|] == SaturatedTimes(p.failStreak - 1);
    ResetKeepsLearnedCount(p, events);
  }
}
