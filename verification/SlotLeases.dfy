/** Leased concurrency slots of one jump host (app/tasks/backups.py): workers share numbered locks in Redis,
    each with a token and an expiry. Every interleaving of waiting, acquiring, releasing, expiring and
    changing the slot count is a run of this machine. */
module SlotLeases {

  /** A lock in Redis: who set it, and until when it stands. */
  datatype Lease = Lease(token: nat, expire: nat)

  /** A task's progress through the lock context. `limit` is the slot count it read on entry. A task that
      found itself the owner is `Releasing` until its delete is carried out. */
  datatype Task =
    | Idle
    | Waiting(limit: nat)
    | Holding(limit: nat, slot: nat, token: nat, until: nat)
    | Releasing(limit: nat, slot: nat, token: nat, until: nat)
    | Done
  {
    predicate Holds() {
      Holding? || Releasing?
    }
  }

  /** Redis, the tasks, and the slot count now in force. */
  datatype Cluster = Cluster(now: nat, leases: map<nat, Lease>, tasks: map<nat, Task>, nextToken: nat,
                             count: nat, ttl: nat)

  predicate LiveAt(leases: map<nat, Lease>, slot: nat, now: nat) {
    slot in leases && now < leases[slot].expire
  }

  function TaskOf(c: Cluster, w: nat): Task {
    if w in c.tasks then c.tasks[w] else Idle
  }

  /** Whether the slot's live lock carries the token: `owned()`, and the guard of the release script. */
  predicate Owned(leases: map<nat, Lease>, slot: nat, token: nat, now: nat) {
    LiveAt(leases, slot, now) && leases[slot].token == token
  }

  datatype Event =
    | Tick(ms: nat)
    | SetCount(n: nat)
    | Enter(task: nat)
    | TryAcquire(task: nat, slot: nat)
    | GiveUp(task: nat)
    | CheckOwned(task: nat)
    | Release(task: nat)

  function Step(c: Cluster, e: Event): Cluster {
    match e
    case Tick(ms) => c.(now := c.now + ms)
    case SetCount(n) => if 1 <= n <= 16 then c.(count := n) else c
    case Enter(w) =>
      if TaskOf(c, w).Idle? then c.(tasks := c.tasks[w := Waiting(c.count)]) else c
    case TryAcquire(w, slot) =>
      var t := TaskOf(c, w);
      if t.Waiting? && slot < t.limit && !LiveAt(c.leases, slot, c.now) then
        c.(leases := c.leases[slot := Lease(c.nextToken, c.now + c.ttl)],
           tasks := c.tasks[w := Holding(t.limit, slot, c.nextToken, c.now + c.ttl)],
           nextToken := c.nextToken + 1)
      else c
    case GiveUp(w) => if TaskOf(c, w).Waiting? then c.(tasks := c.tasks[w := Done]) else c
    case CheckOwned(w) =>
      var t := TaskOf(c, w);
      if !t.Holding? then c
      else if Owned(c.leases, t.slot, t.token, c.now)
      then c.(tasks := c.tasks[w := Releasing(t.limit, t.slot, t.token, t.until)])
      else c.(tasks := c.tasks[w := Done])
    case Release(w) =>
      var t := TaskOf(c, w);
      if !t.Releasing? then c
      else
        c.(leases := if Owned(c.leases, t.slot, t.token, c.now) then c.leases - {t.slot} else c.leases,
           tasks := c.tasks[w := Done])
  }

  function Start(count: nat, ttl: nat): Cluster {
    Cluster(0, map[], map[], 0, count, ttl)
  }

  function Run(count: nat, ttl: nat, events: seq<Event>): Cluster {
    if events == [] then Start(count, ttl)
    else Step(Run(count, ttl, events[..|events| - 1]), events[|events| - 1])
  }

  // ----- the invariant -----

  ghost predicate TokensFresh(c: Cluster) {
    && (forall w :: w in c.tasks && c.tasks[w].Holds() ==> c.tasks[w].token < c.nextToken)
    && (forall s :: s in c.leases ==> c.leases[s].token < c.nextToken)
    && (forall v, w :: v in c.tasks && w in c.tasks && v != w && c.tasks[v].Holds() && c.tasks[w].Holds() ==>
          c.tasks[v].token != c.tasks[w].token)
  }

  /** A task whose lease has not run out by its own reckoning is the one Redis names. */
  ghost predicate HoldersRecorded(c: Cluster) {
    forall w :: w in c.tasks && c.tasks[w].Holds() && c.now < c.tasks[w].until ==>
      var t := c.tasks[w]; t.slot in c.leases && c.leases[t.slot] == Lease(t.token, t.until)
  }

  /** Every live lock belongs to a task that holds it and whose limit covers it. */
  ghost predicate LeasesOwned(c: Cluster) {
    forall s :: s in c.leases && c.now < c.leases[s].expire ==> exists w :: HoldsLease(c, w, s)
  }

  predicate HoldsLease(c: Cluster, w: nat, s: nat) {
    && w in c.tasks && c.tasks[w].Holds() && s in c.leases
    && c.tasks[w].slot == s && c.tasks[w].token == c.leases[s].token && c.tasks[w].until == c.leases[s].expire
  }

  ghost predicate LimitsBound(c: Cluster) {
    && 1 <= c.count <= 16
    && (forall w :: w in c.tasks && c.tasks[w].Waiting? ==> c.tasks[w].limit <= 16)
    && (forall w :: w in c.tasks && c.tasks[w].Holds() ==> c.tasks[w].slot < c.tasks[w].limit <= 16)
  }

  ghost predicate Inv(c: Cluster) {
    TokensFresh(c) && HoldersRecorded(c) && LeasesOwned(c) && LimitsBound(c)
  }

  lemma LeasesOwnedStep(c: Cluster, e: Event)
    requires Inv(c)
    ensures LeasesOwned(Step(c, e))
  {
    var c' := Step(c, e);
    forall s | s in c'.leases && c'.now < c'.leases[s].expire
      ensures exists w :: HoldsLease(c', w, s)
    {
      if e.TryAcquire? && c' != c && s == e.slot {
        assert HoldsLease(c', e.task, s);
      } else {
        assert s in c.leases && c.now < c.leases[s].expire;
        var w :| HoldsLease(c, w, s);
        assert HoldsLease(c', w, s);
      }
    }
  }

  lemma TokensFreshStep(c: Cluster, e: Event)
    requires Inv(c)
    ensures TokensFresh(Step(c, e))
  {
  }

  lemma HoldersRecordedStep(c: Cluster, e: Event)
    requires Inv(c)
    ensures HoldersRecorded(Step(c, e))
  {
  }

  lemma LimitsBoundStep(c: Cluster, e: Event)
    requires Inv(c)
    ensures LimitsBound(Step(c, e))
  {
  }

  lemma {:induction false} InvAlways(count: nat, ttl: nat, events: seq<Event>)
    requires 1 <= count <= 16
    ensures Inv(Run(count, ttl, events))
  {
    if events != [] {
      var c, e := Run(count, ttl, events[..|events| - 1]), events[|events| - 1];
      InvAlways(count, ttl, events[..|events| - 1]);
      TokensFreshStep(c, e);
      HoldersRecordedStep(c, e);
      LeasesOwnedStep(c, e);
      LimitsBoundStep(c, e);
    }
  }

  // ----- what holds in every run -----

  /** A task that holds a slot and whose lease has not expired. */
  predicate Occupies(c: Cluster, w: nat) {
    w in c.tasks && c.tasks[w].Holds() && c.now < c.tasks[w].until
  }

  /** No slot ever has two tasks with unexpired leases. */
  lemma MutualExclusion(count: nat, ttl: nat, events: seq<Event>, v: nat, w: nat)
    requires 1 <= count <= 16
    requires var c := Run(count, ttl, events);
             Occupies(c, v) && Occupies(c, w) && c.tasks[v].slot == c.tasks[w].slot
    ensures v == w
  {
    InvAlways(count, ttl, events);
  }

  /** No step of any task, its release included, takes an unexpired lease from another task. */
  lemma LeasesAreNotTaken(count: nat, ttl: nat, events: seq<Event>, e: Event, v: nat)
    requires 1 <= count <= 16
    requires Occupies(Run(count, ttl, events), v)
    requires e != Release(v)
    ensures var c := Run(count, ttl, events);
            var c' := Step(c, e);
            var t := c.tasks[v];
            t.slot in c'.leases && c'.leases[t.slot] == Lease(t.token, t.until)
  {
    InvAlways(count, ttl, events);
  }

  function Occupied(c: Cluster): set<nat> {
    set s | s in c.leases && c.now < c.leases[s].expire
  }

  /** At any time some current holder read a slot count that covers every unexpired lease on the host;
      so the leases never exceed the largest count read by a current holder, nor 16. */
  lemma LeasesWithinLimits(count: nat, ttl: nat, events: seq<Event>)
    requires 1 <= count <= 16
    ensures var c := Run(count, ttl, events);
            Occupied(c) != {} ==>
              exists w :: Occupies(c, w) && |Occupied(c)| <= c.tasks[w].limit <= 16
  {
    var c := Run(count, ttl, events);
    InvAlways(count, ttl, events);
    if Occupied(c) != {} {
      var top := Largest(Occupied(c));
      var w :| HoldsLease(c, w, top);
      SizeUpTo(Occupied(c), top + 1);
      assert Occupies(c, w);
    }
  }

  lemma {:induction false} Largest(s: set<nat>) returns (top: nat)
    requires s != {}
    ensures top in s && forall x :: x in s ==> x <= top
    decreases s
  {
    var first :| first in s;
    top := first;
    if s != {first} {
      var other := Largest(s - {first});
      top := if other > first then other else first;
      assert forall x :: x in s ==> x == first || x in s - {first};
    }
  }

  lemma {:induction false} SizeUpTo(s: set<nat>, n: nat)
    requires forall x :: x in s ==> x < n
    ensures |s| <= n
  {
    if n > 0 {
      SizeUpTo(s - {n - 1}, n - 1);
    }
  }

  // ----- the lock context as a program -----

  /** The task an event belongs to; a tick or a new slot count belongs to none. */
  predicate ActsFor(e: Event, w: nat) {
    match e
    case Tick(_) => false
    case SetCount(_) => false
    case Enter(v) => v == w
    case TryAcquire(v, _) => v == w
    case GiveUp(v) => v == w
    case CheckOwned(v) => v == w
    case Release(v) => v == w
  }

  lemma InvStep(c: Cluster, e: Event)
    requires Inv(c)
    ensures Inv(Step(c, e))
  {
    TokensFreshStep(c, e);
    HoldersRecordedStep(c, e);
    LeasesOwnedStep(c, e);
    LimitsBoundStep(c, e);
  }

  datatype WaitResult = Acquired(slot: nat) | Cancelled | TimedOut

  /** The cluster as one task, `me`, drives it. Between any two of its own steps the other tasks may take
      any number of theirs. */
  class Worker {
    var c: Cluster
    const me: nat

    constructor (c: Cluster, me: nat)
      requires Inv(c)
      ensures this.c == c && this.me == me
    {
      this.c, this.me := c, me;
    }

    ghost predicate Valid()
      reads this
    {
      Inv(c)
    }

    method Take(e: Event)
      requires Valid()
      modifies this`c
      ensures Valid() && c == Step(old(c), e) && c.now >= old(c.now)
      ensures !ActsFor(e, me) ==> TaskOf(c, me) == old(TaskOf(c, me))
    {
      InvStep(c, e);
      c := Step(c, e);
    }

    /** Any steps of other tasks, and then at least `ms` milliseconds. */
    method Others(ms: nat)
      requires Valid()
      modifies this`c
      ensures Valid() && TaskOf(c, me) == old(TaskOf(c, me)) && c.now >= old(c.now) + ms
    {
      var events: seq<Event> := *;
      for i := 0 to |events|
        invariant Valid() && TaskOf(c, me) == old(TaskOf(c, me)) && c.now >= old(c.now)
      {
        if !ActsFor(events[i], me) {
          Take(events[i]);
        }
      }
      Take(Tick(ms));
    }

    /** `_should_stop_now`: the flags it reads are outside the model. */
    method ShouldStop() returns (stop: bool)
    {
      stop := *;
    }

    /** `_sleep_with_stop_poll`: naps of at most a second; unless stopped, the delay has passed. */
    method SleepWithStopPoll(delayMs: nat) returns (stopped: bool)
      requires Valid()
      modifies this`c
      ensures Valid() && TaskOf(c, me) == old(TaskOf(c, me)) && c.now >= old(c.now)
      ensures !stopped ==> c.now >= old(c.now) + delayMs
    {
      var remaining := delayMs;
      while remaining > 0
        invariant Valid() && TaskOf(c, me) == old(TaskOf(c, me))
        invariant remaining <= delayMs && c.now >= old(c.now) + (delayMs - remaining)
        decreases remaining
      {
        var stop := ShouldStop();
        if stop { return true; }
        var nap := if remaining < 1000 then remaining else 1000;
        Others(nap);
        remaining := remaining - nap;
      }
      stopped := ShouldStop();
    }

    /** One pass over the slots, lowest first, with other tasks between the attempts. */
    method TrySlots() returns (taken: bool, slot: nat, ghost before: Cluster)
      requires Valid() && TaskOf(c, me).Waiting?
      modifies this`c
      ensures Valid() && c.now >= old(c.now)
      ensures !taken ==> TaskOf(c, me) == old(TaskOf(c, me))
      ensures taken ==> !LiveAt(before.leases, slot, before.now) && c == Step(before, TryAcquire(me, slot))
      ensures taken ==> TaskOf(before, me) == old(TaskOf(c, me)) && slot < TaskOf(before, me).limit
    {
      taken, slot, before := false, 0, c;
      var limit := TaskOf(c, me).limit;
      while slot < limit
        invariant slot <= limit && Valid() && TaskOf(c, me) == old(TaskOf(c, me)) && c.now >= old(c.now)
      {
        before := c;
        taken := !LiveAt(c.leases, slot, c.now);
        Take(TryAcquire(me, slot));
        if taken { return; }
        Others(0);
        slot := slot + 1;
      }
    }

    /** The waiting loop of `_jump_host_lock_context`. It ends in one of three ways: holding a slot below
        the count it read, which was free when taken; cancelled; or with the whole wait used up. What is
        left of the wait is the measure. */
    method WaitForSlot(waitMs: nat) returns (result: WaitResult, ghost before: Cluster)
      requires Valid() && TaskOf(c, me).Idle?
      modifies this`c
      ensures Valid() && c.now >= old(c.now)
      ensures result.Acquired? ==>
                && TaskOf(before, me) == Waiting(old(c.count)) && result.slot < old(c.count)
                && !LiveAt(before.leases, result.slot, before.now)
                && c == Step(before, TryAcquire(me, result.slot)) && TaskOf(c, me).Holding?
      ensures !result.Acquired? ==> TaskOf(c, me).Done?
      ensures result.TimedOut? ==> c.now - old(c.now) >= waitMs
    {
      var started := c.now;
      Take(Enter(me));
      before := c;
      while true
        invariant Valid() && TaskOf(c, me) == Waiting(old(c.count)) && c.now >= started
        decreases if c.now - started < waitMs then waitMs - (c.now - started) else 0
      {
        var stop := ShouldStop();
        if stop {
          Take(GiveUp(me));
          return Cancelled, before;
        }
        if c.now - started >= waitMs {
          Take(GiveUp(me));
          return TimedOut, before;
        }
        var taken, slot;
        taken, slot, before := TrySlots();
        if taken {
          return Acquired(slot), before;
        }
        var stopped := SleepWithStopPoll(1000);
        if stopped {
          Take(GiveUp(me));
          return Cancelled, before;
        }
      }
    }

    /** The `finally`: the task asks whether it still owns its lock and, if so, releases it. */
    method LeaveSlot()
      requires Valid() && TaskOf(c, me).Holding?
      modifies this`c
      ensures Valid() && TaskOf(c, me).Done?
    {
      Take(CheckOwned(me));
      if TaskOf(c, me).Releasing? {
        Others(0);
        Take(Release(me));
      }
    }
  }
}
