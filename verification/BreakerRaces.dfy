/** The circuit breaker with its check split where it really is: a worker reads the list, and only later
    deletes it and writes back what it found inside the window. Other workers may act in between. */
module BreakerRaces {
  import opened CircuitBreaker

  /** What a worker read, when, after how many resets, and how many outcomes had been recorded since the last. */
  datatype Snapshot = Snapshot(entries: seq<Outcome>, at: nat, epoch: nat, seen: nat)

  /** The list, the reads whose rewrite is pending, every outcome ever recorded, the number of resets, and the outcomes
      recorded since the last reset. */
  datatype Shared = Shared(now: nat, list: seq<Outcome>, pending: map<nat, Snapshot>, recorded: seq<Outcome>,
                           epoch: nat, history: seq<Outcome>)

  const INITIAL := Shared(0, [], map[], [], 0, [])

  datatype Act = Pass(ms: nat) | Append(success: bool) | Clear | Expire | Read(worker: nat) | Rewrite(worker: nat)

  function Do(s: Shared, cfg: Config, a: Act): Shared {
    match a
    case Pass(ms) => s.(now := s.now + ms)
    case Append(success) =>
      var o := Outcome(success, s.now);
      s.(list := s.list + [o], recorded := s.recorded + [o], history := s.history + [o])
    case Clear => s.(list := [], epoch := s.epoch + 1, history := [])
    case Expire => s.(list := [])
    case Read(w) => s.(pending := s.pending[w := Snapshot(s.list, s.now, s.epoch, |s.history|)])
    case Rewrite(w) =>
      if w !in s.pending then s
      else
        var p := s.pending[w];
        var valid := InWindow(p.entries, cfg, p.at);
        s.(list := if |valid| < |p.entries| then valid else s.list, pending := s.pending - {w})
  }

  function DoAll(s: Shared, cfg: Config, acts: seq<Act>): Shared {
    if acts == [] then s else Do(DoAll(s, cfg, acts[..|acts| - 1]), cfg, acts[|acts| - 1])
  }

  /** `a` is `b` with some elements left out. */
  predicate Subsequence(a: seq<Outcome>, b: seq<Outcome>) {
    if a == [] then true
    else if b == [] then false
    else
      var a', b' := a[..|a| - 1], b[..|b| - 1];
      (a[|a| - 1] == b[|b| - 1] && Subsequence(a', b')) || Subsequence(a, b')
  }

  lemma SubsequenceGrows(a: seq<Outcome>, b: seq<Outcome>, o: Outcome)
    requires Subsequence(a, b)
    ensures Subsequence(a, b + [o]) && Subsequence(a + [o], b + [o])
  {
    assert (b + [o])[..|b|] == b && (a + [o])[..|a|] == a;
  }

  lemma {:induction false} SubsequenceTransitive(a: seq<Outcome>, b: seq<Outcome>, c: seq<Outcome>)
    requires Subsequence(a, b) && Subsequence(b, c)
    ensures Subsequence(a, c)
    decreases |b| + |c|
  {
    if a != [] && b != [] {
      var a', b', c' := a[..|a| - 1], b[..|b| - 1], c[..|c| - 1];
      if b[|b| - 1] == c[|c| - 1] && Subsequence(b', c') {
        if a[|a| - 1] == b[|b| - 1] && Subsequence(a', b') {
          SubsequenceTransitive(a', b', c');
        } else {
          SubsequenceTransitive(a, b', c');
        }
      } else {
        SubsequenceTransitive(a, b, c');
      }
    }
  }

  lemma {:induction false} WindowIsSubsequence(entries: seq<Outcome>, cfg: Config, now: nat)
    ensures Subsequence(InWindow(entries, cfg, now), entries)
  {
    if entries != [] {
      var before, o := entries[..|entries| - 1], entries[|entries| - 1];
      WindowIsSubsequence(before, cfg, now);
      SubsequenceGrows(InWindow(before, cfg, now), before, o);
      assert before + [o] == entries;
    }
  }

  ghost predicate Sound(s: Shared) {
    && Subsequence(s.list, s.recorded)
    && forall w :: w in s.pending ==> Subsequence(s.pending[w].entries, s.recorded)
  }

  /** However reads, rewrites, records, expiries and resets interleave, the stored list never holds
      anything that was not recorded, and keeps its order and multiplicity. */
  lemma {:induction false} ListIsSubsequence(cfg: Config, acts: seq<Act>)
    ensures Sound(DoAll(INITIAL, cfg, acts))
  {
    if acts != [] {
      ListIsSubsequence(cfg, acts[..|acts| - 1]);
      SoundStep(DoAll(INITIAL, cfg, acts[..|acts| - 1]), cfg, acts[|acts| - 1]);
    }
  }

  lemma SoundStep(s: Shared, cfg: Config, a: Act)
    requires Sound(s)
    ensures Sound(Do(s, cfg, a))
  {
    match a
    case Append(success) =>
      var o := Outcome(success, s.now);
      SubsequenceGrows(s.list, s.recorded, o);
      forall w | w in s.pending
        ensures Subsequence(s.pending[w].entries, s.recorded + [o])
      {
        SubsequenceGrows(s.pending[w].entries, s.recorded, o);
      }
    case Rewrite(w) =>
      if w in s.pending {
        var p := s.pending[w];
        WindowIsSubsequence(p.entries, cfg, p.at);
        SubsequenceTransitive(InWindow(p.entries, cfg, p.at), p.entries, s.recorded);
      }
    case _ =>
  }

  // ----- what one rewrite does -----

  /** The read found something too old, so that the rewrite will replace the list. */
  predicate Stale(p: Snapshot, cfg: Config) {
    |InWindow(p.entries, cfg, p.at)| < |p.entries|
  }

  /** Looking through a window and then through a later one is looking through the later one. */
  lemma {:induction false} WindowOfWindow(entries: seq<Outcome>, cfg: Config, earlier: nat, now: nat)
    requires earlier <= now
    ensures InWindow(InWindow(entries, cfg, earlier), cfg, now) == InWindow(entries, cfg, now)
  {
    if entries != [] {
      var before, o := entries[..|entries| - 1], entries[|entries| - 1];
      WindowOfWindow(before, cfg, earlier, now);
      WindowSnoc(InWindow(before, cfg, earlier), o, cfg, now);
    }
  }

  /** What a check sees after a rewrite: what the read held if it was stale, and otherwise what it saw before. */
  lemma AfterRewrite(s: Shared, cfg: Config, w: nat)
    requires w in s.pending && s.pending[w].at <= s.now
    ensures var p, s' := s.pending[w], Do(s, cfg, Rewrite(w));
            InWindow(s'.list, cfg, s'.now) == InWindow(if Stale(p, cfg) then p.entries else s.list, cfg, s.now)
  {
    WindowOfWindow(s.pending[w].entries, cfg, s.pending[w].at, s.now);
  }

  /** In any state, if the list is what the worker read and something after it, the rewrite changes nothing for a check
      exactly when the read held nothing stale or nothing of what came after is in the window. */
  lemma RewriteHarmlessIff(s: Shared, cfg: Config, w: nat, extra: seq<Outcome>)
    requires w in s.pending && s.pending[w].at <= s.now && s.list == s.pending[w].entries + extra
    ensures InWindow(Do(s, cfg, Rewrite(w)).list, cfg, s.now) == InWindow(s.list, cfg, s.now)
       <==> !Stale(s.pending[w], cfg) || InWindow(extra, cfg, s.now) == []
  {
    AfterRewrite(s, cfg, w);
    InWindowConcat(s.pending[w].entries, extra, cfg, s.now);
  }

  /** Time passes, outcomes are recorded, and other workers read. */
  predicate Between(w: nat, a: Act) {
    a.Pass? || a.Append? || (a.Read? && a.worker != w)
  }

  lemma {:induction false} AppendedBetween(s: Shared, cfg: Config, w: nat, acts: seq<Act>)
    requires forall i :: 0 <= i < |acts| ==> Between(w, acts[i])
    ensures var s' := DoAll(s, cfg, acts);
            && s.history <= s'.history && s'.list == s.list + s'.history[|s.history|..]
            && s.now <= s'.now && s'.epoch == s.epoch
            && (w in s.pending ==> w in s'.pending && s'.pending[w] == s.pending[w])
  {
    if acts == [] {
      assert s.history[|s.history|..] == [];
    } else {
      AppendedBetween(s, cfg, w, acts[..|acts| - 1]);
    }
  }

  /** A worker reads in any state, others record, and it rewrites: what was recorded in between is lost, window or not,
      if the read held something stale, and all of it is kept otherwise. */
  lemma ReadThenRewrite(s: Shared, cfg: Config, w: nat, acts: seq<Act>) returns (recorded: seq<Outcome>)
    requires forall i :: 0 <= i < |acts| ==> Between(w, acts[i])
    ensures var read := Do(s, cfg, Read(w));
            var end := Do(DoAll(read, cfg, acts), cfg, Rewrite(w));
            && end.history == s.history + recorded
            && end.list == (if Stale(read.pending[w], cfg) then InWindow(s.list, cfg, s.now) else s.list + recorded)
            && (InWindow(end.list, cfg, end.now) == InWindow(s.list + recorded, cfg, end.now)
                <==> !Stale(read.pending[w], cfg) || InWindow(recorded, cfg, end.now) == [])
  {
    var read := Do(s, cfg, Read(w));
    AppendedBetween(read, cfg, w, acts);
    var later := DoAll(read, cfg, acts);
    recorded := later.history[|s.history|..];
    RewriteHarmlessIff(later, cfg, w, recorded);
  }

  // ----- which runs lose something -----

  /** A check would see exactly the outcomes in the window recorded since the last reset. */
  predicate Complete(s: Shared, cfg: Config) {
    InWindow(s.list, cfg, s.now) == InWindow(s.history, cfg, s.now)
  }

  /** What has been recorded since a read with no reset in between. */
  function Since(s: Shared, p: Snapshot): seq<Outcome> {
    if p.seen <= |s.history| then s.history[p.seen..] else []
  }

  /** The step leaves a check what it should see. A reset always does. A rewrite of a stale read does if nothing
      recorded since the read is in the window or, when a reset came in between, if what was read looks the same
      through the window as what has been recorded since the reset. An expiry does when the window is empty. */
  predicate Harmless(s: Shared, cfg: Config, a: Act) {
    match a
    case Rewrite(w) =>
      w in s.pending && Stale(s.pending[w], cfg) ==>
        if s.pending[w].epoch == s.epoch then InWindow(Since(s, s.pending[w]), cfg, s.now) == []
        else InWindow(s.pending[w].entries, cfg, s.now) == InWindow(s.history, cfg, s.now)
    case Expire => InWindow(s.history, cfg, s.now) == []
    case _ => true
  }

  /** What a worker read was complete when it was read, if that can still be told. */
  predicate GoodRead(s: Shared, cfg: Config, p: Snapshot) {
    && p.at <= s.now && p.epoch <= s.epoch
    && (p.epoch == s.epoch ==>
          p.seen <= |s.history| && InWindow(p.entries, cfg, p.at) == InWindow(s.history[..p.seen], cfg, p.at))
  }

  ghost predicate Lossless(s: Shared, cfg: Config) {
    Complete(s, cfg) && forall w :: w in s.pending ==> GoodRead(s, cfg, s.pending[w])
  }

  lemma GoodReadLater(s: Shared, s': Shared, cfg: Config, p: Snapshot)
    requires GoodRead(s, cfg, p) && s.now <= s'.now
    requires s.epoch < s'.epoch || (s.epoch == s'.epoch && s.history <= s'.history)
    ensures GoodRead(s', cfg, p)
  {
    if p.epoch == s'.epoch {
      assert s'.history[..p.seen] == s.history[..p.seen];
    }
  }

  lemma ReadsStayGood(s: Shared, cfg: Config, a: Act)
    requires Lossless(s, cfg)
    ensures forall w :: w in Do(s, cfg, a).pending ==> GoodRead(Do(s, cfg, a), cfg, Do(s, cfg, a).pending[w])
  {
    var s' := Do(s, cfg, a);
    forall w | w in s'.pending
      ensures GoodRead(s', cfg, s'.pending[w])
    {
      if w in s.pending && s'.pending[w] == s.pending[w] {
        GoodReadLater(s, s', cfg, s.pending[w]);
      } else {
        assert s.history[..|s.history|] == s.history;
      }
    }
  }

  /** A rewrite of a good read leaves the list complete exactly when it is harmless. */
  lemma RewriteKeepsIff(s: Shared, cfg: Config, w: nat)
    requires Complete(s, cfg) && w in s.pending && GoodRead(s, cfg, s.pending[w])
    ensures Complete(Do(s, cfg, Rewrite(w)), cfg) <==> Harmless(s, cfg, Rewrite(w))
  {
    var p := s.pending[w];
    AfterRewrite(s, cfg, w);
    if p.epoch == s.epoch {
      SameEpoch(s, cfg, p);
    }
  }

  /** Without a reset in between, the read shows what was recorded before it. */
  lemma SameEpoch(s: Shared, cfg: Config, p: Snapshot)
    requires GoodRead(s, cfg, p) && p.epoch == s.epoch
    ensures InWindow(p.entries, cfg, s.now) == InWindow(s.history, cfg, s.now)
       <==> InWindow(Since(s, p), cfg, s.now) == []
  {
    var upTo, since := s.history[..p.seen], s.history[p.seen..];
    WindowOfWindow(p.entries, cfg, p.at, s.now);
    WindowOfWindow(upTo, cfg, p.at, s.now);
    assert s.history == upTo + since;
    InWindowConcat(upTo, since, cfg, s.now);
  }

  lemma StepKeepsIff(s: Shared, cfg: Config, a: Act)
    requires Lossless(s, cfg)
    ensures Complete(Do(s, cfg, a), cfg) <==> Harmless(s, cfg, a)
  {
    match a
    case Pass(ms) =>
      WindowOfWindow(s.list, cfg, s.now, s.now + ms);
      WindowOfWindow(s.history, cfg, s.now, s.now + ms);
    case Append(success) =>
      WindowSnoc(s.list, Outcome(success, s.now), cfg, s.now);
      WindowSnoc(s.history, Outcome(success, s.now), cfg, s.now);
    case Rewrite(w) =>
      if w in s.pending {
        RewriteKeepsIff(s, cfg, w);
      }
    case _ =>
  }

  lemma DoAllSnoc(cfg: Config, acts: seq<Act>, k: nat)
    requires k < |acts|
    ensures DoAll(INITIAL, cfg, acts[..k + 1]) == Do(DoAll(INITIAL, cfg, acts[..k]), cfg, acts[k])
  {
    assert acts[..k + 1][..k] == acts[..k];
  }

  lemma {:induction false} HarmlessRunsLossless(cfg: Config, acts: seq<Act>, n: nat)
    requires n <= |acts|
    requires forall k :: 0 <= k < n ==> Harmless(DoAll(INITIAL, cfg, acts[..k]), cfg, acts[k])
    ensures Lossless(DoAll(INITIAL, cfg, acts[..n]), cfg)
  {
    if n > 0 {
      HarmlessRunsLossless(cfg, acts, n - 1);
      DoAllSnoc(cfg, acts, n - 1);
      StepKeepsIff(DoAll(INITIAL, cfg, acts[..n - 1]), cfg, acts[n - 1]);
      ReadsStayGood(DoAll(INITIAL, cfg, acts[..n - 1]), cfg, acts[n - 1]);
    }
  }

  lemma {:induction false} CompleteRunsLossless(cfg: Config, acts: seq<Act>, n: nat)
    requires n <= |acts|
    requires forall k :: 0 <= k <= n ==> Complete(DoAll(INITIAL, cfg, acts[..k]), cfg)
    ensures Lossless(DoAll(INITIAL, cfg, acts[..n]), cfg)
  {
    if n > 0 {
      CompleteRunsLossless(cfg, acts, n - 1);
      DoAllSnoc(cfg, acts, n - 1);
      ReadsStayGood(DoAll(INITIAL, cfg, acts[..n - 1]), cfg, acts[n - 1]);
    }
  }

  /** In every run, resets included, the stored list shows each check exactly what was recorded in the window since the
      last reset, at every moment, if and only if every step is harmless in the sense above. */
  lemma RunCompleteIff(cfg: Config, acts: seq<Act>)
    ensures (forall k :: 0 <= k <= |acts| ==> Complete(DoAll(INITIAL, cfg, acts[..k]), cfg))
       <==> (forall k :: 0 <= k < |acts| ==> Harmless(DoAll(INITIAL, cfg, acts[..k]), cfg, acts[k]))
  {
    if forall k :: 0 <= k < |acts| ==> Harmless(DoAll(INITIAL, cfg, acts[..k]), cfg, acts[k]) {
      forall k | 0 <= k <= |acts|
        ensures Complete(DoAll(INITIAL, cfg, acts[..k]), cfg)
      {
        HarmlessRunsLossless(cfg, acts, k);
      }
    }
    if forall k :: 0 <= k <= |acts| ==> Complete(DoAll(INITIAL, cfg, acts[..k]), cfg) {
      forall k | 0 <= k < |acts|
        ensures Harmless(DoAll(INITIAL, cfg, acts[..k]), cfg, acts[k])
      {
        CompleteRunsLossless(cfg, acts, k);
        DoAllSnoc(cfg, acts, k);
        StepKeepsIff(DoAll(INITIAL, cfg, acts[..k]), cfg, acts[k]);
      }
    }
  }

  // ----- a run that loses something -----

  function FailTimes(n: nat): seq<Act> {
    if n == 0 then [] else FailTimes(n - 1) + [Append(false)]
  }

  function FailuresAt(n: nat, at: nat): (r: seq<Outcome>)
    ensures |r| == n
  {
    if n == 0 then [] else FailuresAt(n - 1, at) + [Outcome(false, at)]
  }

  lemma {:induction false} FailTimesAppends(s: Shared, cfg: Config, n: nat)
    ensures DoAll(s, cfg, FailTimes(n)) == Plus(s, FailuresAt(n, s.now))
  {
    if n == 0 {
      assert Plus(s, []) == s;
    } else {
      FailTimesAppends(s, cfg, n - 1);
      assert FailTimes(n)[..|FailTimes(n - 1)|] == FailTimes(n - 1);
      AppendsOne(s, cfg, FailuresAt(n - 1, s.now));
    }
  }

  /** The state once these outcomes have been recorded. */
  function Plus(s: Shared, more: seq<Outcome>): Shared {
    s.(list := s.list + more, recorded := s.recorded + more, history := s.history + more)
  }

  lemma AppendsOne(s: Shared, cfg: Config, fails: seq<Outcome>)
    ensures Do(Plus(s, fails), cfg, Append(false)) == Plus(s, fails + [Outcome(false, s.now)])
  {
    var o := Outcome(false, s.now);
    assert s.list + fails + [o] == s.list + (fails + [o]);
    assert s.recorded + fails + [o] == s.recorded + (fails + [o]);
    assert s.history + fails + [o] == s.history + (fails + [o]);
  }

  lemma {:induction false} FreshFailures(n: nat, cfg: Config, now: nat)
    ensures InWindow(FailuresAt(n, now), cfg, now) == FailuresAt(n, now) && Failures(FailuresAt(n, now)) == n
  {
    if n > 0 {
      FreshFailures(n - 1, cfg, now);
      WindowSnoc(FailuresAt(n - 1, now), Outcome(false, now), cfg, now);
    }
  }

  lemma {:induction false} AllFailed(n: nat, threshold: nat)
    requires threshold <= 95
    ensures 100 * n >= Required(n, threshold)
  {
    if n > 0 {
      AllFailed(n - 1, threshold);
    }
  }

  /** All that was recorded is too old, a worker has just read it, and `n` failures come before it rewrites. */
  lemma FailuresLost(s: Shared, cfg: Config, n: nat)
    requires s.list == s.history != [] && InWindow(s.list, cfg, s.now) == []
    requires 0 in s.pending && s.pending[0].entries == s.list && s.pending[0].at == s.now
    ensures var end := Do(DoAll(s, cfg, FailTimes(n)), cfg, Rewrite(0));
            && end.list == [] && end.now == s.now
            && InWindow(end.history, cfg, s.now) == FailuresAt(n, s.now)
  {
    var fails := FailuresAt(n, s.now);
    FailTimesAppends(s, cfg, n);
    RewriteDrops(Plus(s, fails), cfg);
    FreshAfterOld(s.history, n, cfg, s.now);
  }

  lemma RewriteDrops(s: Shared, cfg: Config)
    requires 0 in s.pending && s.pending[0].entries != [] && InWindow(s.pending[0].entries, cfg, s.pending[0].at) == []
    ensures var end := Do(s, cfg, Rewrite(0)); end.list == [] && end.now == s.now && end.history == s.history
  {
  }

  lemma FreshAfterOld(history: seq<Outcome>, n: nat, cfg: Config, now: nat)
    requires InWindow(history, cfg, now) == []
    ensures InWindow(history + FailuresAt(n, now), cfg, now) == FailuresAt(n, now)
  {
    var fails := FailuresAt(n, now);
    InWindowConcat(history, fails, cfg, now);
    FreshFailures(n, cfg, now);
    assert [] + fails == fails;
  }

  lemma FailuresTrip(cfg: Config, now: nat)
    requires cfg.Valid()
    ensures Trips(FailuresAt(cfg.minSamples, now), cfg)
  {
    FreshFailures(cfg.minSamples, cfg, now);
    AllFailed(cfg.minSamples, cfg.threshold);
  }

  lemma OldOutcome(cfg: Config, now: nat)
    requires now > cfg.WindowMs()
    ensures InWindow([Outcome(false, 0)], cfg, now) == []
  {
    assert InWindow([], cfg, now) == [] && [] + [Outcome(false, 0)] == [Outcome(false, 0)];
    WindowSnoc([], Outcome(false, 0), cfg, now);
  }

  /** One failure was recorded and has left the window. */
  function OneOld(cfg: Config): Shared {
    Do(Do(INITIAL, cfg, Append(false)), cfg, Pass(cfg.WindowMs() + 1))
  }

  lemma OneOldIs(cfg: Config)
    ensures var s, first := OneOld(cfg), [Outcome(false, 0)];
            s.now == cfg.WindowMs() + 1 && s.list == first && s.history == first && s.epoch == 0
  {
  }

  /** Under every configuration: just enough failures to trip the breaker are recorded after a stale read, and the late
      rewrite deletes them all. */
  lemma LateRewriteLosesOutcomes(cfg: Config)
    requires cfg.Valid()
    ensures var end := Do(DoAll(Do(OneOld(cfg), cfg, Read(0)), cfg, FailTimes(cfg.minSamples)), cfg, Rewrite(0));
            end.list == [] && Trips(InWindow(end.history, cfg, end.now), cfg)
  {
    var s := Do(OneOld(cfg), cfg, Read(0));
    OneOldIs(cfg);
    OldOutcome(cfg, s.now);
    FailuresLost(s, cfg, cfg.minSamples);
    FailuresTrip(cfg, s.now);
  }

  /** A rewrite of a stale read that was made before a reset undoes the reset. */
  lemma RewriteUndoesReset(s: Shared, cfg: Config, w: nat)
    requires w in s.pending && Stale(s.pending[w], cfg)
    ensures var end := Do(Do(s, cfg, Clear), cfg, Rewrite(w));
            end.history == [] && end.list == InWindow(s.pending[w].entries, cfg, s.pending[w].at)
  {
  }

  lemma StaleWithFresh(cfg: Config, n: nat)
    ensures var s := OneOld(cfg);
            var entries, fails := s.list + FailuresAt(n, s.now), FailuresAt(n, s.now);
            InWindow(entries, cfg, s.now) == fails && |fails| < |entries| && InWindow(fails, cfg, s.now) == fails
  {
    OneOldIs(cfg);
    OldOutcome(cfg, OneOld(cfg).now);
    FreshAfterOld(OneOld(cfg).list, n, cfg, OneOld(cfg).now);
    FreshFailures(n, cfg, OneOld(cfg).now);
  }

  /** Under every configuration: a check reads one old failure and just enough fresh ones, a reset deletes them, and
      the rewrite puts the fresh ones back, so that the next check trips though nothing has been recorded since the
      reset. */
  lemma ResetUndone(cfg: Config)
    requires cfg.Valid()
    ensures var read := Do(DoAll(OneOld(cfg), cfg, FailTimes(cfg.minSamples)), cfg, Read(0));
            var end := Do(Do(read, cfg, Clear), cfg, Rewrite(0));
            end.history == [] && Trips(InWindow(end.list, cfg, end.now), cfg)
  {
    var s := OneOld(cfg);
    FailTimesAppends(s, cfg, cfg.minSamples);
    StaleWithFresh(cfg, cfg.minSamples);
    FailuresTrip(cfg, s.now);
    RewriteUndoesReset(Do(Plus(s, FailuresAt(cfg.minSamples, s.now)), cfg, Read(0)), cfg, 0);
  }
}
