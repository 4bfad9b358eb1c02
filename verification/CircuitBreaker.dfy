/** The sliding-window circuit breaker of one jump host (app/tasks/backups.py).
    Outcomes live in a Redis list that checks prune and that expires; an open breaker is a key with an
    expiry. Times are milliseconds on one clock; a key with expiry `e` exists while `now < e`. */
module CircuitBreaker {

  /** Seconds and percentages as `_env_int` bounds them. */
  datatype Config = Config(window: nat, threshold: nat, minSamples: nat, open: nat) {
    predicate Valid() {
      60 <= window <= 900 && 30 <= threshold <= 95 && 3 <= minSamples <= 50 && 10 <= open <= 300
    }
    function WindowMs(): nat { window * 1000 }
    function ListTtlMs(): nat { (window + 60) * 1000 }
    function OpenMs(): nat { open * 1000 }
  }

  datatype Outcome = Outcome(success: bool, at: nat)

  /** The breaker's two Redis keys for one jump host. An empty list is an absent key. */
  datatype Keys = Keys(outcomes: seq<Outcome>, outcomesExpire: nat, openExpire: nat) {
    function Live(now: nat): seq<Outcome> {
      if now < outcomesExpire then outcomes else []
    }
    predicate IsOpen(now: nat) {
      now < openExpire
    }
  }

  const NO_KEYS := Keys([], 0, 0)

  /** What a check reports: closed, or open with the seconds to wait, newly or not. */
  datatype Answer = Closed | Open(retryAfter: nat, newly: bool)

  // ----- counting -----

  /** The outcomes not older than the window. */
  function InWindow(entries: seq<Outcome>, cfg: Config, now: nat): seq<Outcome> {
    if entries == [] then []
    else
      var n := |entries| - 1;
      var rest := InWindow(entries[..n], cfg, now);
      if entries[n].at + cfg.WindowMs() >= now then rest + [entries[n]] else rest
  }

  function Failures(entries: seq<Outcome>): (f: nat)
    ensures f <= |entries|
  {
    if entries == [] then 0
    else Failures(entries[..|entries| - 1]) + if entries[|entries| - 1].success then 0 else 1
  }

  /** `threshold` for each of `total` samples: their product, by repeated addition. */
  function Required(total: nat, threshold: nat): nat {
    if total == 0 then 0 else Required(total - 1, threshold) + threshold
  }

  /** Whether these samples trip the breaker: enough of them, and the failures at the threshold, in hundredths. The
      code rounds the percentage down first; `WholePercent` shows that this makes no difference. */
  predicate Trips(samples: seq<Outcome>, cfg: Config) {
    |samples| >= cfg.minSamples && |samples| > 0 && 100 * Failures(samples) >= Required(|samples|, cfg.threshold)
  }

  lemma WindowSnoc(entries: seq<Outcome>, o: Outcome, cfg: Config, now: nat)
    ensures InWindow(entries + [o], cfg, now)
         == InWindow(entries, cfg, now) + if o.at + cfg.WindowMs() >= now then [o] else []
    ensures Failures(entries + [o]) == Failures(entries) + if o.success then 0 else 1
  {
    assert (entries + [o])[..|entries|] == entries;
  }

  // ----- the steps on the keys -----

  function RecordStep(k: Keys, cfg: Config, now: nat, success: bool): Keys {
    k.(outcomes := k.Live(now) + [Outcome(success, now)], outcomesExpire := now + cfg.ListTtlMs())
  }

  /** Stale outcomes are dropped from the list, which renews its expiry. */
  function Pruned(k: Keys, cfg: Config, now: nat): Keys {
    var valid := InWindow(k.Live(now), cfg, now);
    if |valid| < |k.Live(now)| then k.(outcomes := valid, outcomesExpire := now + cfg.ListTtlMs()) else k
  }

  /** `ttl` of a key that exists, in seconds as Redis rounds it. */
  function Ttl(expire: nat, now: nat): nat
    requires now < expire
  {
    (expire - now + 500) / 1000
  }

  function CheckStep(k: Keys, cfg: Config, now: nat): (Keys, Answer) {
    if k.IsOpen(now) then (k, Open(Ttl(k.openExpire, now), false))
    else
      var k' := Pruned(k, cfg, now);
      if Trips(InWindow(k.Live(now), cfg, now), cfg)
      then (k'.(openExpire := now + cfg.OpenMs()), Open(cfg.open, true))
      else (k', Closed)
  }

  // ----- the reference: full history, no pruning, no expiring list -----

  /** Every outcome since the last reset, and when the breaker closes again. */
  datatype Ledger = Ledger(history: seq<Outcome>, openUntil: nat)

  function CheckLedger(l: Ledger, cfg: Config, now: nat): (Ledger, Answer) {
    if now < l.openUntil then (l, Open(Ttl(l.openUntil, now), false))
    else if Trips(InWindow(l.history, cfg, now), cfg)
    then (l.(openUntil := now + cfg.OpenMs()), Open(cfg.open, true))
    else (l, Closed)
  }

  // ----- runs -----

  /** What can happen to one jump host; the clock only moves forward. */
  datatype Event = Tick(ms: nat) | Record(success: bool) | Check | Reset

  /** A state of the real breaker beside the reference, with every answer each has given. */
  datatype World = World(now: nat, keys: Keys, ledger: Ledger, answers: seq<Answer>, expected: seq<Answer>)

  const START := World(0, NO_KEYS, Ledger([], 0), [], [])

  function Step(w: World, cfg: Config, e: Event): World {
    match e
    case Tick(ms) => w.(now := w.now + ms)
    case Record(success) =>
      w.(keys := RecordStep(w.keys, cfg, w.now, success),
         ledger := w.ledger.(history := w.ledger.history + [Outcome(success, w.now)]))
    case Check =>
      var (k, a) := CheckStep(w.keys, cfg, w.now);
      var (l, b) := CheckLedger(w.ledger, cfg, w.now);
      World(w.now, k, l, w.answers + [a], w.expected + [b])
    case Reset => w.(keys := NO_KEYS, ledger := Ledger([], 0))
  }

  function Run(cfg: Config, events: seq<Event>): World {
    if events == [] then START
    else Step(Run(cfg, events[..|events| - 1]), cfg, events[|events| - 1])
  }

  // ----- refinement -----

  predicate InOrder(entries: seq<Outcome>) {
    forall i, j :: 0 <= i < j < |entries| ==> entries[i].at <= entries[j].at
  }

  /** The stored list is the history without a prefix that lies outside the window, and it lives long
      enough for its newest outcome to leave the window first. */
  predicate Tracks(k: Keys, l: Ledger, cfg: Config, now: nat) {
    var dropped := |l.history| - |k.outcomes|;
    && dropped >= 0 && l.history[dropped..] == k.outcomes
    && InOrder(l.history)
    && (forall i :: 0 <= i < |l.history| ==> l.history[i].at <= now)
    && (forall i :: 0 <= i < dropped ==> l.history[i].at + cfg.WindowMs() < now)
    && (k.outcomes != [] ==> k.outcomes[|k.outcomes| - 1].at + cfg.ListTtlMs() <= k.outcomesExpire)
    && k.openExpire == l.openUntil
    && (l.openUntil > 0 ==> l.history != [])
    && (l.openUntil > 0 ==> l.openUntil <= l.history[|l.history| - 1].at + cfg.WindowMs() + cfg.OpenMs())
  }

  lemma {:induction false} InWindowConcat(a: seq<Outcome>, b: seq<Outcome>, cfg: Config, now: nat)
    ensures InWindow(a + b, cfg, now) == InWindow(a, cfg, now) + InWindow(b, cfg, now)
  {
    if b == [] {
      assert a + b == a;
    } else {
      var n := |b| - 1;
      assert (a + b)[..|a + b| - 1] == a + b[..n];
      InWindowConcat(a, b[..n], cfg, now);
    }
  }

  lemma {:induction false} NoneInWindow(entries: seq<Outcome>, cfg: Config, now: nat)
    requires forall i :: 0 <= i < |entries| ==> entries[i].at + cfg.WindowMs() < now
    ensures InWindow(entries, cfg, now) == []
  {
    if entries != [] {
      NoneInWindow(entries[..|entries| - 1], cfg, now);
    }
  }

  /** Of a list in time order, the window keeps a suffix and drops only what is too old. */
  lemma {:induction false} WindowIsSuffix(entries: seq<Outcome>, cfg: Config, now: nat) returns (k: nat)
    requires InOrder(entries)
    ensures k <= |entries| && InWindow(entries, cfg, now) == entries[k..]
    ensures forall i :: 0 <= i < k ==> entries[i].at + cfg.WindowMs() < now
    ensures forall i :: k <= i < |entries| ==> entries[i].at + cfg.WindowMs() >= now
  {
    if entries == [] {
      k := 0;
    } else {
      var n := |entries| - 1;
      if entries[n].at + cfg.WindowMs() >= now {
        k := WindowIsSuffix(entries[..n], cfg, now);
        assert entries[..n][k..] + [entries[n]] == entries[k..];
        assert forall i :: 0 <= i < n ==> entries[..n][i] == entries[i];
      } else {
        NoneInWindow(entries, cfg, now);
        k := |entries|;
      }
    }
  }

  /** The live list and the full history have the same outcomes in the window. */
  lemma SameWindow(k: Keys, l: Ledger, cfg: Config, now: nat)
    requires Tracks(k, l, cfg, now)
    ensures InWindow(k.Live(now), cfg, now) == InWindow(l.history, cfg, now)
  {
    var dropped := |l.history| - |k.outcomes|;
    assert l.history == l.history[..dropped] + k.outcomes;
    InWindowConcat(l.history[..dropped], k.outcomes, cfg, now);
    NoneInWindow(l.history[..dropped], cfg, now);
    if k.Live(now) != k.outcomes {
      ExpiredIsOld(k, l, cfg, now);
    }
  }

  /** A list that has expired holds nothing in the window. */
  lemma ExpiredIsOld(k: Keys, l: Ledger, cfg: Config, now: nat)
    requires Tracks(k, l, cfg, now) && now >= k.outcomesExpire
    ensures InWindow(k.outcomes, cfg, now) == []
  {
    var dropped := |l.history| - |k.outcomes|;
    assert forall i :: 0 <= i < |k.outcomes| ==> k.outcomes[i] == l.history[dropped + i];
    NoneInWindow(k.outcomes, cfg, now);
  }

  lemma TracksTick(k: Keys, l: Ledger, cfg: Config, now: nat, later: nat)
    requires Tracks(k, l, cfg, now) && now <= later
    ensures Tracks(k, l, cfg, later)
  {
  }

  /** A list that has expired held nothing the window still needs. */
  lemma TracksExpiry(k: Keys, l: Ledger, cfg: Config, now: nat)
    requires Tracks(k, l, cfg, now)
    ensures Tracks(k.(outcomes := k.Live(now)), l, cfg, now)
  {
    if k.Live(now) != k.outcomes {
      var dropped := |l.history| - |k.outcomes|;
      assert forall i :: 0 <= i < |k.outcomes| ==> k.outcomes[i] == l.history[dropped + i];
    }
  }

  lemma TracksRecord(k: Keys, l: Ledger, cfg: Config, now: nat, success: bool)
    requires Tracks(k, l, cfg, now)
    ensures Tracks(RecordStep(k, cfg, now, success), l.(history := l.history + [Outcome(success, now)]), cfg, now)
  {
    TracksExpiry(k, l, cfg, now);
    var live := k.(outcomes := k.Live(now));
    TracksAppend(live, l, cfg, now, Outcome(success, now), RecordStep(k, cfg, now, success));
  }

  lemma TracksAppend(k: Keys, l: Ledger, cfg: Config, now: nat, o: Outcome, k': Keys)
    requires Tracks(k, l, cfg, now) && o.at == now
    requires k' == k.(outcomes := k.outcomes + [o], outcomesExpire := now + cfg.ListTtlMs())
    ensures Tracks(k', l.(history := l.history + [o]), cfg, now)
  {
    var dropped := |l.history| - |k.outcomes|;
    assert (l.history + [o])[dropped..] == l.history[dropped..] + [o];
  }

  lemma TracksPruned(k: Keys, l: Ledger, cfg: Config, now: nat)
    requires Tracks(k, l, cfg, now)
    ensures Tracks(Pruned(k, cfg, now), l, cfg, now)
  {
    var k' := Pruned(k, cfg, now);
    if k' != k {
      SameWindow(k, l, cfg, now);
      var cut := WindowIsSuffix(l.history, cfg, now);
      assert |k'.outcomes| == |l.history| - cut;
    }
  }

  /** A breaker that trips has an outcome in the window. */
  lemma TripNeedsRecent(l: Ledger, cfg: Config, now: nat)
    requires InOrder(l.history) && Trips(InWindow(l.history, cfg, now), cfg)
    ensures l.history != [] && l.history[|l.history| - 1].at + cfg.WindowMs() >= now
  {
    var cut := WindowIsSuffix(l.history, cfg, now);
  }

  lemma SameAnswer(k: Keys, l: Ledger, cfg: Config, now: nat)
    requires Tracks(k, l, cfg, now)
    ensures CheckStep(k, cfg, now).1 == CheckLedger(l, cfg, now).1
  {
    SameWindow(k, l, cfg, now);
  }

  lemma TracksCheck(k: Keys, l: Ledger, cfg: Config, now: nat)
    requires Tracks(k, l, cfg, now)
    ensures Tracks(CheckStep(k, cfg, now).0, CheckLedger(l, cfg, now).0, cfg, now)
  {
    SameWindow(k, l, cfg, now);
    var (k', answer) := CheckStep(k, cfg, now);
    var (l', expected) := CheckLedger(l, cfg, now);
    if k.IsOpen(now) {
      assert k' == k && l' == l;
    } else if Trips(InWindow(l.history, cfg, now), cfg) {
      TracksTripped(k, l, cfg, now, k', l');
    } else {
      assert k' == Pruned(k, cfg, now) && l' == l;
      TracksPruned(k, l, cfg, now);
    }
  }

  lemma TracksTripped(k: Keys, l: Ledger, cfg: Config, now: nat, k': Keys, l': Ledger)
    requires Tracks(k, l, cfg, now) && Trips(InWindow(l.history, cfg, now), cfg)
    requires k' == Pruned(k, cfg, now).(openExpire := now + cfg.OpenMs()) && l' == l.(openUntil := now + cfg.OpenMs())
    ensures Tracks(k', l', cfg, now)
  {
    TripNeedsRecent(l, cfg, now);
    TracksPruned(k, l, cfg, now);
    TracksTrip(Pruned(k, cfg, now), l, cfg, now, k', l');
  }

  lemma TracksTrip(k: Keys, l: Ledger, cfg: Config, now: nat, k': Keys, l': Ledger)
    requires Tracks(k, l, cfg, now)
    requires l.history != [] && l.history[|l.history| - 1].at + cfg.WindowMs() >= now
    requires k' == k.(openExpire := now + cfg.OpenMs()) && l' == l.(openUntil := now + cfg.OpenMs())
    ensures Tracks(k', l', cfg, now)
  {
  }

  /** In every run the pruned, expiring list gives the same answers as the full history since the last
      reset: neither pruning nor the list's expiry ever changes a decision. */
  lemma {:induction false} Refinement(cfg: Config, events: seq<Event>)
    ensures Run(cfg, events).answers == Run(cfg, events).expected
    ensures var w := Run(cfg, events); Tracks(w.keys, w.ledger, cfg, w.now)
  {
    if events != [] {
      Refinement(cfg, events[..|events| - 1]);
      RefinementStep(Run(cfg, events[..|events| - 1]), cfg, events[|events| - 1]);
    }
  }

  lemma RefinementStep(w: World, cfg: Config, e: Event)
    requires w.answers == w.expected && Tracks(w.keys, w.ledger, cfg, w.now)
    ensures var w' := Step(w, cfg, e); w'.answers == w'.expected && Tracks(w'.keys, w'.ledger, cfg, w'.now)
  {
    match e
    case Tick(ms) => TracksTick(w.keys, w.ledger, cfg, w.now, w.now + ms);
    case Record(success) => TracksRecord(w.keys, w.ledger, cfg, w.now, success);
    case Check =>
      SameAnswer(w.keys, w.ledger, cfg, w.now);
      TracksCheck(w.keys, w.ledger, cfg, w.now);
    case Reset =>
  }

  // ----- when it trips, and when it recovers -----

  lemma {:induction false} RequiredIsProduct(total: nat, threshold: nat)
    ensures Required(total, threshold) == threshold * total
  {
    if total > 0 {
      RequiredIsProduct(total - 1, threshold);
      assert threshold * total == threshold * (total - 1) + threshold;
    }
  }

  lemma QuotientAtLeast(a: nat, total: nat, t: nat)
    requires total > 0
    ensures a / total >= t <==> a >= t * total
  {
    var q, r := a / total, a % total;
    assert a == q * total + r && r < total;
    if q >= t {
      assert q * total >= t * total;
    } else {
      assert (q + 1) * total <= t * total;
      assert (q + 1) * total == q * total + total;
    }
  }

  /** The rounded-down percentage reaches the threshold exactly when the exact one does. */
  lemma WholePercent(failures: nat, total: nat, threshold: nat)
    requires total > 0
    ensures failures * 100 / total >= threshold <==> 100 * failures >= Required(total, threshold)
  {
    QuotientAtLeast(100 * failures, total, threshold);
    RequiredIsProduct(total, threshold);
  }

  /** After any run, a check newly opens the breaker exactly when it is not open already, the history
      since the last reset has enough outcomes in the window, and the failures among them reach the
      threshold; and it reports the breaker closed exactly when neither holds. */
  lemma TripsExactlyWhen(cfg: Config, events: seq<Event>)
    requires cfg.Valid()
    ensures var w := Run(cfg, events);
            var samples := InWindow(w.ledger.history, cfg, w.now);
            var enough := |samples| >= cfg.minSamples && 100 * Failures(samples) >= cfg.threshold * |samples|;
            var answer := CheckStep(w.keys, cfg, w.now).1;
            && (answer == Open(cfg.open, true) <==> !w.keys.IsOpen(w.now) && enough)
            && (answer == Closed <==> !w.keys.IsOpen(w.now) && !enough)
  {
    var w := Run(cfg, events);
    Refinement(cfg, events);
    SameWindow(w.keys, w.ledger, cfg, w.now);
    RequiredIsProduct(|InWindow(w.ledger.history, cfg, w.now)|, cfg.threshold);
  }

  /** Recovery: once WINDOW + OPEN seconds have passed since the last outcome (or no outcome was recorded
      since the reset), every check answers closed, however often the breaker was tripped meanwhile. */
  lemma Recovers(cfg: Config, events: seq<Event>)
    requires cfg.Valid()
    requires var w := Run(cfg, events);
             w.ledger.history != [] ==>
               w.now > w.ledger.history[|w.ledger.history| - 1].at + cfg.WindowMs() + cfg.OpenMs()
    ensures var w := Run(cfg, events); CheckStep(w.keys, cfg, w.now).1 == Closed
  {
    var w := Run(cfg, events);
    Refinement(cfg, events);
    SameAnswer(w.keys, w.ledger, cfg, w.now);
    if Trips(InWindow(w.ledger.history, cfg, w.now), cfg) {
      TripNeedsRecent(w.ledger, cfg, w.now);
    }
  }
}
