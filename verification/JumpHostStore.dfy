/** The Redis keys behind the circuit breaker and the adaptive controller of every jump host, and the
    functions of app/tasks/backups.py that read and write them. Each method is proved to do to one
    host's keys what the step functions say, and nothing to any other host's. */
module JumpHostStore {
  import opened Basics
  import B = CircuitBreaker
  import A = AdaptiveSlots

  class Store {
    var now: nat
    var outcomes: map<string, seq<B.Outcome>>
    var outcomesExpire: map<string, nat>
    var openExpire: map<string, nat>
    var learned: map<string, int>
    var fails: map<string, A.Counter>
    var successes: map<string, A.Counter>
    var cooldowns: map<string, nat>
    const cfg: B.Config
    const policy: A.Policy
    const adaptive: bool

    constructor (cfg: B.Config, policy: A.Policy, adaptive: bool)
      ensures this.cfg == cfg && this.policy == policy && this.adaptive == adaptive
      ensures forall host :: Breaker(host) == B.NO_KEYS && Controller(host) == A.NO_KEYS
    {
      this.cfg, this.policy, this.adaptive := cfg, policy, adaptive;
      now := 0;
      outcomes, outcomesExpire, openExpire := map[], map[], map[];
      learned, fails, successes, cooldowns := map[], map[], map[], map[];
    }

    /** One host's breaker keys. */
    function Breaker(host: string): B.Keys
      reads this
    {
      B.Keys(if host in outcomes then outcomes[host] else [],
             if host in outcomesExpire then outcomesExpire[host] else 0,
             if host in openExpire then openExpire[host] else 0)
    }

    /** One host's controller keys. */
    function Controller(host: string): A.Keys
      reads this
    {
      A.Keys(if host in learned then Some(learned[host]) else None,
             if host in fails then fails[host] else A.NO_COUNTER,
             if host in successes then successes[host] else A.NO_COUNTER,
             if host in cooldowns then cooldowns[host] else 0)
    }

    method Wait(ms: nat)
      modifies this`now
      ensures now == old(now) + ms
    {
      now := now + ms;
    }

    /** `_record_jump_host_outcome` */
    method RecordOutcome(host: string, success: bool)
      modifies this`outcomes, this`outcomesExpire
      ensures host == "" ==> outcomes == old(outcomes) && outcomesExpire == old(outcomesExpire)
      ensures host != "" ==> Breaker(host) == B.RecordStep(old(Breaker(host)), cfg, now, success)
      ensures forall l :: l != host ==> Breaker(l) == old(Breaker(l))
    {
      if host == "" { return; }
      var live := Breaker(host).Live(now);
      outcomes := outcomes[host := live + [B.Outcome(success, now)]];
      outcomesExpire := outcomesExpire[host := now + cfg.ListTtlMs()];
    }

    /** The counting loop of a check: the outcomes in the window, split into successes and failures. */
    method CountWindow(entries: seq<B.Outcome>)
      returns (valid: seq<B.Outcome>, succeeded: nat, failed: nat)
      ensures valid == B.InWindow(entries, cfg, now)
      ensures failed == B.Failures(valid) && succeeded + failed == |valid|
    {
      valid, succeeded, failed := [], 0, 0;
      for i := 0 to |entries|
        invariant valid == B.InWindow(entries[..i], cfg, now)
        invariant failed == B.Failures(valid) && succeeded + failed == |valid|
      {
        assert entries[..i + 1] == entries[..i] + [entries[i]];
        B.WindowSnoc(entries[..i], entries[i], cfg, now);
        B.WindowSnoc(valid, entries[i], cfg, now);
        var raw := entries[i];
        if raw.at + cfg.WindowMs() >= now {
          valid := valid + [raw];
          if raw.success {
            succeeded := succeeded + 1;
          } else {
            failed := failed + 1;
          }
        }
      }
      assert entries[..|entries|] == entries;
    }

    /** `_check_jump_host_circuit_breaker` */
    method CheckBreaker(host: string) returns (answer: B.Answer)
      requires cfg.Valid()
      modifies this`outcomes, this`outcomesExpire, this`openExpire
      ensures host == "" ==> answer == B.Closed && Breaker(host) == old(Breaker(host))
      ensures host != "" ==> (Breaker(host), answer) == B.CheckStep(old(Breaker(host)), cfg, now)
      ensures forall l :: l != host ==> Breaker(l) == old(Breaker(l))
    {
      if host == "" { return B.Closed; }
      var keys := Breaker(host);
      if keys.IsOpen(now) {
        return B.Open(B.Ttl(keys.openExpire, now), false);
      }
      var entries := keys.Live(now);
      if entries == [] {
        assert B.InWindow([], cfg, now) == [];
        return B.Closed;
      }
      var valid, succeeded, failed := CountWindow(entries);
      if |valid| < |entries| {
        outcomes := outcomes[host := valid];
        outcomesExpire := outcomesExpire[host := now + cfg.ListTtlMs()];
      }
      var total := succeeded + failed;
      if total < cfg.minSamples {
        return B.Closed;
      }
      B.WholePercent(failed, total, cfg.threshold);
      if failed * 100 / total >= cfg.threshold {
        openExpire := openExpire[host := now + cfg.OpenMs()];
        return B.Open(cfg.open, true);
      }
      return B.Closed;
    }

    /** `_resolve_effective_jump_host_slots` */
    method ResolveSlots(host: string) returns (slots: int)
      ensures adaptive ==> slots == A.Effective(Controller(host), policy)
      ensures !adaptive ==> slots == policy.Configured()
      ensures 1 <= slots <= 16
    {
      slots := if policy.overridden.Some? then policy.overridden.value else Max(1, policy.base);
      if !adaptive { return A.Clamp(slots); }
      if host in learned {
        slots := A.Clamp(learned[host]);
      }
      slots := A.Clamp(slots);
    }

    /** `_adapt_jump_host_slots` */
    method AdaptSlots(host: string, r: A.Result)
      modifies this`learned, this`fails, this`successes, this`cooldowns
      ensures !adaptive || host == "" ==> Controller(host) == old(Controller(host))
      ensures adaptive && host != "" ==> Controller(host) == A.AdaptStep(old(Controller(host)), policy, now, r)
      ensures forall l :: l != host ==> Controller(l) == old(Controller(l))
    {
      if !adaptive || host == "" { return; }
      var current := ResolveSlots(host);
      if host in cooldowns && now < cooldowns[host] { return; }
      if r.Success? {
        CountSuccess(host, current);
        return;
      }
      if !r.saturation { return; }
      CountSaturation(host, current, r);
    }

    method CountSuccess(host: string, current: int)
      requires current == A.Effective(Controller(host), policy) && now >= Controller(host).cooldownExpire
      modifies this`learned, this`fails, this`successes, this`cooldowns
      ensures Controller(host) == A.AdaptStep(old(Controller(host)), policy, now, A.Success)
      ensures forall l :: l != host ==> Controller(l) == old(Controller(l))
    {
      var streak := Controller(host).successes.Live(now) + 1;
      successes := successes[host := A.Counter(streak, now + policy.streakTtl * 1000)];
      fails := fails - {host};
      if streak >= policy.successStreak && current < policy.AllowedMax() {
        learned := learned[host := Min(policy.AllowedMax(), current + 1)];
        cooldowns := cooldowns[host := now + policy.cooldown * 1000];
        successes := successes - {host};
      }
    }

    method CountSaturation(host: string, current: int, r: A.Result)
      requires r.Failure? && r.saturation
      requires current == A.Effective(Controller(host), policy) && now >= Controller(host).cooldownExpire
      modifies this`learned, this`fails, this`successes, this`cooldowns
      ensures Controller(host) == A.AdaptStep(old(Controller(host)), policy, now, r)
      ensures forall l :: l != host ==> Controller(l) == old(Controller(l))
    {
      var streak := Controller(host).fails.Live(now) + 1;
      fails := fails[host := A.Counter(streak, now + policy.streakTtl * 1000)];
      successes := successes - {host};
      var severe := r.severe && streak >= policy.severeFailStreak;
      if current > 1 && (streak >= policy.failStreak || severe) {
        var next, length := Max(1, current - 1), policy.cooldown;
        if severe {
          next, length := if policy.dropToOne then 1 else Max(1, current - 2), policy.severeCooldown;
        }
        learned := learned[host := next];
        cooldowns := cooldowns[host := now + length * 1000];
        fails := fails - {host};
      }
    }

    /** `reset_circuit_breakers_for_new_batch`: the three scanned patterns match every key except the
        hash of learned counts. */
    method ResetForNewBatch() returns (openCleared: nat, outcomesCleared: nat, adaptiveCleared: nat)
      modifies this`outcomes, this`outcomesExpire, this`openExpire, this`fails, this`successes, this`cooldowns
      ensures forall l :: Breaker(l) == B.NO_KEYS && Controller(l) == A.ResetStep(old(Controller(l)))
      ensures openCleared == |old(set l | l in openExpire && now < openExpire[l])|
      ensures outcomesCleared == |old(set l | l in outcomes && Breaker(l).Live(now) != [])|
      ensures adaptiveCleared == |old(set l | l in fails && now < fails[l].expire)|
                               + |old(set l | l in successes && now < successes[l].expire)|
                               + |old(set l | l in cooldowns && now < cooldowns[l])|
    {
      openCleared := |set l | l in openExpire && now < openExpire[l]|;
      outcomesCleared := |set l | l in outcomes && Breaker(l).Live(now) != []|;
      adaptiveCleared := |set l | l in fails && now < fails[l].expire|
                       + |set l | l in successes && now < successes[l].expire|
                       + |set l | l in cooldowns && now < cooldowns[l]|;
      outcomes, outcomesExpire, openExpire := map[], map[], map[];
      fails, successes, cooldowns := map[], map[], map[];
    }
  }
}
