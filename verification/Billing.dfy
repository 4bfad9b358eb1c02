/** Escalation of unpaid tenants (app/services/billing_policy_service.py). Instants are microseconds. */
module Billing {
  import opened Basics
  import opened Text
  import opened Schedule

  const DEFAULT_GRACE_DAYS := 3

  datatype Tenant = Tenant(unlimited: bool, deleted: bool, planGraceDays: Option<int>,
                           currentPeriodEnd: Option<int>, trialEndsAt: Option<int>,
                           active: bool, status: string, blockedAt: Option<int>)

  datatype Evaluation = Evaluation(overdue: bool, shouldBlock: bool, overdueDays: int, graceDays: nat,
                                   daysUntilBlock: nat, dueAt: Option<int>)

  /** No plan, or none stored, means no grace; a negative number means the default. */
  function GraceDays(t: Tenant): nat {
    var days := if t.planGraceDays.Some? then t.planGraceDays.value else 0;
    if days >= 0 then days else DEFAULT_GRACE_DAYS
  }

  function DueAt(t: Tenant): Option<int> {
    if t.currentPeriodEnd.Some? then t.currentPeriodEnd else t.trialEndsAt
  }

  function Evaluate(t: Tenant, now: int): Evaluation {
    var due, grace := DueAt(t), GraceDays(t);
    if due.None? || now <= due.value then Evaluation(false, false, 0, grace, grace, due)
    else
      var overdueDays := Max((now - due.value) / DAY + 1, 1);
      Evaluation(true, overdueDays > grace, overdueDays, grace, Max(grace - overdueDays, 0), due)
  }

  // ----- one sweep -----

  datatype Counts = Counts(processed: nat, markedPastDue: nat, blocked: nat, reactivated: nat)

  predicate InSweep(t: Tenant) {
    !t.unlimited && !t.deleted
  }

  predicate Markable(status: string) {
    Lower(Strip(status)) in {"active", "trial", "past_due"} && status != "past_due"
  }

  function Swept(t: Tenant, now: int): Tenant {
    var e := Evaluate(t, now);
    if !InSweep(t) then t
    else if e.shouldBlock then
      t.(active := false, status := "canceled", blockedAt := if t.blockedAt.Some? then t.blockedAt else Some(now))
    else if e.overdue then if Markable(t.status) then t.(status := "past_due") else t
    else if t.blockedAt.Some? && t.active then t.(blockedAt := None)
    else t
  }

  function Counted(t: Tenant, now: int, c: Counts): Counts {
    var e := Evaluate(t, now);
    if !InSweep(t) then c
    else
      var seen := c.(processed := c.processed + 1);
      if e.shouldBlock then if t.active then seen.(blocked := c.blocked + 1) else seen
      else if e.overdue then if Markable(t.status) then seen.(markedPastDue := c.markedPastDue + 1) else seen
      else if t.blockedAt.Some? && t.active then seen.(reactivated := c.reactivated + 1)
      else seen
  }

  function SweptAll(tenants: seq<Tenant>, now: int): (r: seq<Tenant>)
    ensures |r| == |tenants| && forall i :: 0 <= i < |r| ==> r[i] == Swept(tenants[i], now)
  {
    if tenants == [] then []
    else SweptAll(tenants[..|tenants| - 1], now) + [Swept(tenants[|tenants| - 1], now)]
  }

  function CountAll(tenants: seq<Tenant>, now: int): Counts {
    if tenants == [] then Counts(0, 0, 0, 0)
    else Counted(tenants[|tenants| - 1], now, CountAll(tenants[..|tenants| - 1], now))
  }

  /** The tenants as the database holds them. */
  class Registry {
    var tenants: seq<Tenant>

    method EnforceAccessPolicy(now: int) returns (counts: Counts)
      modifies this
      ensures tenants == SweptAll(old(tenants), now) && counts == CountAll(old(tenants), now)
    {
      counts := Counts(0, 0, 0, 0);
      ghost var before := tenants;
      for i := 0 to |tenants|
        invariant |tenants| == |before| && counts == CountAll(before[..i], now)
        invariant forall j :: 0 <= j < |tenants| ==> tenants[j] == if j < i then Swept(before[j], now) else before[j]
      {
        assert before[..i + 1][..i] == before[..i];
        var t: Tenant;
        t, counts := EnforceOne(tenants[i], now, counts);
        tenants := tenants[i := t];
      }
      assert before[..|before|] == before;
    }
  }

  method EnforceOne(tenant: Tenant, now: int, before: Counts) returns (t: Tenant, counts: Counts)
    ensures t == Swept(tenant, now) && counts == Counted(tenant, now, before)
  {
    t, counts := tenant, before;
    if !InSweep(t) {
      return;
    }
    counts := counts.(processed := counts.processed + 1);
    var e := Evaluate(t, now);
    if e.shouldBlock {
      if t.active {
        t := t.(active := false);
        counts := counts.(blocked := counts.blocked + 1);
      }
      t := t.(status := "canceled");
      if t.blockedAt.None? {
        t := t.(blockedAt := Some(now));
      }
    } else if e.overdue {
      if Markable(t.status) {
        t := t.(status := "past_due");
        counts := counts.(markedPastDue := counts.markedPastDue + 1);
      }
    } else if t.blockedAt.Some? && t.active {
      t := t.(blockedAt := None);
      counts := counts.(reactivated := counts.reactivated + 1);
    }
  }

  // ----- when a tenant is blocked -----

  lemma WholeDays(elapsed: nat, grace: nat)
    ensures elapsed / DAY >= grace <==> elapsed >= grace * DAY
  {
  }

  /** A tenant is to be blocked exactly when it is past due by its whole grace; and while it is overdue but not
      blocked, the days announced are the whole days left before that. */
  lemma BlockedIff(t: Tenant, now: int)
    ensures var e := Evaluate(t, now);
            && (e.overdue <==> DueAt(t).Some? && now > DueAt(t).value)
            && (e.shouldBlock <==> e.overdue && now - DueAt(t).value >= GraceDays(t) * DAY)
            && (e.overdue && !e.shouldBlock ==>
                  var left := DueAt(t).value + GraceDays(t) * DAY - now;
                  e.daysUntilBlock * DAY < left <= (e.daysUntilBlock + 1) * DAY)
  {
    var e := Evaluate(t, now);
    if e.overdue {
      var elapsed := now - DueAt(t).value;
      WholeDays(elapsed, GraceDays(t));
      assert elapsed == DAY * (elapsed / DAY) + elapsed % DAY;
      if !e.shouldBlock {
        assert e.daysUntilBlock == GraceDays(t) - elapsed / DAY - 1;
      }
    }
  }

  /** What a sweep leaves of the data the evaluation depends on. */
  lemma SweepKeepsTerms(t: Tenant, now: int, later: int)
    ensures InSweep(Swept(t, now)) == InSweep(t) && Evaluate(Swept(t, now), later) == Evaluate(t, later)
  {
  }

  /** As time passes, overdue and blocked never revert. */
  lemma NeverReverts(t: Tenant, now: int, later: int)
    requires now <= later
    ensures Evaluate(t, now).overdue ==> Evaluate(t, later).overdue
    ensures Evaluate(t, now).shouldBlock ==> Evaluate(t, later).shouldBlock
  {
    BlockedIff(t, now);
    BlockedIff(t, later);
  }

  /** Once a sweep has blocked a tenant, no later sweep changes anything about it: in particular the first block time
      stays. */
  lemma BlockedForGood(t: Tenant, now: int, later: int)
    requires InSweep(t) && Evaluate(t, now).shouldBlock && now <= later
    ensures var b := Swept(t, now);
            && !b.active && b.status == "canceled"
            && b.blockedAt == (if t.blockedAt.Some? then t.blockedAt else Some(now))
            && Swept(b, later) == b
  {
    SweepKeepsTerms(t, now, later);
    NeverReverts(t, now, later);
  }

  function SweptOver(t: Tenant, times: seq<int>): Tenant {
    if times == [] then t else Swept(SweptOver(t, times[..|times| - 1]), times[|times| - 1])
  }

  lemma {:induction false} SweepsKeepTerms(t: Tenant, times: seq<int>, later: int)
    ensures InSweep(SweptOver(t, times)) == InSweep(t) && Evaluate(SweptOver(t, times), later) == Evaluate(t, later)
  {
    if times != [] {
      SweepsKeepTerms(t, times[..|times| - 1], later);
      SweepKeepsTerms(SweptOver(t, times[..|times| - 1]), times[|times| - 1], later);
    }
  }

  /** Over sweeps at growing times, a tenant that was not yet marked blocked gets, for good, the time of the first
      sweep at which it should be. */
  lemma {:induction false} FirstBlockTime(t: Tenant, times: seq<int>, k: nat)
    requires InSweep(t) && t.blockedAt.None? && k < |times|
    requires forall i, j :: 0 <= i < j < |times| ==> times[i] <= times[j]
    requires Evaluate(t, times[k]).shouldBlock
    requires forall i :: 0 <= i < k ==> !Evaluate(t, times[i]).shouldBlock
    ensures var b := SweptOver(t, times); !b.active && b.status == "canceled" && b.blockedAt == Some(times[k])
  {
    var before, last := times[..|times| - 1], times[|times| - 1];
    var s := SweptOver(t, before);
    SweepsKeepTerms(t, before, last);
    if k < |before| {
      FirstBlockTime(t, before, k);
      NeverReverts(t, times[k], last);
    } else {
      NotMarkedBefore(t, before);
    }
  }

  lemma {:induction false} NotMarkedBefore(t: Tenant, times: seq<int>)
    requires InSweep(t) && t.blockedAt.None? && forall i :: 0 <= i < |times| ==> !Evaluate(t, times[i]).shouldBlock
    ensures SweptOver(t, times).blockedAt.None?
  {
    if times != [] {
      NotMarkedBefore(t, times[..|times| - 1]);
      SweepsKeepTerms(t, times[..|times| - 1], times[|times| - 1]);
    }
  }

  // ----- a second sweep at the same instant -----

  lemma SweptTwice(t: Tenant, now: int)
    ensures Swept(Swept(t, now), now) == Swept(t, now)
    ensures forall c :: Counted(Swept(t, now), now, c) == if InSweep(t) then c.(processed := c.processed + 1) else c
  {
    SweepKeepsTerms(t, now, now);
  }

  lemma CountSnoc(tenants: seq<Tenant>, t: Tenant, now: int)
    ensures CountAll(tenants + [t], now) == Counted(t, now, CountAll(tenants, now))
  {
    assert (tenants + [t])[..|tenants|] == tenants;
  }

  lemma ProcessedOne(t: Tenant, now: int, c: Counts)
    ensures Counted(t, now, c).processed == c.processed + if InSweep(t) then 1 else 0
  {
  }

  lemma {:induction false} SecondCountIdle(tenants: seq<Tenant>, now: int)
    ensures CountAll(SweptAll(tenants, now), now) == Counts(CountAll(tenants, now).processed, 0, 0, 0)
  {
    if tenants != [] {
      var before, t := tenants[..|tenants| - 1], tenants[|tenants| - 1];
      SecondCountIdle(before, now);
      SweptTwice(t, now);
      CountSnoc(SweptAll(before, now), Swept(t, now), now);
      ProcessedOne(t, now, CountAll(before, now));
    }
  }

  /** It changes no tenant and counts none as marked, blocked or reactivated. */
  lemma {:induction false} SecondSweepIdle(tenants: seq<Tenant>, now: int)
    ensures var once := SweptAll(tenants, now);
            && SweptAll(once, now) == once
            && CountAll(once, now) == Counts(CountAll(tenants, now).processed, 0, 0, 0)
  {
    SecondCountIdle(tenants, now);
    forall i | 0 <= i < |tenants|
      ensures Swept(Swept(tenants[i], now), now) == Swept(tenants[i], now)
    {
      SweptTwice(tenants[i], now);
    }
  }
}
