/** Reading a realtime log backwards in chunks (app/services/realtime_backup_logs.py, `_scan_recent_entries`)
    and the simple read it must agree with. */
module LogScan {
  import opened Basics

  /** A stored line: text that is no JSON, JSON that is no object, or an entry with its sequence number,
      tenant, and the time it carries, if that can be parsed. */
  datatype Raw = Corrupt | NotObject | Item(number: nat, tenant: string, stamp: Option<int>, text: string)

  /** An empty tenant asks for everyone's entries. */
  predicate Matches(e: Raw, tenant: string) {
    e.Item? && (tenant == "" || e.tenant == tenant)
  }

  // ----- the simple read -----

  /** The well-formed entries above the cursor for the tenant, in order. */
  function Wanted(log: seq<Raw>, after: int, tenant: string): seq<Raw> {
    if log == [] then []
    else
      var rest, e := Wanted(log[..|log| - 1], after, tenant), log[|log| - 1];
      if Matches(e, tenant) && e.number > after then rest + [e] else rest
  }

  function TakeLast<T>(s: seq<T>, n: int): (r: seq<T>)
    ensures |r| == Max(0, Min(n, |s|)) && r == s[|s| - |r|..]
  {
    if n <= 0 then [] else if |s| <= n then s else s[|s| - n..]
  }

  // ----- the backward scan -----

  /** What the scan adds to `got`, newest first: it stops at the limit and at the first entry, from the
      end, that is not above the cursor. */
  function Collect(log: seq<Raw>, after: int, tenant: string, limit: int, got: seq<Raw>): seq<Raw> {
    if log == [] || |got| >= limit then got
    else
      var before, e := log[..|log| - 1], log[|log| - 1];
      if !e.Item? then Collect(before, after, tenant, limit, got)
      else if e.number <= after then got
      else if !Matches(e, tenant) then Collect(before, after, tenant, limit, got)
      else Collect(before, after, tenant, limit, got + [e])
  }

  function Reverse<T>(s: seq<T>): seq<T> {
    if s == [] then [] else [s[|s| - 1]] + Reverse(s[..|s| - 1])
  }

  /** The largest sequence number among the entries, or the cursor. */
  function LastSeq(after: int, entries: seq<Raw>): int {
    if entries == [] then after
    else
      var rest, e := LastSeq(after, entries[..|entries| - 1]), entries[|entries| - 1];
      if e.Item? && e.number > rest then e.number else rest
  }

  method ScanChunks(log: seq<Raw>, after: int, limit: int, tenant: string, chunkSize: nat)
    returns (reversed: seq<Raw>, lastSeq: int)
    requires log != [] && chunkSize >= 1
    ensures reversed == Collect(log, after, tenant, limit, [])
    ensures lastSeq == LastSeq(after, reversed)
  {
    var end := |log| - 1;
    lastSeq, reversed := after, [];
    var reachedBoundary := false;
    assert log[..end + 1] == log;
    while end >= 0 && |reversed| < limit && !reachedBoundary
      invariant -1 <= end < |log|
      invariant lastSeq == LastSeq(after, reversed)
      invariant if reachedBoundary then reversed == Collect(log, after, tenant, limit, [])
                else Collect(log[..end + 1], after, tenant, limit, reversed) == Collect(log, after, tenant, limit, [])
      decreases end + 1, !reachedBoundary
    {
      var start := if end - chunkSize + 1 > 0 then end - chunkSize + 1 else 0;
      var i := end + 1;
      while i > start
        invariant start <= i <= end + 1 && |reversed| < limit
        invariant lastSeq == LastSeq(after, reversed)
        invariant Collect(log[..i], after, tenant, limit, reversed) == Collect(log, after, tenant, limit, [])
      {
        i := i - 1;
        var item := log[i];
        assert log[..i + 1][..i] == log[..i];
        if !item.Item? { continue; }
        if item.number <= after {
          reachedBoundary := true;
          break;
        }
        if tenant != "" && item.tenant != tenant { continue; }
        assert (reversed + [item])[..|reversed|] == reversed;
        reversed := reversed + [item];
        if item.number > lastSeq {
          lastSeq := item.number;
        }
        if |reversed| >= limit { break; }
      }
      if start == 0 || |reversed| >= limit || reachedBoundary { break; }
      end := start - 1;
    }
  }

  /** The whole read. `latest` is the value of the sequence counter, 0 when it is missing. */
  method ScanRecent(log: seq<Raw>, latest: int, after: int, limit: int, tenant: string)
    returns (entries: seq<Raw>, lastSeq: int)
    ensures entries == Reply(log, latest, after, limit, tenant)
    ensures lastSeq == ReplyCursor(log, latest, after, limit, tenant)
  {
    if latest > 0 && after >= latest { return [], latest; }
    if log == [] { return [], after; }
    var chunkSize := Max(limit * 4, 500);
    var reversed;
    reversed, lastSeq := ScanChunks(log, after, limit, tenant, chunkSize);
    entries := Reverse(TakeLast(reversed, limit));
    CollectSize(log, after, tenant, limit, []);
  }

  function Reply(log: seq<Raw>, latest: int, after: int, limit: int, tenant: string): seq<Raw> {
    if latest > 0 && after >= latest then [] else Reverse(Collect(log, after, tenant, limit, []))
  }

  function ReplyCursor(log: seq<Raw>, latest: int, after: int, limit: int, tenant: string): int {
    if latest > 0 && after >= latest then latest else LastSeq(after, Collect(log, after, tenant, limit, []))
  }

  lemma {:induction false} CollectSize(log: seq<Raw>, after: int, tenant: string, limit: int, got: seq<Raw>)
    requires |got| <= Max(0, limit)
    ensures |Collect(log, after, tenant, limit, got)| <= Max(0, limit)
  {
    if log != [] && |got| < limit {
      var before, e := log[..|log| - 1], log[|log| - 1];
      CollectSize(before, after, tenant, limit, got);
      CollectSize(before, after, tenant, limit, got + [e]);
    }
  }

  // ----- the scan agrees with the simple read -----

  /** The part of the log behind the last entry that is not above the cursor. */
  function BehindBoundary(log: seq<Raw>, after: int): seq<Raw> {
    if log == [] then []
    else
      var e := log[|log| - 1];
      if e.Item? && e.number <= after then [] else BehindBoundary(log[..|log| - 1], after) + [e]
  }

  lemma TakeLastSnoc<T>(s: seq<T>, x: T, n: int)
    requires n >= 1
    ensures TakeLast(s + [x], n) == TakeLast(s, n - 1) + [x]
  {
  }

  lemma WantedSnoc(log: seq<Raw>, e: Raw, after: int, tenant: string)
    ensures Wanted(log + [e], after, tenant)
         == Wanted(log, after, tenant) + if Matches(e, tenant) && e.number > after then [e] else []
  {
    assert (log + [e])[..|log|] == log;
  }

  /** Every log: the scan returns the last `limit` matching entries behind the boundary, in order. */
  lemma {:induction false} CollectIsTail(log: seq<Raw>, after: int, tenant: string, limit: int, got: seq<Raw>)
    requires |got| <= Max(0, limit)
    ensures Reverse(Collect(log, after, tenant, limit, got))
         == TakeLast(Wanted(BehindBoundary(log, after), after, tenant), limit - |got|) + Reverse(got)
  {
    if log != [] && |got| < limit {
      var before, e := log[..|log| - 1], log[|log| - 1];
      if !e.Item? || e.number > after {
        var behind := BehindBoundary(before, after);
        var wanted := Wanted(behind, after, tenant);
        WantedSnoc(behind, e, after, tenant);
        if Matches(e, tenant) {
          CollectIsTail(before, after, tenant, limit, got + [e]);
          TakeOneMore(wanted, e, limit - |got|, got, Reverse(Collect(before, after, tenant, limit, got + [e])));
        } else {
          CollectIsTail(before, after, tenant, limit, got);
          assert wanted + [] == wanted;
        }
      }
    }
  }

  lemma TakeOneMore(wanted: seq<Raw>, e: Raw, n: int, got: seq<Raw>, reply: seq<Raw>)
    requires n >= 1 && reply == TakeLast(wanted, n - 1) + Reverse(got + [e])
    ensures reply == TakeLast(wanted + [e], n) + Reverse(got)
  {
    TakeLastSnoc(wanted, e, n);
    ReverseSnoc(got, e);
    Regroup(TakeLast(wanted, n - 1), e, Reverse(got));
  }

  lemma ReverseSnoc<T>(s: seq<T>, x: T)
    ensures Reverse(s + [x]) == [x] + Reverse(s)
  {
    assert (s + [x])[..|s|] == s;
  }

  lemma Regroup<T>(a: seq<T>, x: T, b: seq<T>)
    ensures a + ([x] + b) == a + [x] + b
  {
  }

  /** Sequence numbers strictly increase along the log, corrupt lines apart. */
  predicate Increasing(log: seq<Raw>) {
    forall i, j :: 0 <= i < j < |log| && log[i].Item? && log[j].Item? ==> log[i].number < log[j].number
  }

  /** No matching entry above the cursor lies before an entry that is not above it. */
  predicate NothingHidden(log: seq<Raw>, after: int, tenant: string) {
    forall i, j :: 0 <= i < j < |log| && Matches(log[i], tenant) && log[i].number > after && log[j].Item? ==>
      log[j].number > after
  }

  /** The boundary splits the log; nothing wanted is before it exactly when nothing is hidden. */
  lemma {:induction false} BoundaryHides(log: seq<Raw>, after: int, tenant: string)
    ensures |Wanted(BehindBoundary(log, after), after, tenant)| <= |Wanted(log, after, tenant)|
    ensures Wanted(BehindBoundary(log, after), after, tenant) == Wanted(log, after, tenant)
       <==> NothingHidden(log, after, tenant)
  {
    if log != [] {
      var before, e := log[..|log| - 1], log[|log| - 1];
      assert before + [e] == log;
      WantedSnoc(before, e, after, tenant);
      if e.Item? && e.number <= after {
        SomethingWanted(before, after, tenant);
        assert forall i :: 0 <= i < |before| ==> before[i] == log[i];
      } else {
        BoundaryHides(before, after, tenant);
        WantedSnoc(BehindBoundary(before, after), e, after, tenant);
        HiddenEarlier(before, e, after, tenant);
        CancelRight(Wanted(BehindBoundary(before, after), after, tenant), Wanted(before, after, tenant), e);
      }
    }
  }

  lemma CancelRight<T>(a: seq<T>, b: seq<T>, x: T)
    ensures a + [x] == b + [x] <==> a == b
    ensures a + [] == b + [] <==> a == b
  {
    assert (a + [x])[..|a|] == a && (b + [x])[..|b|] == b;
    assert a + [] == a && b + [] == b;
  }

  lemma HiddenEarlier(before: seq<Raw>, e: Raw, after: int, tenant: string)
    requires !e.Item? || e.number > after
    ensures NothingHidden(before + [e], after, tenant) <==> NothingHidden(before, after, tenant)
  {
    assert forall i :: 0 <= i < |before| ==> (before + [e])[i] == before[i];
  }

  lemma {:induction false} SomethingWanted(log: seq<Raw>, after: int, tenant: string)
    ensures Wanted(log, after, tenant) == [] <==>
            forall i :: 0 <= i < |log| ==> !(Matches(log[i], tenant) && log[i].number > after)
  {
    if log != [] {
      SomethingWanted(log[..|log| - 1], after, tenant);
    }
  }

  /** For any limit the scan's reply is the simple read's when nothing is hidden. */
  lemma ScanIsSimpleRead(log: seq<Raw>, after: int, limit: int, tenant: string)
    requires NothingHidden(log, after, tenant)
    ensures Reverse(Collect(log, after, tenant, limit, [])) == TakeLast(Wanted(log, after, tenant), limit)
  {
    CollectIsTail(log, after, tenant, limit, []);
    BoundaryHides(log, after, tenant);
    assert Reverse<Raw>([]) == [];
  }

  /** The early stop loses nothing, whatever the limit, exactly when nothing is hidden. */
  lemma ScanIsSimpleReadIff(log: seq<Raw>, after: int, tenant: string)
    ensures NothingHidden(log, after, tenant) <==>
            forall limit: int {:trigger TakeLast(Wanted(log, after, tenant), limit)} ::
              Reverse(Collect(log, after, tenant, limit, [])) == TakeLast(Wanted(log, after, tenant), limit)
  {
    if NothingHidden(log, after, tenant) {
      forall limit: int
        ensures Reverse(Collect(log, after, tenant, limit, [])) == TakeLast(Wanted(log, after, tenant), limit)
      {
        ScanIsSimpleRead(log, after, limit, tenant);
      }
    } else {
      var limit := |Wanted(log, after, tenant)|;
      CollectIsTail(log, after, tenant, limit, []);
      BoundaryHides(log, after, tenant);
      assert Reverse<Raw>([]) == [];
      assert Reverse(Collect(log, after, tenant, limit, [])) != TakeLast(Wanted(log, after, tenant), limit);
    }
  }

  /** On a log whose numbers increase up to the counter, with corrupt lines anywhere, the read returns
      exactly the last `limit` well-formed entries above the cursor for the tenant, in order. */
  lemma {:induction false} ReplyIsSimpleRead(log: seq<Raw>, latest: int, after: int, limit: int, tenant: string)
    requires Increasing(log)
    requires forall i :: 0 <= i < |log| && log[i].Item? ==> log[i].number <= latest
    ensures Reply(log, latest, after, limit, tenant) == TakeLast(Wanted(log, after, tenant), limit)
  {
    ScanIsSimpleRead(log, after, limit, tenant);
    SomethingWanted(log, after, tenant);
  }
}
