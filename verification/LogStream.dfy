/** The shared realtime log (app/services/realtime_backup_logs.py): appends number their entries from a
    counter, trims, age prunes and tenant clears remove some, and clients poll with a cursor. */
module LogStream {
  import opened Basics
  import opened LogScan

  /** The log and the counter that numbers its entries. The counter outlives the log. */
  datatype Stream = Stream(log: seq<Raw>, counter: nat)

  function Filter(log: seq<Raw>, keep: Raw -> bool): seq<Raw> {
    if log == [] then []
    else
      var rest, e := Filter(log[..|log| - 1], keep), log[|log| - 1];
      if keep(e) then rest + [e] else rest
  }

  /** An entry that survives the age rule: it carries a readable time that is not before the cutoff. */
  predicate IsFresh(e: Raw, cutoff: int) {
    e.Item? && e.stamp.Some? && e.stamp.value >= cutoff
  }

  function Number(s: Stream, tenant: string, stamp: int, text: string): Raw {
    Item(s.counter + 1, tenant, Some(stamp), text)
  }

  function Append(s: Stream, tenant: string, stamp: int, text: string): Stream {
    Stream(s.log + [Number(s, tenant, stamp, text)], s.counter + 1)
  }

  function Trim(log: seq<Raw>, max: nat): seq<Raw> {
    if |log| <= max then log else log[|log| - max..]
  }

  /** Popping from the head until a fresh entry. A line that is JSON but no object stops the loop with an
      exception. */
  function PopStale(log: seq<Raw>, cutoff: int): seq<Raw> {
    if log == [] || log[0].NotObject? || IsFresh(log[0], cutoff) then log else PopStale(log[1..], cutoff)
  }

  function KeepFresh(log: seq<Raw>, cutoff: int): seq<Raw> {
    Filter(log, (e: Raw) => IsFresh(e, cutoff))
  }

  /** Whether some line makes a full pass over the log raise. */
  predicate HasNonObject(log: seq<Raw>) {
    exists i :: 0 <= i < |log| && log[i].NotObject?
  }

  function WithoutTenant(log: seq<Raw>, tenant: string): seq<Raw> {
    Filter(log, (e: Raw) => !(e.Item? && e.tenant == tenant))
  }

  class GlobalLog {
    var stream: Stream
    const maxEntries: nat

    constructor (maxEntries: nat)
      ensures stream == Stream([], 0) && this.maxEntries == maxEntries
    {
      stream := Stream([], 0);
      this.maxEntries := maxEntries;
    }

    /** `append_task_log`: an age prune happens when its interval is over, a trim always. */
    method AppendEntry(tenant: string, now: int, text: string, pruneDue: bool, cutoff: int)
      modifies this`stream
      ensures var s := Append(old(stream), tenant, now, text);
              stream == s.(log := Trim(if pruneDue then PopStale(s.log, cutoff) else s.log, maxEntries))
    {
      stream := Append(stream, tenant, now, text);
      if pruneDue {
        var removed, raised := PruneByAge(cutoff);
      }
      stream := stream.(log := Trim(stream.log, maxEntries));
    }

    /** `_prune_global_logs_by_age` */
    method PruneByAge(cutoff: int) returns (removed: nat, raised: bool)
      modifies this`stream
      ensures stream == old(stream).(log := PopStale(old(stream.log), cutoff))
      ensures removed == |old(stream.log)| - |stream.log|
      ensures raised == (stream.log != [] && stream.log[0].NotObject?)
    {
      removed, raised := 0, false;
      while stream.log != []
        invariant PopStale(stream.log, cutoff) == PopStale(old(stream.log), cutoff)
        invariant stream.counter == old(stream.counter) && !raised
        invariant removed + |stream.log| == |old(stream.log)|
        decreases |stream.log|
      {
        var raw := stream.log[0];
        if raw.Corrupt? {
          stream := stream.(log := stream.log[1..]);
          removed := removed + 1;
          continue;
        }
        if raw.NotObject? {
          raised := true;
          break;
        }
        if raw.stamp.None? {
          stream := stream.(log := stream.log[1..]);
          removed := removed + 1;
          continue;
        }
        if raw.stamp.value >= cutoff { break; }
        stream := stream.(log := stream.log[1..]);
        removed := removed + 1;
      }
    }

    /** `prune_global_logs`: rewrites the log with what is fresh, or only counts the rest. */
    method PruneAll(cutoff: int, dryRun: bool) returns (removed: nat, raised: bool)
      modifies this`stream
      ensures raised == HasNonObject(old(stream.log))
      ensures !raised ==> removed == |old(stream.log)| - |KeepFresh(old(stream.log), cutoff)|
      ensures stream == if raised || dryRun then old(stream)
                        else old(stream).(log := KeepFresh(old(stream.log), cutoff))
    {
      var log := stream.log;
      var keep: seq<Raw> := [];
      removed, raised := 0, false;
      for i := 0 to |log|
        invariant keep == KeepFresh(log[..i], cutoff) && removed + |keep| == i
        invariant !HasNonObject(log[..i]) && stream == old(stream) && !raised
      {
        assert log[..i + 1][..i] == log[..i];
        var raw := log[i];
        if raw.NotObject? {
          raised := true;
          return;
        }
        if raw.Corrupt? || raw.stamp.None? || raw.stamp.value < cutoff {
          removed := removed + 1;
          continue;
        }
        keep := keep + [raw];
      }
      assert log[..|log|] == log;
      if !dryRun {
        stream := stream.(log := keep);
      }
    }

    /** `clear_tenant_global_logs`: lines that cannot be read stay. */
    method ClearTenant(tenant: string) returns (removed: nat, raised: bool)
      modifies this`stream
      ensures tenant == "" ==> removed == 0 && !raised && stream == old(stream)
      ensures tenant != "" ==> raised == HasNonObject(old(stream.log))
      ensures tenant != "" && !raised ==>
                && stream == old(stream).(log := WithoutTenant(old(stream.log), tenant))
                && removed == |old(stream.log)| - |stream.log|
      ensures raised ==> stream == old(stream)
    {
      removed, raised := 0, false;
      if tenant == "" { return; }
      var log := stream.log;
      var kept: seq<Raw> := [];
      for i := 0 to |log|
        invariant kept == WithoutTenant(log[..i], tenant) && removed + |kept| == i
        invariant !HasNonObject(log[..i]) && stream == old(stream) && !raised
      {
        assert log[..i + 1][..i] == log[..i];
        var raw := log[i];
        if raw.NotObject? {
          raised := true;
          return;
        }
        if raw.Item? && raw.tenant == tenant {
          removed := removed + 1;
          continue;
        }
        kept := kept + [raw];
      }
      assert log[..|log|] == log;
      if removed == 0 {
        AllKept(log, (e: Raw) => !(e.Item? && e.tenant == tenant));
        return;
      }
      stream := stream.(log := kept);
    }

    /** `get_global_logs` */
    method GetLogs(after: int, limit: int, tenant: string) returns (entries: seq<Raw>, lastSeq: int)
      ensures entries == Reply(stream.log, stream.counter, after, limit, tenant)
      ensures lastSeq == ReplyCursor(stream.log, stream.counter, after, limit, tenant)
    {
      entries, lastSeq := ScanRecent(stream.log, stream.counter, after, limit, tenant);
    }
  }

  lemma {:induction false} AllKept(log: seq<Raw>, keep: Raw -> bool)
    ensures |Filter(log, keep)| <= |log|
    ensures |Filter(log, keep)| == |log| ==> Filter(log, keep) == log
  {
    if log != [] {
      AllKept(log[..|log| - 1], keep);
      assert log[..|log| - 1] + [log[|log| - 1]] == log;
    }
  }

  // ----- the two prunes -----

  /** Once an entry is fresh, so is every later one. */
  predicate FreshStaysFresh(log: seq<Raw>, cutoff: int) {
    forall i, j :: 0 <= i < j < |log| && IsFresh(log[i], cutoff) ==> IsFresh(log[j], cutoff)
  }

  lemma {:induction false} FilterCons(e: Raw, log: seq<Raw>, keep: Raw -> bool)
    ensures Filter([e] + log, keep) == (if keep(e) then [e] else []) + Filter(log, keep)
  {
    if log == [] {
      assert [e] + log == [e] && [e][..0] == [];
    } else {
      assert ([e] + log)[..|log|] == [e] + log[..|log| - 1];
      FilterCons(e, log[..|log| - 1], keep);
    }
  }

  lemma {:induction false} FilterAll(log: seq<Raw>, keep: Raw -> bool)
    ensures Filter(log, keep) == log <==> forall i :: 0 <= i < |log| ==> keep(log[i])
  {
    if log != [] {
      var before, e := log[..|log| - 1], log[|log| - 1];
      FilterAll(before, keep);
      AllKept(before, keep);
      assert before + [e] == log;
      if keep(e) {
        CancelRight(Filter(before, keep), before, e);
      }
    }
  }

  /** On a log of readable lines, popping from the head keeps exactly what the full filter keeps if, and
      only if, nothing stale stands behind a fresh entry. */
  lemma {:induction false} HeadPruneEqualsFullPruneIff(log: seq<Raw>, cutoff: int)
    requires !HasNonObject(log)
    ensures PopStale(log, cutoff) == KeepFresh(log, cutoff) <==> FreshStaysFresh(log, cutoff)
    decreases |log|
  {
    if log != [] {
      var keep := (e: Raw) => IsFresh(e, cutoff);
      assert log == [log[0]] + log[1..];
      FilterCons(log[0], log[1..], keep);
      if IsFresh(log[0], cutoff) {
        FilterAll(log, keep);
      } else {
        assert !log[0].NotObject?;
        assert forall i :: 0 <= i < |log[1..]| ==> log[1..][i] == log[i + 1];
        HeadPruneEqualsFullPruneIff(log[1..], cutoff);
        assert [] + Filter(log[1..], keep) == Filter(log[1..], keep);
      }
    }
  }

  /** Well-formed entries in time order are such a log. */
  lemma InTimeOrderPrunesAgree(log: seq<Raw>, cutoff: int)
    requires forall i :: 0 <= i < |log| ==> log[i].Item? && log[i].stamp.Some?
    requires forall i, j :: 0 <= i < j < |log| ==> log[i].stamp.value <= log[j].stamp.value
    ensures PopStale(log, cutoff) == KeepFresh(log, cutoff)
  {
    HeadPruneEqualsFullPruneIff(log, cutoff);
  }
}
