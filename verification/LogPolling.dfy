/** A client polling the shared log with the cursor each reply hands back, while entries are appended and
    removed: what it sees over any run. */
module LogPolling {
  import opened Basics
  import opened LogScan
  import opened LogStream

  datatype Event =
    | Push(tenant: string, stamp: int, text: string)
    | Garbage(line: Raw)
    | TrimTo(max: nat)
    | PopOld(cutoff: int)
    | DropOld(cutoff: int)
    | DropTenant(tenant: string)
    | Poll(limit: int)

  /** The log, every entry ever appended, the client's cursor and what it has been shown. */
  datatype World = World(s: Stream, pushed: seq<Raw>, cursor: int, seen: seq<Raw>)

  const START := World(Stream([], 0), [], 0, [])

  /** `mine` is the tenant the client asks for; empty means all. A line added by anyone else is no entry. */
  function Step(w: World, mine: string, e: Event): World {
    match e
    case Push(tenant, stamp, text) =>
      w.(s := Append(w.s, tenant, stamp, text), pushed := w.pushed + [Number(w.s, tenant, stamp, text)])
    case Garbage(line) => if line.Item? then w else w.(s := w.s.(log := w.s.log + [line]))
    case TrimTo(max) => w.(s := w.s.(log := Trim(w.s.log, max)))
    case PopOld(cutoff) => w.(s := w.s.(log := PopStale(w.s.log, cutoff)))
    case DropOld(cutoff) => if HasNonObject(w.s.log) then w else w.(s := w.s.(log := KeepFresh(w.s.log, cutoff)))
    case DropTenant(t) =>
      if t == "" || HasNonObject(w.s.log) then w else w.(s := w.s.(log := WithoutTenant(w.s.log, t)))
    case Poll(limit) =>
      w.(seen := w.seen + Reply(w.s.log, w.s.counter, w.cursor, limit, mine),
         cursor := ReplyCursor(w.s.log, w.s.counter, w.cursor, limit, mine))
  }

  function Run(mine: string, events: seq<Event>): World {
    if events == [] then START
    else Step(Run(mine, events[..|events| - 1]), mine, events[|events| - 1])
  }

  /** What the client has still to be shown. */
  function Pending(w: World, mine: string): seq<Raw> {
    Wanted(w.s.log, w.cursor, mine)
  }

  // ----- numbers increase along the log, whatever is appended or removed -----

  predicate NumbersUpTo(log: seq<Raw>, n: int) {
    forall i :: 0 <= i < |log| && log[i].Item? ==> 1 <= log[i].number <= n
  }

  lemma {:induction false} FilterIncreases(log: seq<Raw>, keep: Raw -> bool)
    requires Increasing(log)
    ensures Increasing(Filter(log, keep)) && forall e :: e in Filter(log, keep) ==> e in log
  {
    if log != [] {
      var before, e := log[..|log| - 1], log[|log| - 1];
      FilterIncreases(before, keep);
      var rest := Filter(before, keep);
      forall i | 0 <= i < |rest|
        ensures rest[i] in log && (rest[i].Item? && e.Item? ==> rest[i].number < e.number)
      {
        assert rest[i] in before;
        var k :| 0 <= k < |before| && before[k] == rest[i];
        assert log[k] == rest[i];
      }
    }
  }

  lemma {:induction false} PopIsSuffix(log: seq<Raw>, cutoff: int) returns (k: nat)
    ensures k <= |log| && PopStale(log, cutoff) == log[k..]
  {
    if log == [] || log[0].NotObject? || IsFresh(log[0], cutoff) {
      k := 0;
    } else {
      var k' := PopIsSuffix(log[1..], cutoff);
      k := k' + 1;
      assert log[1..][k'..] == log[k..];
    }
  }

  predicate LogInv(s: Stream) {
    Increasing(s.log) && NumbersUpTo(s.log, s.counter)
  }

  lemma FilterKeepsInv(s: Stream, keep: Raw -> bool)
    requires LogInv(s)
    ensures LogInv(s.(log := Filter(s.log, keep)))
  {
    FilterIncreases(s.log, keep);
    var kept := Filter(s.log, keep);
    forall i | 0 <= i < |kept| && kept[i].Item?
      ensures 1 <= kept[i].number <= s.counter
    {
      assert kept[i] in s.log;
      var k :| 0 <= k < |s.log| && s.log[k] == kept[i];
    }
  }

  /** Every step keeps the numbers strictly increasing and within the counter. */
  lemma LogInvStep(w: World, mine: string, e: Event)
    requires LogInv(w.s)
    ensures LogInv(Step(w, mine, e).s) && Step(w, mine, e).s.counter >= w.s.counter
  {
    match e
    case PopOld(cutoff) => var k := PopIsSuffix(w.s.log, cutoff);
    case DropOld(cutoff) => FilterKeepsInv(w.s, (r: Raw) => IsFresh(r, cutoff));
    case DropTenant(t) => FilterKeepsInv(w.s, (r: Raw) => !(r.Item? && r.tenant == t));
    case _ =>
  }

  // ----- one poll -----

  predicate Ascending(entries: seq<Raw>) {
    && (forall i :: 0 <= i < |entries| ==> entries[i].Item?)
    && (forall i, j :: 0 <= i < j < |entries| ==> entries[i].number < entries[j].number)
  }

  lemma {:induction false} WantedAscends(log: seq<Raw>, after: int, mine: string)
    requires Increasing(log)
    ensures Ascending(Wanted(log, after, mine))
    ensures forall e :: e in Wanted(log, after, mine) ==> e in log && Matches(e, mine) && e.number > after
  {
    if log != [] {
      var before, e := log[..|log| - 1], log[|log| - 1];
      WantedAscends(before, after, mine);
      var rest := Wanted(before, after, mine);
      forall i | 0 <= i < |rest|
        ensures rest[i] in log && (e.Item? ==> rest[i].number < e.number)
      {
        assert rest[i] in before;
        var k :| 0 <= k < |before| && before[k] == rest[i];
        assert log[k] == rest[i];
      }
    }
  }

  lemma {:induction false} ReverseMembers<T>(s: seq<T>)
    ensures |Reverse(s)| == |s| && forall x :: x in Reverse(s) <==> x in s
  {
    if s != [] {
      ReverseMembers(s[..|s| - 1]);
      assert s == s[..|s| - 1] + [s[|s| - 1]];
    }
  }

  lemma {:induction false} LastSeqIsMax(after: int, entries: seq<Raw>)
    ensures LastSeq(after, entries) >= after
    ensures forall e :: e in entries && e.Item? ==> e.number <= LastSeq(after, entries)
    ensures var last := LastSeq(after, entries);
            last == after || exists e :: e in entries && e.Item? && e.number == last
  {
    if entries != [] {
      var before, e := entries[..|entries| - 1], entries[|entries| - 1];
      LastSeqIsMax(after, before);
      assert entries == before + [e];
    }
  }

  /** The reply is the newest pending entries, oldest first, and the new cursor is the number of the last
      one, or the old cursor when there is none. */
  lemma PollReply(w: World, mine: string, limit: int)
    requires LogInv(w.s) && 0 <= w.cursor <= w.s.counter
    ensures var entries := TakeLast(Pending(w, mine), limit);
            var w' := Step(w, mine, Poll(limit));
            && w'.seen == w.seen + entries && Ascending(entries)
            && w'.cursor == (if entries == [] then w.cursor else entries[|entries| - 1].number)
  {
    var entries := Reply(w.s.log, w.s.counter, w.cursor, limit, mine);
    ReplyIsSimpleRead(w.s.log, w.s.counter, w.cursor, limit, mine);
    WantedAscends(w.s.log, w.cursor, mine);
    if !(w.s.counter > 0 && w.cursor >= w.s.counter) {
      CursorOfCollected(Collect(w.s.log, w.cursor, mine, limit, []), w.cursor);
    }
  }

  lemma CursorOfCollected(collected: seq<Raw>, after: int)
    requires Ascending(Reverse(collected))
    requires forall i :: 0 <= i < |Reverse(collected)| ==> Reverse(collected)[i].number > after
    ensures var entries := Reverse(collected);
            LastSeq(after, collected) == if entries == [] then after else entries[|entries| - 1].number
  {
    var entries := Reverse(collected);
    ReverseMembers(collected);
    LastSeqIsMax(after, collected);
    forall e | e in entries
      ensures e.Item? && after < e.number <= LastSeq(after, collected)
    {
      var k :| 0 <= k < |entries| && entries[k] == e;
    }
    CursorIsLast(entries, after, LastSeq(after, collected));
  }

  lemma CursorIsLast(entries: seq<Raw>, after: int, last: int)
    requires Ascending(entries) && last >= after
    requires forall e :: e in entries ==> e.Item? && after < e.number <= last
    requires last == after || exists e :: e in entries && e.Item? && e.number == last
    ensures last == if entries == [] then after else entries[|entries| - 1].number
  {
    if entries != [] {
      assert entries[|entries| - 1] in entries;
      var e :| e in entries && e.Item? && e.number == last;
    }
  }

  // ----- never twice -----

  predicate ClientInv(w: World, mine: string) {
    && LogInv(w.s) && 0 <= w.cursor <= w.s.counter
    && Ascending(w.seen)
    && (w.seen != [] ==> w.seen[|w.seen| - 1].number <= w.cursor)
  }

  /** All of the entries are above `low` and none is above `high`. */
  predicate Between(entries: seq<Raw>, low: int, high: int) {
    forall i :: 0 <= i < |entries| ==> entries[i].Item? && low < entries[i].number <= high
  }

  lemma PendingInRange(w: World, mine: string)
    requires LogInv(w.s)
    ensures Between(Pending(w, mine), w.cursor, w.s.counter)
  {
    WantedAscends(w.s.log, w.cursor, mine);
    var pending := Pending(w, mine);
    forall i | 0 <= i < |pending|
      ensures w.cursor < pending[i].number <= w.s.counter
    {
      assert pending[i] in w.s.log;
      var k :| 0 <= k < |w.s.log| && w.s.log[k] == pending[i];
    }
  }

  lemma ClientInvPoll(w: World, mine: string, limit: int)
    requires ClientInv(w, mine)
    ensures ClientInv(Step(w, mine, Poll(limit)), mine)
  {
    PollReply(w, mine, limit);
    PendingInRange(w, mine);
    ShowMore(w, Step(w, mine, Poll(limit)), mine, TakeLast(Pending(w, mine), limit));
  }

  lemma ShowMore(w: World, w': World, mine: string, entries: seq<Raw>)
    requires ClientInv(w, mine) && w'.s == w.s
    requires w'.seen == w.seen + entries && Ascending(entries) && Between(entries, w.cursor, w.s.counter)
    requires w'.cursor == if entries == [] then w.cursor else entries[|entries| - 1].number
    ensures ClientInv(w', mine)
  {
  }

  lemma {:induction false} ClientInvAlways(mine: string, events: seq<Event>)
    ensures ClientInv(Run(mine, events), mine)
  {
    if events != [] {
      var w, e := Run(mine, events[..|events| - 1]), events[|events| - 1];
      ClientInvAlways(mine, events[..|events| - 1]);
      LogInvStep(w, mine, e);
      if e.Poll? {
        ClientInvPoll(w, mine, e.limit);
      }
    }
  }

  /** Over every run of appends, trims, prunes, clears and polls, the numbers in the log strictly increase
      and the client is shown entries in strictly increasing order: never one twice. */
  lemma NeverTwice(mine: string, events: seq<Event>)
    ensures var w := Run(mine, events);
            && Increasing(w.s.log)
            && forall i, j :: 0 <= i < j < |w.seen| ==>
                 w.seen[i].Item? && w.seen[j].Item? && w.seen[i].number < w.seen[j].number
  {
    ClientInvAlways(mine, events);
  }

  // ----- nothing missed -----

  /** The entry a push adds to what the client is to be shown. */
  function Arrival(w: World, mine: string, e: Event): seq<Raw> {
    if e.Push? && (mine == "" || e.tenant == mine) then [Number(w.s, e.tenant, e.stamp, e.text)] else []
  }

  /** No trim, prune or clear removes a pending entry, and each poll's limit covers what is pending. */
  predicate Calm(mine: string, events: seq<Event>) {
    if events == [] then true
    else
      var before, e := events[..|events| - 1], events[|events| - 1];
      var w := Run(mine, before);
      Calm(mine, before) && CalmStep(w, mine, e)
  }

  /** The step takes nothing from the client. */
  predicate CalmStep(w: World, mine: string, e: Event) {
    match e
    case Poll(limit) => |Pending(w, mine)| <= limit
    case Push(_, _, _) => true
    case Garbage(_) => true
    case _ => Pending(Step(w, mine, e), mine) == Pending(w, mine)
  }

  /** A push makes exactly its own entry pending, if it concerns the client; garbage makes nothing pending. */
  lemma ArrivalBecomesPending(w: World, mine: string, e: Event)
    requires ClientInv(w, mine) && (e.Push? || e.Garbage?)
    ensures Pending(Step(w, mine, e), mine) == Pending(w, mine) + Arrival(w, mine, e)
  {
    var log, log' := w.s.log, Step(w, mine, e).s.log;
    if |log'| > |log| {
      assert log'[..|log|] == log;
    }
  }

  /** After a poll nothing is pending: what the limit cut off is never shown. */
  lemma NothingPendingAfterPoll(w: World, mine: string, limit: int)
    requires ClientInv(w, mine) && limit >= 1
    ensures Pending(Step(w, mine, Poll(limit)), mine) == []
  {
    PollReply(w, mine, limit);
    CursorPassesPending(w, Step(w, mine, Poll(limit)).cursor, mine, limit);
  }

  lemma CursorPassesPending(w: World, cursor: int, mine: string, limit: int)
    requires LogInv(w.s) && limit >= 1
    requires Ascending(TakeLast(Pending(w, mine), limit))
    requires var entries := TakeLast(Pending(w, mine), limit);
             cursor == if entries == [] then w.cursor else entries[|entries| - 1].number
    ensures Wanted(w.s.log, cursor, mine) == []
  {
    var pending := Pending(w, mine);
    WantedAscends(w.s.log, w.cursor, mine);
    PendingInRange(w, mine);
    forall e | e in pending
      ensures e.number <= cursor
    {
      var k :| 0 <= k < |pending| && pending[k] == e;
    }
    NothingAbove(w.s.log, w.cursor, cursor, mine);
  }

  lemma NothingAbove(log: seq<Raw>, after: int, top: int, mine: string)
    requires forall e :: e in Wanted(log, after, mine) ==> e.Item? && e.number <= top
    requires after <= top
    ensures Wanted(log, top, mine) == []
  {
    SomethingWanted(log, top, mine);
    forall i | 0 <= i < |log| && Matches(log[i], mine)
      ensures log[i].number <= top
    {
      if log[i].number > after {
        InWanted(log, after, mine, i);
      }
    }
  }

  lemma {:induction false} InWanted(log: seq<Raw>, after: int, mine: string, i: nat)
    requires i < |log| && Matches(log[i], mine) && log[i].number > after
    ensures log[i] in Wanted(log, after, mine)
  {
    if i < |log| - 1 {
      InWanted(log[..|log| - 1], after, mine, i);
    }
  }

  /** A poll shows everything pending, and so loses nothing, exactly when the limit covers it; it loses
      the oldest `|pending| - limit` otherwise. */
  lemma PollLosesBeyondLimit(w: World, mine: string, limit: int)
    requires ClientInv(w, mine) && limit >= 1
    ensures var w' := Step(w, mine, Poll(limit));
            && (w'.seen == w.seen + Pending(w, mine) <==> |Pending(w, mine)| <= limit)
            && |w.seen| + |Pending(w, mine)| - |w'.seen| == Max(0, |Pending(w, mine)| - limit)
            && Pending(w', mine) == []
  {
    PollReply(w, mine, limit);
    NothingPendingAfterPoll(w, mine, limit);
  }

  /** The appended entries that concern the client. */
  function Concerning(pushed: seq<Raw>, mine: string): seq<Raw> {
    Filter(pushed, (e: Raw) => Matches(e, mine))
  }

  lemma {:induction false} SeenPlusPending(mine: string, events: seq<Event>)
    requires Calm(mine, events)
    ensures var w := Run(mine, events); w.seen + Pending(w, mine) == Concerning(w.pushed, mine)
  {
    if events != [] {
      var before, e := events[..|events| - 1], events[|events| - 1];
      var w := Run(mine, before);
      SeenPlusPending(mine, before);
      if e.Poll? {
        PollKeepsAll(w, mine, before, e.limit);
      } else {
        var w' := Step(w, mine, e);
        if e.Push? || e.Garbage? {
          ClientInvAlways(mine, before);
          ArrivalBecomesPending(w, mine, e);
        }
        Append3(w.seen, Pending(w, mine), Arrival(w, mine, e));
        if e.Push? {
          assert w'.pushed[..|w.pushed|] == w.pushed;
        }
      }
    }
  }

  lemma Append3<T>(a: seq<T>, b: seq<T>, c: seq<T>)
    ensures a + (b + c) == a + b + c
    ensures a + b + [] == a + b
  {
  }

  lemma PollKeepsAll(w: World, mine: string, before: seq<Event>, limit: int)
    requires w == Run(mine, before) && |Pending(w, mine)| <= limit
    ensures var w' := Step(w, mine, Poll(limit)); w'.seen + Pending(w', mine) == w.seen + Pending(w, mine)
  {
    var w' := Step(w, mine, Poll(limit));
    ClientInvAlways(mine, before);
    PollReply(w, mine, limit);
    assert TakeLast(Pending(w, mine), limit) == Pending(w, mine);
    if limit >= 1 {
      NothingPendingAfterPoll(w, mine, limit);
      Append3(w.seen, Pending(w, mine), []);
    } else {
      EmptyPoll(w, w', mine);
    }
  }

  lemma EmptyPoll(w: World, w': World, mine: string)
    requires w'.s == w.s && w'.cursor == w.cursor && w'.seen == w.seen + []
    ensures w'.seen + Pending(w', mine) == w.seen + Pending(w, mine)
  {
    assert w'.seen == w.seen;
  }

  /** When no pending entry is removed and every poll's limit covers the arrivals since the last, a client
      that has just polled has been shown exactly the entries that concern it, all of them, in order. */
  lemma NothingMissed(mine: string, events: seq<Event>, limit: int)
    requires limit >= 1 && Calm(mine, events + [Poll(limit)])
    ensures var w := Run(mine, events + [Poll(limit)]); w.seen == Concerning(w.pushed, mine)
  {
    assert (events + [Poll(limit)])[..|events|] == events;
    SeenPlusPending(mine, events + [Poll(limit)]);
    ClientInvAlways(mine, events);
    NothingPendingAfterPoll(Run(mine, events), mine, limit);
  }

  // ----- what is lost otherwise -----

  lemma {:induction false} WantedConcat(a: seq<Raw>, b: seq<Raw>, after: int, mine: string)
    ensures Wanted(a + b, after, mine) == Wanted(a, after, mine) + Wanted(b, after, mine)
  {
    if b == [] {
      assert a + b == a;
    } else {
      WantedConcat(a, b[..|b| - 1], after, mine);
      assert (a + b)[..|a + b| - 1] == a + b[..|b| - 1];
    }
  }

  /** Cutting off the front takes pending entries away, unless it leaves them all. */
  lemma WantedOfSuffix(log: seq<Raw>, k: nat, after: int, mine: string)
    requires k <= |log|
    ensures |Wanted(log[k..], after, mine)| <= |Wanted(log, after, mine)|
    ensures |Wanted(log[k..], after, mine)| == |Wanted(log, after, mine)| ==>
              Wanted(log[k..], after, mine) == Wanted(log, after, mine)
  {
    WantedConcat(log[..k], log[k..], after, mine);
    assert log[..k] + log[k..] == log;
  }

  /** So does filtering. */
  lemma {:induction false} WantedOfFilter(log: seq<Raw>, keep: Raw -> bool, after: int, mine: string)
    ensures |Wanted(Filter(log, keep), after, mine)| <= |Wanted(log, after, mine)|
    ensures |Wanted(Filter(log, keep), after, mine)| == |Wanted(log, after, mine)| ==>
              Wanted(Filter(log, keep), after, mine) == Wanted(log, after, mine)
  {
    if log != [] {
      var before, e := log[..|log| - 1], log[|log| - 1];
      WantedOfFilter(before, keep, after, mine);
      WantedSnoc(before, e, after, mine);
      assert before + [e] == log;
      if keep(e) {
        WantedSnoc(Filter(before, keep), e, after, mine);
      }
    }
  }

  lemma WantedSnoc(log: seq<Raw>, e: Raw, after: int, mine: string)
    ensures Wanted(log + [e], after, mine) ==
              Wanted(log, after, mine) + if Matches(e, mine) && e.number > after then [e] else []
  {
    assert (log + [e])[..|log|] == log;
  }

  /** A trim, prune or clear. */
  predicate Removes(e: Event) {
    e.TrimTo? || e.PopOld? || e.DropOld? || e.DropTenant?
  }

  lemma RemovalTakesPending(w: World, mine: string, e: Event)
    requires Removes(e)
    ensures var w' := Step(w, mine, e);
            && |Pending(w', mine)| <= |Pending(w, mine)|
            && (|Pending(w', mine)| == |Pending(w, mine)| ==> Pending(w', mine) == Pending(w, mine))
  {
    match e
    case TrimTo(max) => WantedOfSuffix(w.s.log, Max(0, |w.s.log| - max), w.cursor, mine);
    case PopOld(cutoff) =>
      var k := PopIsSuffix(w.s.log, cutoff);
      WantedOfSuffix(w.s.log, k, w.cursor, mine);
    case DropOld(cutoff) => WantedOfFilter(w.s.log, (r: Raw) => IsFresh(r, cutoff), w.cursor, mine);
    case DropTenant(t) => WantedOfFilter(w.s.log, (r: Raw) => !(r.Item? && r.tenant == t), w.cursor, mine);
  }

  /** How many entries that concern the client it has not been shown and never will be. */
  function Lost(w: World, mine: string): int {
    |Concerning(w.pushed, mine)| - |w.seen| - |Pending(w, mine)|
  }

  lemma ConcerningPush(w: World, mine: string, e: Event)
    requires e.Push? || e.Garbage?
    ensures Concerning(Step(w, mine, e).pushed, mine) == Concerning(w.pushed, mine) + Arrival(w, mine, e)
    ensures Step(w, mine, e).seen == w.seen
  {
    if e.Push? {
      assert Step(w, mine, e).pushed[..|w.pushed|] == w.pushed;
    }
  }

  /** Each step loses nothing if it is calm and something if it is not. */
  lemma LostStep(w: World, mine: string, e: Event)
    requires ClientInv(w, mine) && (e.Poll? ==> e.limit >= 1)
    ensures var lost := Lost(Step(w, mine, e), mine) - Lost(w, mine);
            if CalmStep(w, mine, e) then lost == 0 else lost > 0
  {
    if e.Poll? {
      PollLosesBeyondLimit(w, mine, e.limit);
    } else if Removes(e) {
      RemovalTakesPending(w, mine, e);
    } else {
      ArrivalBecomesPending(w, mine, e);
      ConcerningPush(w, mine, e);
    }
  }

  lemma {:induction false} LostIff(mine: string, events: seq<Event>)
    requires forall i :: 0 <= i < |events| && events[i].Poll? ==> events[i].limit >= 1
    ensures Lost(Run(mine, events), mine) >= 0
    ensures Lost(Run(mine, events), mine) == 0 <==> Calm(mine, events)
  {
    if events != [] {
      LostIff(mine, events[..|events| - 1]);
      ClientInvAlways(mine, events[..|events| - 1]);
      LostStep(Run(mine, events[..|events| - 1]), mine, events[|events| - 1]);
    }
  }

  /** Over every run whose polls ask for something, what the client has been shown and what is pending are exactly the
      entries that concern it if and only if nothing pending is removed and every limit covers what is pending. */
  lemma NothingMissedIff(mine: string, events: seq<Event>)
    requires forall i :: 0 <= i < |events| && events[i].Poll? ==> events[i].limit >= 1
    ensures var w := Run(mine, events);
            w.seen + Pending(w, mine) == Concerning(w.pushed, mine) <==> Calm(mine, events)
  {
    LostIff(mine, events);
    if Calm(mine, events) {
      SeenPlusPending(mine, events);
    }
  }
}
