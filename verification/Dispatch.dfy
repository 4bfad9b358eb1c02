/** How one tenant's batch is cut into queue messages (app/tasks/backups.py, run_scheduled_backups): one message a
    device for the direct and jump routes, one a group for the VPN route. Devices are numbered in the order of
    their identifiers. */
module Dispatch {
  import opened Routing

  datatype Job =
    | DirectJob(device: nat)
    | JumpJob(device: nat)
    | VpnJob(group: nat, tenant: nat, devices: seq<nat>)

  /** The devices to back up over one group's VPN. */
  datatype Entry = Entry(group: nat, devices: seq<nat>)

  datatype Due = Due(direct: seq<nat>, jump: seq<nat>, groups: seq<Entry>)

  const NOTHING_DUE := Due([], [], [])

  /** A dictionary of lists in order of insertion: appends to the group's list, new at the end. */
  function AddToGroup(entries: seq<Entry>, group: nat, device: nat): seq<Entry> {
    if entries == [] then [Entry(group, [device])]
    else if entries[0].group == group then
      [Entry(group, entries[0].devices + [device])] + entries[1..]
    else [entries[0]] + AddToGroup(entries[1..], group, device)
  }

  function AddDue(due: Due, device: nat, route: Route): Due {
    match route
    case ToVpnGroup(g) => due.(groups := AddToGroup(due.groups, g, device))
    case ToJumpHost => due.(jump := due.jump + [device])
    case ToDirect => due.(direct := due.direct + [device])
  }

  function RouteAll(devices: seq<nat>, route: nat -> Route): Due {
    if devices == [] then NOTHING_DUE
    else
      var device := devices[|devices| - 1];
      AddDue(RouteAll(devices[..|devices| - 1], route), device, route(device))
  }

  // ----- sorted(set(...)) -----

  predicate Ascending(s: seq<nat>) {
    forall i, j :: 0 <= i < j < |s| ==> s[i] < s[j]
  }

  function Insert(sorted: seq<nat>, x: nat): (r: seq<nat>)
    requires Ascending(sorted)
    ensures Ascending(r) && forall y :: y in r <==> y in sorted || y == x
  {
    if sorted == [] then [x]
    else
      var last, before := sorted[|sorted| - 1], sorted[..|sorted| - 1];
      if x > last then sorted + [x]
      else if x == last then sorted
      else
        var r := Insert(before, x);
        assert sorted == before + [last];
        assert forall y :: y in before ==> y < last;
        assert forall i :: 0 <= i < |r| ==> r[i] in r;
        r + [last]
  }

  function SortedSet(s: seq<nat>): (r: seq<nat>)
    ensures Ascending(r) && forall y :: y in r <==> y in s
  {
    if s == [] then []
    else
      assert s == s[..|s| - 1] + [s[|s| - 1]];
      Insert(SortedSet(s[..|s| - 1]), s[|s| - 1])
  }

  /** Nothing is lost or moved if the list is already strictly ascending. */
  lemma {:induction false} SortedSetFixed(s: seq<nat>)
    requires Ascending(s)
    ensures SortedSet(s) == s
  {
    if s != [] {
      SortedSetFixed(s[..|s| - 1]);
      assert s == s[..|s| - 1] + [s[|s| - 1]];
    }
  }

  // ----- messages -----

  lemma Snoc<T>(s: seq<T>)
    requires s != []
    ensures s == s[..|s| - 1] + [s[|s| - 1]]
    ensures multiset(s) == multiset(s[..|s| - 1]) + multiset{s[|s| - 1]}
  {
    assert s == s[..|s| - 1] + [s[|s| - 1]];
  }

  function DirectJobs(devices: seq<nat>): seq<Job> {
    if devices == [] then [] else DirectJobs(devices[..|devices| - 1]) + [DirectJob(devices[|devices| - 1])]
  }

  function JumpJobs(devices: seq<nat>): seq<Job> {
    if devices == [] then [] else JumpJobs(devices[..|devices| - 1]) + [JumpJob(devices[|devices| - 1])]
  }

  /** A group whose list is empty gets no message. */
  function VpnJobs(tenant: nat, entries: seq<Entry>): seq<Job> {
    if entries == [] then []
    else
      var rest, e := VpnJobs(tenant, entries[..|entries| - 1]), entries[|entries| - 1];
      if SortedSet(e.devices) == [] then rest else rest + [VpnJob(e.group, tenant, SortedSet(e.devices))]
  }

  function JobsOf(tenant: nat, due: Due): seq<Job> {
    DirectJobs(due.direct) + JumpJobs(due.jump) + VpnJobs(tenant, due.groups)
  }

  /** The messages of one tenant's batch. */
  function BatchJobs(tenant: nat, eligible: seq<nat>, route: nat -> Route): seq<Job> {
    JobsOf(tenant, RouteAll(eligible, route))
  }

  // ----- which devices a message reaches -----

  function Reached(job: Job): multiset<nat> {
    match job
    case DirectJob(d) => multiset{d}
    case JumpJob(d) => multiset{d}
    case VpnJob(_, _, devices) => multiset(devices)
  }

  function AllReached(jobs: seq<Job>): multiset<nat> {
    if jobs == [] then multiset{} else AllReached(jobs[..|jobs| - 1]) + Reached(jobs[|jobs| - 1])
  }

  lemma {:induction false} ReachedConcat(a: seq<Job>, b: seq<Job>)
    ensures AllReached(a + b) == AllReached(a) + AllReached(b)
  {
    if b == [] {
      assert a + b == a;
    } else {
      var before, job := b[..|b| - 1], b[|b| - 1];
      ReachedConcat(a, before);
      assert (a + b)[..|a + b| - 1] == a + before;
      Assoc(AllReached(a), AllReached(before), Reached(job));
    }
  }

  lemma Assoc(a: multiset<nat>, b: multiset<nat>, c: multiset<nat>)
    ensures a + b + c == a + (b + c)
  {
  }

  lemma {:induction false} DirectReached(devices: seq<nat>)
    ensures AllReached(DirectJobs(devices)) == multiset(devices) && |DirectJobs(devices)| == |devices|
  {
    if devices != [] {
      DirectReached(devices[..|devices| - 1]);
      Snoc(devices);
    }
  }

  lemma {:induction false} JumpReached(devices: seq<nat>)
    ensures AllReached(JumpJobs(devices)) == multiset(devices) && |JumpJobs(devices)| == |devices|
  {
    if devices != [] {
      JumpReached(devices[..|devices| - 1]);
      Snoc(devices);
    }
  }

  // ----- what the routing loop keeps -----

  function Grouped(entries: seq<Entry>): multiset<nat> {
    if entries == [] then multiset{} else multiset(entries[0].devices) + Grouped(entries[1..])
  }

  function GroupSizes(entries: seq<Entry>): nat {
    if entries == [] then 0 else |entries[0].devices| + GroupSizes(entries[1..])
  }

  /** An entry as the loop builds it: devices of that group's VPN only, in order, none above `bound`, at least one. */
  predicate GoodEntry(e: Entry, route: nat -> Route, bound: int) {
    && e.devices != [] && Ascending(e.devices)
    && forall d :: d in e.devices ==> d <= bound && route(d) == ToVpnGroup(e.group)
  }

  predicate GoodEntries(entries: seq<Entry>, route: nat -> Route, bound: int) {
    forall i :: 0 <= i < |entries| ==> GoodEntry(entries[i], route, bound)
  }

  predicate DistinctGroups(entries: seq<Entry>) {
    forall i, j :: 0 <= i < j < |entries| ==> entries[i].group != entries[j].group
  }

  function Extended(e: Entry, device: nat): Entry {
    e.(devices := e.devices + [device])
  }

  /** The group's first entry is extended, or a new one stands last. */
  predicate AddedAt(entries: seq<Entry>, r: seq<Entry>, group: nat, device: nat, k: nat) {
    && k <= |entries| && (forall i :: 0 <= i < k ==> entries[i].group != group)
    && if k == |entries| then r == entries + [Entry(group, [device])]
       else entries[k].group == group && r == entries[k := Extended(entries[k], device)]
  }

  lemma {:induction false} AddToGroupAt(entries: seq<Entry>, group: nat, device: nat) returns (k: nat)
    ensures AddedAt(entries, AddToGroup(entries, group, device), group, device, k)
  {
    k := 0;
    if entries != [] && entries[0].group != group {
      var j := AddToGroupAt(entries[1..], group, device);
      AddedLater(entries[0], entries[1..], AddToGroup(entries[1..], group, device), group, device, j);
      assert entries == [entries[0]] + entries[1..];
      k := j + 1;
    }
  }

  lemma AddedLater(e: Entry, entries: seq<Entry>, r: seq<Entry>, group: nat, device: nat, k: nat)
    requires AddedAt(entries, r, group, device, k) && e.group != group
    ensures AddedAt([e] + entries, [e] + r, group, device, k + 1)
  {
  }

  lemma {:induction false} AddToGroupCounts(entries: seq<Entry>, group: nat, device: nat)
    ensures Grouped(AddToGroup(entries, group, device)) == Grouped(entries) + multiset{device}
    ensures GroupSizes(AddToGroup(entries, group, device)) == GroupSizes(entries) + 1
  {
    if entries != [] {
      var e := entries[0];
      AddToGroupCounts(entries[1..], group, device);
      var rest := AddToGroup(entries[1..], group, device);
      assert ([e] + rest)[1..] == rest && ([Extended(e, device)] + entries[1..])[1..] == entries[1..];
      Snoc(e.devices + [device]);
    }
  }

  lemma ExtendedIsGood(e: Entry, device: nat, route: nat -> Route, bound: int)
    requires GoodEntry(e, route, bound) && bound < device && route(device) == ToVpnGroup(e.group)
    ensures GoodEntry(Extended(e, device), route, device)
  {
    assert forall i :: 0 <= i < |e.devices| ==> e.devices[i] in e.devices;
  }

  lemma NewIsGood(group: nat, device: nat, route: nat -> Route)
    requires route(device) == ToVpnGroup(group)
    ensures GoodEntry(Entry(group, [device]), route, device)
  {
  }

  lemma GoodLater(entries: seq<Entry>, route: nat -> Route, bound: int, device: nat)
    requires GoodEntries(entries, route, bound) && bound < device
    ensures GoodEntries(entries, route, device)
  {
    forall i | 0 <= i < |entries|
      ensures GoodEntry(entries[i], route, device)
    {
      assert GoodEntry(entries[i], route, bound);
    }
  }

  lemma AddToGroupKeeps(entries: seq<Entry>, group: nat, device: nat, route: nat -> Route, bound: int)
    requires GoodEntries(entries, route, bound) && DistinctGroups(entries)
    requires route(device) == ToVpnGroup(group) && bound < device
    ensures var r := AddToGroup(entries, group, device); GoodEntries(r, route, device) && DistinctGroups(r)
  {
    var k := AddToGroupAt(entries, group, device);
    GoodLater(entries, route, bound, device);
    NewIsGood(group, device, route);
    if k < |entries| {
      ExtendedIsGood(entries[k], device, route, bound);
    }
    AddedKeeps(entries, AddToGroup(entries, group, device), group, device, k, route);
  }

  lemma AddedKeeps(entries: seq<Entry>, r: seq<Entry>, group: nat, device: nat, k: nat, route: nat -> Route)
    requires GoodEntries(entries, route, device) && DistinctGroups(entries) && AddedAt(entries, r, group, device, k)
    requires if k < |entries| then GoodEntry(Extended(entries[k], device), route, device)
             else GoodEntry(Entry(group, [device]), route, device)
    ensures GoodEntries(r, route, device) && DistinctGroups(r)
  {
    if k < |entries| {
      assert forall i :: 0 <= i < |r| ==> r[i].group == entries[i].group;
    }
    forall i | 0 <= i < |r|
      ensures GoodEntry(r[i], route, device)
    {
      if i != k {
        assert r[i] == entries[i];
      }
    }
  }

  predicate RoutedAs(devices: seq<nat>, route: nat -> Route, to: Route) {
    forall d :: d in devices ==> route(d) == to
  }

  function Counted(due: Due): multiset<nat> {
    multiset(due.direct) + multiset(due.jump) + Grouped(due.groups)
  }

  function Size(due: Due): nat {
    |due.direct| + |due.jump| + GroupSizes(due.groups)
  }

  lemma AddDueCounts(due: Due, device: nat, route: Route)
    ensures Counted(AddDue(due, device, route)) == Counted(due) + multiset{device}
    ensures Size(AddDue(due, device, route)) == Size(due) + 1
  {
    match route
    case ToVpnGroup(g) => AddToGroupCounts(due.groups, g, device);
    case ToJumpHost => Snoc(due.jump + [device]);
    case ToDirect => Snoc(due.direct + [device]);
  }

  /** Routing loses no device and repeats none. */
  lemma {:induction false} RouteAllCounts(devices: seq<nat>, route: nat -> Route)
    ensures Counted(RouteAll(devices, route)) == multiset(devices) && Size(RouteAll(devices, route)) == |devices|
  {
    if devices != [] {
      var before, device := devices[..|devices| - 1], devices[|devices| - 1];
      RouteAllCounts(before, route);
      AddDueCounts(RouteAll(before, route), device, route(device));
      Snoc(devices);
    }
  }

  /** Every list holds only devices of its own route. */
  predicate Sorted(due: Due, route: nat -> Route, bound: int) {
    && RoutedAs(due.direct, route, ToDirect) && RoutedAs(due.jump, route, ToJumpHost)
    && GoodEntries(due.groups, route, bound) && DistinctGroups(due.groups)
  }

  lemma AddDueSorted(due: Due, device: nat, route: nat -> Route, bound: int)
    requires Sorted(due, route, bound) && bound < device
    ensures Sorted(AddDue(due, device, route(device)), route, device)
  {
    match route(device)
    case ToVpnGroup(g) => AddToGroupKeeps(due.groups, g, device, route, bound);
    case ToJumpHost => GoodLater(due.groups, route, bound, device);
    case ToDirect => GoodLater(due.groups, route, bound, device);
  }

  function Last(devices: seq<nat>): int {
    if devices == [] then -1 else devices[|devices| - 1]
  }

  lemma {:induction false} RouteAllSorted(devices: seq<nat>, route: nat -> Route)
    requires Ascending(devices)
    ensures Sorted(RouteAll(devices, route), route, Last(devices))
  {
    if devices != [] {
      var before, device := devices[..|devices| - 1], devices[|devices| - 1];
      RouteAllSorted(before, route);
      AddDueSorted(RouteAll(before, route), device, route, Last(before));
    }
  }

  // ----- the messages reach what was routed -----

  lemma {:induction false} GroupedSnoc(entries: seq<Entry>, e: Entry)
    ensures Grouped(entries + [e]) == Grouped(entries) + multiset(e.devices)
  {
    if entries != [] {
      GroupedSnoc(entries[1..], e);
      assert (entries + [e])[1..] == entries[1..] + [e];
    } else {
      assert ([e])[1..] == [];
    }
  }

  lemma VpnJobsSnoc(tenant: nat, entries: seq<Entry>, route: nat -> Route, bound: int)
    requires entries != [] && GoodEntry(entries[|entries| - 1], route, bound)
    ensures var e := entries[|entries| - 1];
            VpnJobs(tenant, entries) == VpnJobs(tenant, entries[..|entries| - 1]) + [VpnJob(e.group, tenant, e.devices)]
  {
    SortedSetFixed(entries[|entries| - 1].devices);
  }

  lemma ReachedSnoc(jobs: seq<Job>, job: Job)
    ensures AllReached(jobs + [job]) == AllReached(jobs) + Reached(job)
  {
    assert (jobs + [job])[..|jobs|] == jobs;
  }

  lemma {:induction false} VpnReached(tenant: nat, entries: seq<Entry>, route: nat -> Route, bound: int)
    requires GoodEntries(entries, route, bound)
    ensures AllReached(VpnJobs(tenant, entries)) == Grouped(entries) && |VpnJobs(tenant, entries)| == |entries|
  {
    if entries != [] {
      var before, e := entries[..|entries| - 1], entries[|entries| - 1];
      VpnReached(tenant, before, route, bound);
      VpnJobsSnoc(tenant, entries, route, bound);
      ReachedSnoc(VpnJobs(tenant, before), VpnJob(e.group, tenant, e.devices));
      GroupedSnoc(before, e);
      Snoc(entries);
    }
  }

  /** Message `job` is on the route of every device it reaches. */
  predicate OnRoute(job: Job, route: nat -> Route) {
    match job
    case DirectJob(d) => route(d) == ToDirect
    case JumpJob(d) => route(d) == ToJumpHost
    case VpnJob(g, _, devices) => devices != [] && forall d :: d in devices ==> route(d) == ToVpnGroup(g)
  }

  predicate AllOnRoute(jobs: seq<Job>, route: nat -> Route) {
    forall i :: 0 <= i < |jobs| ==> OnRoute(jobs[i], route)
  }

  lemma {:induction false} DirectOnRoute(devices: seq<nat>, route: nat -> Route)
    requires RoutedAs(devices, route, ToDirect)
    ensures AllOnRoute(DirectJobs(devices), route)
  {
    if devices != [] {
      DirectOnRoute(devices[..|devices| - 1], route);
    }
  }

  lemma {:induction false} JumpOnRoute(devices: seq<nat>, route: nat -> Route)
    requires RoutedAs(devices, route, ToJumpHost)
    ensures AllOnRoute(JumpJobs(devices), route)
  {
    if devices != [] {
      JumpOnRoute(devices[..|devices| - 1], route);
    }
  }

  lemma {:induction false} VpnOnRoute(tenant: nat, entries: seq<Entry>, route: nat -> Route, bound: int)
    requires GoodEntries(entries, route, bound)
    ensures AllOnRoute(VpnJobs(tenant, entries), route)
  {
    if entries != [] {
      VpnOnRoute(tenant, entries[..|entries| - 1], route, bound);
      VpnJobsSnoc(tenant, entries, route, bound);
    }
  }

  /** Every message of the batch is on the route of the devices it reaches, one VPN message a group. */
  lemma BatchOnRoute(tenant: nat, eligible: seq<nat>, route: nat -> Route)
    requires Ascending(eligible)
    ensures AllOnRoute(BatchJobs(tenant, eligible, route), route) && DistinctGroups(RouteAll(eligible, route).groups)
  {
    var due := RouteAll(eligible, route);
    RouteAllSorted(eligible, route);
    DirectOnRoute(due.direct, route);
    JumpOnRoute(due.jump, route);
    VpnOnRoute(tenant, due.groups, route, Last(eligible));
  }

  lemma JobsReached(tenant: nat, due: Due, route: nat -> Route, bound: int)
    requires Sorted(due, route, bound)
    ensures AllReached(JobsOf(tenant, due)) == Counted(due)
    ensures |JobsOf(tenant, due)| == |due.direct| + |due.jump| + |due.groups|
  {
    var a, b, c := DirectJobs(due.direct), JumpJobs(due.jump), VpnJobs(tenant, due.groups);
    DirectReached(due.direct);
    JumpReached(due.jump);
    VpnReached(tenant, due.groups, route, bound);
    ReachedConcat(a, b);
    ReachedConcat(a + b, c);
  }

  /** The batch reaches every eligible device exactly once, and the number of eligible devices is direct plus jump
      plus the sizes of the groups. */
  lemma {:induction false} BatchReachesAll(tenant: nat, eligible: seq<nat>, route: nat -> Route)
    requires Ascending(eligible)
    ensures var due, jobs := RouteAll(eligible, route), BatchJobs(tenant, eligible, route);
            && AllReached(jobs) == multiset(eligible)
            && |eligible| == |due.direct| + |due.jump| + GroupSizes(due.groups)
            && |jobs| == |due.direct| + |due.jump| + |due.groups|
  {
    RouteAllSorted(eligible, route);
    RouteAllCounts(eligible, route);
    JobsReached(tenant, RouteAll(eligible, route), route, Last(eligible));
  }

  lemma {:induction false} OnceInAscending(s: seq<nat>, x: nat)
    requires Ascending(s)
    ensures multiset(s)[x] == if x in s then 1 else 0
  {
    if s != [] {
      OnceInAscending(s[..|s| - 1], x);
      Snoc(s);
    }
  }

  /** A device is in exactly one message, once, if it is eligible and in none otherwise. */
  lemma ReachedExactlyOnce(tenant: nat, eligible: seq<nat>, route: nat -> Route, device: nat)
    requires Ascending(eligible)
    ensures AllReached(BatchJobs(tenant, eligible, route))[device] == if device in eligible then 1 else 0
  {
    BatchReachesAll(tenant, eligible, route);
    OnceInAscending(eligible, device);
  }
}
