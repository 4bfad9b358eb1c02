/** Sessions of several workers over one network manager and one lock file. A connection is cut into cleaning up,
    adding the profile and activating it, and a worker that gave up waiting for the lock takes down and deletes
    profiles one at a time, in between anybody's steps. The owner's own cleaning up is one step: it only deletes, and
    so do the commands that can come in between. */
module VpnWorkers {
  import opened Basics
  import opened Folds
  import opened VpnSession

  /** Where a worker is. It has the lock from Cleaning to Unlocking. */
  datatype Phase =
    | Outside
    | Waiting(group: Group)
    | Cleaning(group: Group)
    | Adding(group: Group)
    | Raising(group: Group)
    | Inside(group: Group)
    | Leaving(group: Group)
    | Unlocking(group: Group)
    | Evicted(group: Group)

  datatype World = World(phases: seq<Phase>, owner: Option<nat>, conns: seq<Conn>)

  datatype Event =
    | Enter(worker: nat, group: Group)
    | Acquire(worker: nat)
    | TimeOut(worker: nat)
    | Clean(worker: nat, ready: bool)
    | Add(worker: nat, added: bool)
    | Raise(worker: nat, up: bool, retried: bool, upAgain: bool)
    | EndBody(worker: nat)
    | DisconnectAll(worker: nat)
    | Release(worker: nat)
    | DropOne(worker: nat, name: string)
    | DropDone(worker: nat)

  function Move(w: World, i: nat, p: Phase, conns: seq<Conn>): World
    requires i < |w.phases|
  {
    World(w.phases[i := p], w.owner, conns)
  }

  /** Activating a profile: it must still be there. */
  function Raised(conns: seq<Conn>, g: Group, e: Event): (seq<Conn>, bool)
    requires e.Raise?
  {
    var uplinked := if !e.up && e.retried then SetState(conns, UPLINK, Activated) else conns;
    if IsVpnName(conns, g.profile) && (e.up || (e.retried && e.upAgain))
    then (SetState(uplinked, g.profile, Activated), true)
    else (CleanProfiles(uplinked, ""), false)
  }

  function Next(w: World, e: Event): World {
    if e.worker >= |w.phases| then w
    else
      match (e, w.phases[e.worker])
      case (Enter(i, g), Outside) => Move(w, i, Waiting(g), w.conns)
      case (Acquire(i), Waiting(g)) =>
        if w.owner.None? then Move(w, i, Cleaning(g), w.conns).(owner := Some(i)) else w
      case (TimeOut(i), Waiting(g)) => Move(w, i, Evicted(g), w.conns)
      case (Clean(i, ready), Cleaning(g)) =>
        if !ready || !g.complete then Move(w, i, Leaving(g), w.conns)
        else Move(w, i, Adding(g), Drop(Drop(CleanProfiles(w.conns, g.profile), g.profile), g.profile))
      case (Add(i, added), Adding(g)) =>
        if added then Move(w, i, Raising(g), w.conns + [Conn(g.profile, true, Inactive)])
        else Move(w, i, Leaving(g), CleanProfiles(w.conns, ""))
      case (Raise(i, _, _, _), Raising(g)) =>
        var (conns, ok) := Raised(w.conns, g, e);
        Move(w, i, if ok then Inside(g) else Leaving(g), conns)
      case (EndBody(i), Inside(g)) => Move(w, i, Leaving(g), w.conns)
      case (DisconnectAll(i), Leaving(g)) => Move(w, i, Unlocking(g), Disconnect(w.conns, g))
      case (Release(i), Unlocking(g)) => Move(w, i, Outside, w.conns).(owner := None)
      case (DropOne(i, name), Evicted(g)) => w.(conns := Drop(w.conns, name))
      case (DropDone(i), Evicted(g)) => Move(w, i, Outside, w.conns)
      case _ => w
  }

  function Run(w: World, events: seq<Event>): World {
    FoldLeft(Next, events, w)
  }

  predicate Begin(w: World) {
    w.owner == None && NoVpns(w.conns) && forall i :: 0 <= i < |w.phases| ==> w.phases[i] == Outside
  }

  predicate VpnGroup(g: Group) {
    VpnOn(g) && g.profile != ""
  }

  predicate VpnGroups(events: seq<Event>) {
    forall i :: 0 <= i < |events| ==> events[i].Enter? ==> VpnGroup(events[i].group)
  }

  /** A worker that gave up deletes the profile of another that is in its body. */
  predicate Disturbs(w: World, e: Event) {
    && e.DropOne? && e.worker < |w.phases| && w.phases[e.worker].Evicted?
    && exists j :: 0 <= j < |w.phases| && w.phases[j].Inside? && w.phases[j].group.profile == e.name
  }

  /** Some worker is in its session's body without its profile being the only VPN, activated. */
  predicate Broken(w: World) {
    exists i :: 0 <= i < |w.phases| && w.phases[i].Inside? && !OnlyVpn(w.conns, w.phases[i].group.profile)
  }

  // ----- what dropping one profile keeps -----

  predicate NoneNamed(conns: seq<Conn>, name: string) {
    forall i :: 0 <= i < |conns| ==> conns[i].name != name
  }

  lemma DropKept(conns: seq<Conn>, name: string, i: nat)
    requires i < |Drop(conns, name)|
    ensures Drop(conns, name)[i] in conns && Drop(conns, name)[i].name != name
  {
    DropMembers(conns, name, Drop(conns, name)[i]);
  }

  lemma DropKeeps(conns: seq<Conn>, name: string, profile: string)
    ensures NoVpns(conns) ==> NoVpns(Drop(conns, name))
    ensures NoneNamed(conns, profile) ==> NoneNamed(Drop(conns, name), profile)
    ensures OnlyNamed(conns, profile) ==> OnlyNamed(Drop(conns, name), profile)
  {
    var r := Drop(conns, name);
    forall i | 0 <= i < |r|
      ensures r[i] in conns
    {
      DropKept(conns, name, i);
    }
  }

  /** Dropping a profile leaves the only VPN the only one exactly when it is another profile. */
  lemma DropKeepsOnlyIff(conns: seq<Conn>, name: string, profile: string)
    requires OnlyVpn(conns, profile)
    ensures OnlyVpn(Drop(conns, name), profile) <==> name != profile
  {
    var r := Drop(conns, name);
    forall i | 0 <= i < |r|
      ensures r[i] in conns && r[i].name != name
    {
      DropKept(conns, name, i);
    }
    var mine := Conn(profile, true, Activated);
    DropMembers(conns, name, mine);
    if name != profile {
      assert mine in r;
    }
  }

  // ----- what activating leaves -----

  lemma RaiseIsOnly(conns: seq<Conn>, profile: string)
    requires OnlyNamed(conns, profile) && IsVpnName(conns, profile)
    ensures OnlyVpn(SetState(conns, profile, Activated), profile)
  {
    SetStateKeeps(conns, profile, Activated);
    var k :| 0 <= k < |conns| && conns[k].name == profile && conns[k].vpn;
    assert SetState(conns, profile, Activated)[k] == Conn(profile, true, Activated);
  }

  lemma UplinkKeeps(conns: seq<Conn>, profile: string)
    ensures OnlyNamed(conns, profile) ==> OnlyNamed(SetState(conns, UPLINK, Activated), profile)
    ensures IsVpnName(conns, profile) ==> IsVpnName(SetState(conns, UPLINK, Activated), profile)
  {
    SetStateKeeps(conns, UPLINK, Activated);
    var r := SetState(conns, UPLINK, Activated);
    if IsVpnName(conns, profile) {
      var k :| 0 <= k < |conns| && conns[k].name == profile && conns[k].vpn;
      assert r[k].name == profile && r[k].vpn;
    }
  }

  lemma RaisedResult(conns: seq<Conn>, g: Group, e: Event)
    requires e.Raise? && OnlyNamed(conns, g.profile)
    ensures Raised(conns, g, e).1 ==> OnlyVpn(Raised(conns, g, e).0, g.profile)
  {
    UplinkKeeps(conns, g.profile);
    if Raised(conns, g, e).1 {
      RaiseIsOnly(if !e.up && e.retried then SetState(conns, UPLINK, Activated) else conns, g.profile);
    }
  }

  // ----- the three steps of a connection -----

  /** The profiles and the phase after cleaning up, adding and activating with nobody in between. */
  function ConnectAlone(conns: seq<Conn>, g: Group, a: Answers): (seq<Conn>, bool) {
    if !a.ready || !g.complete then (conns, false)
    else
      var bare := Drop(Drop(CleanProfiles(conns, g.profile), g.profile), g.profile);
      if !a.added then (CleanProfiles(bare, ""), false)
      else Raised(bare + [Conn(g.profile, true, Inactive)], g, Raise(0, a.up, a.retried, a.upAgain))
  }

  /** They are one connection of the service. */
  lemma ConnectAloneIsConnect(conns: seq<Conn>, g: Group, a: Answers)
    requires VpnOn(g)
    ensures var (after, outcome) := Connect(conns, g, a); ConnectAlone(conns, g, a) == (after, outcome == Connected)
  {
    var added := Drop(Drop(CleanProfiles(conns, g.profile), g.profile), g.profile) + [Conn(g.profile, true, Inactive)];
    assert added[|added| - 1] == Conn(g.profile, true, Inactive);
    assert IsVpnName(added, g.profile);
  }

  lemma StepsAreConnectAlone(w: World, i: nat, a: Answers)
    requires i < |w.phases| && w.phases[i].Cleaning?
    ensures var g := w.phases[i].group;
            var end := Next(Next(Next(w, Clean(i, a.ready)), Add(i, a.added)), Raise(i, a.up, a.retried, a.upAgain));
            var (conns, ok) := ConnectAlone(w.conns, g, a);
            end == Move(w, i, if ok then Inside(g) else Leaving(g), conns)
  {
    var g := w.phases[i].group;
    var bare := Drop(Drop(CleanProfiles(w.conns, g.profile), g.profile), g.profile);
    var added := bare + [Conn(g.profile, true, Inactive)];
    MoveTwice(w, i, Adding(g), bare);
    if a.ready && g.complete {
      var cleaned := Next(w, Clean(i, true));
      assert cleaned == Move(w, i, Adding(g), bare);
      if a.added {
        assert Next(cleaned, Add(i, true)) == Move(w, i, Raising(g), added);
        MoveTwice(w, i, Raising(g), added);
      }
    }
  }

  lemma MoveTwice(w: World, i: nat, p: Phase, conns: seq<Conn>)
    requires i < |w.phases|
    ensures forall q, more :: Move(Move(w, i, p, conns), i, q, more) == Move(w, i, q, more)
  {
    forall q, more
      ensures Move(Move(w, i, p, conns), i, q, more) == Move(w, i, q, more)
    {
      assert w.phases[i := p][i := q] == w.phases[i := q];
    }
  }

  // ----- the invariant -----

  predicate HasLock(p: Phase) {
    p.Cleaning? || p.Adding? || p.Raising? || p.Inside? || p.Leaving? || p.Unlocking?
  }

  /** What the profiles must look like for a worker in this phase. */
  predicate Fits(p: Phase, conns: seq<Conn>) {
    match p
    case Adding(g) => NoVpns(conns) && NoneNamed(conns, g.profile)
    case Raising(g) => OnlyNamed(conns, g.profile)
    case Inside(g) => OnlyVpn(conns, g.profile)
    case Unlocking(g) => NoVpns(conns)
    case _ => true
  }

  predicate PhaseOk(w: World, i: nat)
    requires i < |w.phases|
  {
    && (HasLock(w.phases[i]) <==> w.owner == Some(i)) && Fits(w.phases[i], w.conns)
    && (w.phases[i].Outside? || VpnGroup(w.phases[i].group))
  }

  /** Only the owner of the lock is in a session, its profiles fit its phase, and with no owner there is no VPN. */
  predicate Inv(w: World) {
    && (forall i :: 0 <= i < |w.phases| ==> PhaseOk(w, i))
    && (w.owner.None? ==> NoVpns(w.conns))
  }

  /** A worker without the lock moves between phases that do not need it. */
  lemma QuietMove(w: World, i: nat, p: Phase)
    requires Inv(w) && i < |w.phases| && w.owner != Some(i)
    requires p.Outside? || ((p.Waiting? || p.Evicted?) && VpnGroup(p.group))
    ensures Inv(Move(w, i, p, w.conns))
  {
    var w' := Move(w, i, p, w.conns);
    forall j | 0 <= j < |w'.phases|
      ensures PhaseOk(w', j)
    {
      assert PhaseOk(w, j);
    }
  }

  lemma TakeLock(w: World, i: nat, g: Group)
    requires Inv(w) && i < |w.phases| && w.owner == None && w.phases[i] == Waiting(g)
    ensures Inv(Move(w, i, Cleaning(g), w.conns).(owner := Some(i)))
  {
    var w' := Move(w, i, Cleaning(g), w.conns).(owner := Some(i));
    forall j | 0 <= j < |w'.phases|
      ensures PhaseOk(w', j)
    {
      assert PhaseOk(w, j) && PhaseOk(w, i);
    }
  }

  /** The owner moves on and may change the profiles: nobody else's phase looks at them. */
  lemma OwnerMoves(w: World, i: nat, p: Phase, conns: seq<Conn>)
    requires Inv(w) && i < |w.phases| && w.owner == Some(i)
    requires HasLock(p) && VpnGroup(p.group) && Fits(p, conns)
    ensures Inv(Move(w, i, p, conns))
  {
    var w' := Move(w, i, p, conns);
    forall j | 0 <= j < |w'.phases|
      ensures PhaseOk(w', j)
    {
      assert PhaseOk(w, j);
    }
  }

  lemma DropLock(w: World, i: nat)
    requires Inv(w) && i < |w.phases| && w.phases[i].Unlocking?
    ensures Inv(Move(w, i, Outside, w.conns).(owner := None))
  {
    var w' := Move(w, i, Outside, w.conns).(owner := None);
    assert PhaseOk(w, i);
    forall j | 0 <= j < |w'.phases|
      ensures PhaseOk(w', j)
    {
      assert PhaseOk(w, j);
    }
  }

  /** A profile dropped by a worker that gave up: every phase still fits, unless it was the profile of a body. */
  lemma DropByEvicted(w: World, name: string)
    requires Inv(w)
    requires forall j :: 0 <= j < |w.phases| && w.phases[j].Inside? ==> w.phases[j].group.profile != name
    ensures Inv(w.(conns := Drop(w.conns, name)))
  {
    var w' := w.(conns := Drop(w.conns, name));
    DropKeeps(w.conns, name, "");
    forall j | 0 <= j < |w'.phases|
      ensures PhaseOk(w', j)
    {
      assert PhaseOk(w, j);
      if !w.phases[j].Outside? {
        DropKeeps(w.conns, name, w.phases[j].group.profile);
      }
      if w.phases[j].Inside? {
        DropKeepsOnlyIff(w.conns, name, w.phases[j].group.profile);
      }
    }
  }

  /** The owner's own steps. */
  lemma OwnerStep(w: World, e: Event, i: nat)
    requires Inv(w) && i == e.worker < |w.phases| && w.owner == Some(i)
    requires e.Clean? || e.Add? || e.Raise? || e.EndBody? || e.DisconnectAll?
    ensures Inv(Next(w, e))
  {
    assert PhaseOk(w, i);
    match (e, w.phases[i]) {
      case (Clean(_, ready), Cleaning(g)) =>
        BareHasNoVpn(w.conns, g.profile);
        if ready && g.complete {
          OwnerMoves(w, i, Adding(g), Drop(Drop(CleanProfiles(w.conns, g.profile), g.profile), g.profile));
        } else {
          OwnerMoves(w, i, Leaving(g), w.conns);
        }
      case (Add(_, added), Adding(g)) =>
        if added {
          OwnerMoves(w, i, Raising(g), w.conns + [Conn(g.profile, true, Inactive)]);
        } else {
          OwnerMoves(w, i, Leaving(g), CleanProfiles(w.conns, ""));
        }
      case (Raise(_, _, _, _), Raising(g)) =>
        RaisedResult(w.conns, g, e);
        OwnerMoves(w, i, if Raised(w.conns, g, e).1 then Inside(g) else Leaving(g), Raised(w.conns, g, e).0);
      case (EndBody(_), Inside(g)) => OwnerMoves(w, i, Leaving(g), w.conns);
      case (DisconnectAll(_), Leaving(g)) =>
        DisconnectResult(w.conns, g);
        OwnerMoves(w, i, Unlocking(g), Disconnect(w.conns, g));
      case _ =>
    }
  }

  lemma NextKeepsInv(w: World, e: Event)
    requires Inv(w) && !Disturbs(w, e) && (e.Enter? ==> VpnGroup(e.group))
    ensures Inv(Next(w, e))
  {
    if e.worker < |w.phases| {
      assert PhaseOk(w, e.worker);
      match (e, w.phases[e.worker]) {
        case (Enter(i, g), Outside) => QuietMove(w, i, Waiting(g));
        case (Acquire(i), Waiting(g)) => if w.owner.None? { TakeLock(w, i, g); }
        case (TimeOut(i), Waiting(g)) => QuietMove(w, i, Evicted(g));
        case (Release(i), Unlocking(g)) => DropLock(w, i);
        case (DropOne(i, name), Evicted(g)) => DropByEvicted(w, name);
        case (DropDone(i), Evicted(g)) => QuietMove(w, i, Outside);
        case _ =>
          if w.owner == Some(e.worker) && (e.Clean? || e.Add? || e.Raise? || e.EndBody? || e.DisconnectAll?) {
            OwnerStep(w, e, e.worker);
          }
      }
    }
  }

  // ----- over every run -----

  /** The state after the first `n` events. */
  function After(w: World, events: seq<Event>, n: nat): World
    requires n <= |events|
  {
    Run(w, events[..n])
  }

  lemma AfterStep(w: World, events: seq<Event>, n: nat)
    requires n < |events|
    ensures After(w, events, n + 1) == Next(After(w, events, n), events[n])
  {
    assert events[..n + 1] == events[..n] + [events[n]];
    FoldSnoc(Next, events[..n], events[n], w);
  }

  /** No worker that gave up deletes the profile of another's body. */
  predicate Undisturbed(w: World, events: seq<Event>) {
    forall k :: 0 <= k < |events| ==> !Disturbs(After(w, events, k), events[k])
  }

  lemma {:induction false} AlwaysInv(w: World, events: seq<Event>, n: nat)
    requires Begin(w) && VpnGroups(events) && n <= |events| && Undisturbed(w, events)
    ensures Inv(After(w, events, n))
  {
    if n > 0 {
      AlwaysInv(w, events, n - 1);
      AfterStep(w, events, n - 1);
      NextKeepsInv(After(w, events, n - 1), events[n - 1]);
    }
  }

  lemma NotBroken(w: World)
    requires Inv(w)
    ensures !Broken(w)
  {
    forall i | 0 <= i < |w.phases| && w.phases[i].Inside?
      ensures OnlyVpn(w.conns, w.phases[i].group.profile)
    {
      assert PhaseOk(w, i);
    }
  }

  /** In any state that is not broken, a profile deleted by a worker that gave up breaks it exactly when it is the
      profile of a body. */
  lemma EvictionBreaksIff(w: World, i: nat, name: string)
    requires !Broken(w) && i < |w.phases| && w.phases[i].Evicted?
    ensures Broken(Next(w, DropOne(i, name))) <==> Disturbs(w, DropOne(i, name))
  {
    var w' := Next(w, DropOne(i, name));
    forall j | 0 <= j < |w.phases| && w.phases[j].Inside?
      ensures OnlyVpn(w'.conns, w.phases[j].group.profile) <==> name != w.phases[j].group.profile
    {
      DropKeepsOnlyIff(w.conns, name, w.phases[j].group.profile);
    }
  }

  /** Command by command, no worker is ever in its body without exactly its profile if and only if no worker that gave
      up waiting deletes the profile of a body that is running. */
  lemma NeverBrokenIff(w: World, events: seq<Event>)
    requires Begin(w) && VpnGroups(events)
    ensures (forall k :: 0 <= k <= |events| ==> !Broken(After(w, events, k))) <==> Undisturbed(w, events)
  {
    if Undisturbed(w, events) {
      forall k | 0 <= k <= |events|
        ensures !Broken(After(w, events, k))
      {
        AlwaysInv(w, events, k);
        NotBroken(After(w, events, k));
      }
    }
    if forall k :: 0 <= k <= |events| ==> !Broken(After(w, events, k)) {
      forall k | 0 <= k < |events|
        ensures !Disturbs(After(w, events, k), events[k])
      {
        AfterStep(w, events, k);
        assert !Broken(After(w, events, k)) && !Broken(After(w, events, k + 1));
        if Disturbs(After(w, events, k), events[k]) {
          EvictionBreaksIff(After(w, events, k), events[k].worker, events[k].name);
        }
      }
    }
  }

  /** In an undisturbed run sessions never overlap, exactly the group's profile is active in the body, and with nobody
      in a session no VPN profile is left. */
  lemma SessionsAreExclusive(w: World, events: seq<Event>)
    requires Begin(w) && VpnGroups(events) && Undisturbed(w, events)
    ensures var w' := After(w, events, |events|);
            && (forall i, j :: (0 <= i < j < |w'.phases| && HasLock(w'.phases[i])) ==> !HasLock(w'.phases[j]))
            && (forall i :: (0 <= i < |w'.phases| && w'.phases[i].Inside?) ==>
                  OnlyVpn(w'.conns, w'.phases[i].group.profile))
            && (w'.owner.None? ==> NoVpns(w'.conns))
  {
    var w' := After(w, events, |events|);
    AlwaysInv(w, events, |events|);
    forall i, j | 0 <= i < j < |w'.phases| && HasLock(w'.phases[i])
      ensures !HasLock(w'.phases[j])
    {
      assert PhaseOk(w', i) && PhaseOk(w', j);
    }
    forall i | 0 <= i < |w'.phases| && w'.phases[i].Inside?
      ensures OnlyVpn(w'.conns, w'.phases[i].group.profile)
    {
      assert PhaseOk(w', i);
    }
  }

  // ----- runs without and with a disturbance -----

  predicate NoneEvicted(w: World) {
    forall i :: 0 <= i < |w.phases| ==> !w.phases[i].Evicted?
  }

  lemma NoneEvictedStep(w: World, e: Event)
    requires NoneEvicted(w) && !e.TimeOut?
    ensures NoneEvicted(Next(w, e))
  {
  }

  lemma {:induction false} NeverEvicted(w: World, events: seq<Event>, n: nat)
    requires NoneEvicted(w) && n <= |events| && forall i :: 0 <= i < |events| ==> !events[i].TimeOut?
    ensures NoneEvicted(After(w, events, n))
  {
    if n > 0 {
      NeverEvicted(w, events, n - 1);
      AfterStep(w, events, n - 1);
      NoneEvictedStep(After(w, events, n - 1), events[n - 1]);
    }
  }

  /** A run in which every lock acquisition succeeds is undisturbed. */
  lemma NoTimeOutsUndisturbed(w: World, events: seq<Event>)
    requires Begin(w) && forall i :: 0 <= i < |events| ==> !events[i].TimeOut?
    ensures Undisturbed(w, events)
  {
    forall k | 0 <= k < |events|
      ensures !Disturbs(After(w, events, k), events[k])
    {
      NeverEvicted(w, events, k);
    }
  }

  /** Two workers, the first holding what `owner` says. */
  function Two(first: Phase, second: Phase, owner: Option<nat>, conns: seq<Conn>): World {
    World([first, second], owner, conns)
  }

  lemma Moved(first: Phase, second: Phase, owner: Option<nat>, conns: seq<Conn>, p: Phase, conns': seq<Conn>)
    ensures Move(Two(first, second, owner, conns), 0, p, conns') == Two(p, second, owner, conns')
    ensures Move(Two(first, second, owner, conns), 1, p, conns') == Two(first, p, owner, conns')
  {
    assert [first, second][0 := p] == [p, second] && [first, second][1 := p] == [first, p];
  }

  /** What the first worker's connection leaves. */
  function Added(conns: seq<Conn>, g: Group): seq<Conn> {
    Drop(Drop(CleanProfiles(conns, g.profile), g.profile), g.profile) + [Conn(g.profile, true, Inactive)]
  }

  function Up(conns: seq<Conn>, g: Group): seq<Conn> {
    SetState(Added(conns, g), g.profile, Activated)
  }

  lemma ConnectSteps(conns: seq<Conn>, g: Group)
    requires VpnGroup(g) && g.complete
    ensures Next(Two(Outside, Outside, None, conns), Enter(0, g)) == Two(Waiting(g), Outside, None, conns)
    ensures Next(Two(Waiting(g), Outside, None, conns), Acquire(0)) == Two(Cleaning(g), Outside, Some(0), conns)
    ensures var bare := Drop(Drop(CleanProfiles(conns, g.profile), g.profile), g.profile);
            && Next(Two(Cleaning(g), Outside, Some(0), conns), Clean(0, true)) == Two(Adding(g), Outside, Some(0), bare)
            && Next(Two(Adding(g), Outside, Some(0), bare), Add(0, true))
               == Two(Raising(g), Outside, Some(0), Added(conns, g))
  {
    var bare := Drop(Drop(CleanProfiles(conns, g.profile), g.profile), g.profile);
    Moved(Outside, Outside, None, conns, Waiting(g), conns);
    Moved(Waiting(g), Outside, None, conns, Cleaning(g), conns);
    Moved(Cleaning(g), Outside, Some(0), conns, Adding(g), bare);
    Moved(Adding(g), Outside, Some(0), bare, Raising(g), Added(conns, g));
  }

  lemma RaiseStep(conns: seq<Conn>, g: Group)
    requires VpnGroup(g)
    ensures Next(Two(Raising(g), Outside, Some(0), Added(conns, g)), Raise(0, true, false, false))
         == Two(Inside(g), Outside, Some(0), Up(conns, g))
    ensures OnlyVpn(Up(conns, g), g.profile)
  {
    var added := Added(conns, g);
    BareHasNoVpn(conns, g.profile);
    assert added[|added| - 1] == Conn(g.profile, true, Inactive);
    RaiseIsOnly(added, g.profile);
    Moved(Raising(g), Outside, Some(0), added, Inside(g), Up(conns, g));
  }

  lemma GiveUpSteps(g: Group, other: Group, up: seq<Conn>)
    ensures Next(Two(Inside(g), Outside, Some(0), up), Enter(1, other)) == Two(Inside(g), Waiting(other), Some(0), up)
    ensures Next(Two(Inside(g), Waiting(other), Some(0), up), TimeOut(1)) == Two(Inside(g), Evicted(other), Some(0), up)
    ensures Next(Two(Inside(g), Evicted(other), Some(0), up), DropOne(1, g.profile))
         == Two(Inside(g), Evicted(other), Some(0), Drop(up, g.profile))
  {
    Moved(Inside(g), Outside, Some(0), up, Waiting(other), up);
    Moved(Inside(g), Waiting(other), Some(0), up, Evicted(other), up);
  }

  function Connecting(g: Group): seq<Event> {
    [] + [Enter(0, g), Acquire(0), Clean(0, true), Add(0, true)]
  }

  function GivingUp(g: Group, other: Group): seq<Event> {
    [Raise(0, true, false, false), Enter(1, other), TimeOut(1), DropOne(1, g.profile)]
  }

  lemma ConnectedSoFar(conns: seq<Conn>, g: Group)
    requires VpnGroup(g) && g.complete
    ensures Run(Two(Outside, Outside, None, conns), Connecting(g)) == Two(Raising(g), Outside, Some(0), Added(conns, g))
  {
    FoldFour(Next, [], Enter(0, g), Acquire(0), Clean(0, true), Add(0, true), Two(Outside, Outside, None, conns));
    ConnectSteps(conns, g);
  }

  /** A run that is disturbed, for any two VPN groups: a worker gives up waiting while another is in its body; the
      profile of that body is among those its clean-up lists, and once it is deleted no VPN is left. */
  lemma TimeOutBreaksSession(w: World, conns: seq<Conn>, g: Group, other: Group)
    requires w == Two(Outside, Outside, None, conns) && NoVpns(conns) && VpnGroup(g) && g.complete
    ensures var w' := Run(w, Connecting(g) + GivingUp(g, other)); Begin(w) && Broken(w') && NoVpns(w'.conns)
    ensures g.profile in ActiveNames(Up(conns, g), "")
  {
    ConnectedSoFar(conns, g);
    RaiseStep(conns, g);
    GivesUp(w, Connecting(g), Added(conns, g), g, other, Up(conns, g));
    TakenAway(Run(w, Connecting(g) + GivingUp(g, other)), g, other, Up(conns, g));
  }

  lemma TakenAway(w: World, g: Group, other: Group, up: seq<Conn>)
    requires w == Two(Inside(g), Evicted(other), Some(0), Drop(up, g.profile))
    requires OnlyVpn(up, g.profile) && g.profile != ""
    ensures Broken(w) && NoVpns(w.conns) && g.profile in ActiveNames(up, "")
  {
    OnlyDropped(up, g.profile);
    ActiveNamesAre(up, "", g.profile);
    BrokenInside(w, g);
  }

  lemma GivesUp(w: World, events: seq<Event>, added: seq<Conn>, g: Group, other: Group, up: seq<Conn>)
    requires Run(w, events) == Two(Raising(g), Outside, Some(0), added)
    requires Next(Two(Raising(g), Outside, Some(0), added), Raise(0, true, false, false))
          == Two(Inside(g), Outside, Some(0), up)
    ensures Run(w, events + GivingUp(g, other)) == Two(Inside(g), Evicted(other), Some(0), Drop(up, g.profile))
  {
    GiveUpSteps(g, other, up);
    FoldFour(Next, events, Raise(0, true, false, false), Enter(1, other), TimeOut(1), DropOne(1, g.profile), w);
  }

  lemma OnlyDropped(conns: seq<Conn>, profile: string)
    requires OnlyVpn(conns, profile)
    ensures NoVpns(Drop(conns, profile))
  {
    var r := Drop(conns, profile);
    forall i | 0 <= i < |r|
      ensures !r[i].vpn
    {
      DropKept(conns, profile, i);
    }
  }

  lemma BrokenInside(w: World, g: Group)
    requires w.phases != [] && w.phases[0] == Inside(g) && NoVpns(w.conns)
    ensures Broken(w)
  {
  }
}
