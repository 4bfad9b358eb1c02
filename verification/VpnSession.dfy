/** The VPN profiles of a worker's network manager and one session over them (app/services/vpn_service.py). What the
    manager answers to `add` and `up` is an input; `down` and `delete` take effect. */
module VpnSession {
  import opened Folds

  datatype State = Inactive | Activating | Activated

  /** A connection profile. */
  datatype Conn = Conn(name: string, vpn: bool, state: State)

  // ----- nmcli -----

  function Down(conns: seq<Conn>, name: string): seq<Conn> {
    SetState(conns, name, Inactive)
  }

  function SetState(conns: seq<Conn>, name: string, state: State): seq<Conn> {
    if conns == [] then []
    else
      var c := conns[|conns| - 1];
      SetState(conns[..|conns| - 1], name, state) + [if c.name == name then c.(state := state) else c]
  }

  function Delete(conns: seq<Conn>, name: string): seq<Conn> {
    if conns == [] then []
    else
      var rest, c := Delete(conns[..|conns| - 1], name), conns[|conns| - 1];
      if c.name == name then rest else rest + [c]
  }

  /** Down, then deleted. */
  function Drop(conns: seq<Conn>, name: string): seq<Conn> {
    Delete(Down(conns, name), name)
  }

  function DropAll(conns: seq<Conn>, names: seq<string>): seq<Conn> {
    FoldLeft(Drop, names, conns)
  }

  // ----- cleaning up -----

  /** The activated VPNs other than the one to keep. */
  function ActiveNames(conns: seq<Conn>, keep: string): seq<string> {
    if conns == [] then []
    else
      var rest, c := ActiveNames(conns[..|conns| - 1], keep), conns[|conns| - 1];
      if c.vpn && c.state == Activated && c.name != keep then rest + [c.name] else rest
  }

  /** The VPN profiles other than the one to keep; with nothing to keep, all of them. */
  function VpnNames(conns: seq<Conn>, keep: string): seq<string> {
    if conns == [] then []
    else
      var rest, c := VpnNames(conns[..|conns| - 1], keep), conns[|conns| - 1];
      if c.vpn && !(keep != "" && c.name == keep) then rest + [c.name] else rest
  }

  function CleanActive(conns: seq<Conn>, keep: string): seq<Conn> {
    DropAll(conns, ActiveNames(conns, keep))
  }

  function CleanProfiles(conns: seq<Conn>, keep: string): seq<Conn> {
    var left := CleanActive(conns, keep);
    DropAll(left, VpnNames(left, keep))
  }

  function ActiveVpns(conns: seq<Conn>): nat {
    if conns == [] then 0
    else
      var c := conns[|conns| - 1];
      ActiveVpns(conns[..|conns| - 1]) + if c.vpn && c.state == Activated then 1 else 0
  }

  // ----- connecting -----

  /** `profile` is the connection name made from the group's identifier; `complete` says that server, user and
      password are all there. */
  datatype Group = Group(profile: string, usesVpn: bool, hasCredentials: bool, complete: bool)

  predicate VpnOn(g: Group) {
    g.usesVpn || g.hasCredentials
  }

  /** The uplink the retry brings up first. */
  const UPLINK := "container-eth0"

  /** What the network manager answers: available, profile added, activated at once, and after a failure whether it is
      of the kind that is retried over the uplink and whether the retry succeeds. */
  datatype Answers = Answers(ready: bool, added: bool, up: bool, retried: bool, upAgain: bool)

  datatype Connection = NoVpn | Connected | Failed

  function Attempt(conns: seq<Conn>, g: Group, a: Answers): (seq<Conn>, Connection) {
    var bare := Drop(Drop(CleanProfiles(conns, g.profile), g.profile), g.profile);
    if !a.added then (CleanProfiles(bare, ""), Failed)
    else
      var added := bare + [Conn(g.profile, true, Inactive)];
      if a.up then (SetState(added, g.profile, Activated), Connected)
      else if !a.retried then (CleanProfiles(added, ""), Failed)
      else
        var uplinked := SetState(added, UPLINK, Activated);
        if a.upAgain then (SetState(uplinked, g.profile, Activated), Connected)
        else (CleanProfiles(uplinked, ""), Failed)
  }

  function Connect(conns: seq<Conn>, g: Group, a: Answers): (seq<Conn>, Connection) {
    if !a.ready then (conns, Failed)
    else if !VpnOn(g) then (conns, NoVpn)
    else if !g.complete then (conns, Failed)
    else Attempt(conns, g, a)
  }

  function Disconnect(conns: seq<Conn>, g: Group): seq<Conn> {
    if !VpnOn(g) then conns else CleanProfiles(Drop(conns, g.profile), "")
  }

  // ----- what cleaning up leaves -----

  lemma {:induction false} SetStateMembers(conns: seq<Conn>, name: string, state: State, c: Conn)
    requires c.name != name
    ensures c in SetState(conns, name, state) <==> c in conns
  {
    if conns != [] {
      SetStateMembers(conns[..|conns| - 1], name, state, c);
      assert conns == conns[..|conns| - 1] + [conns[|conns| - 1]];
    }
  }

  lemma {:induction false} SetStateNamed(conns: seq<Conn>, name: string, state: State, c: Conn)
    requires c.name == name
    ensures c in SetState(conns, name, state) <==>
              c.state == state && exists i :: 0 <= i < |conns| && conns[i].name == name && conns[i].vpn == c.vpn
  {
    if conns != [] {
      SetStateNamed(conns[..|conns| - 1], name, state, c);
      assert conns == conns[..|conns| - 1] + [conns[|conns| - 1]];
    }
  }

  lemma {:induction false} DeleteMembers(conns: seq<Conn>, name: string, c: Conn)
    ensures c in Delete(conns, name) <==> c in conns && c.name != name
  {
    if conns != [] {
      DeleteMembers(conns[..|conns| - 1], name, c);
      assert conns == conns[..|conns| - 1] + [conns[|conns| - 1]];
    }
  }

  lemma DropMembers(conns: seq<Conn>, name: string, c: Conn)
    ensures c in Drop(conns, name) <==> c in conns && c.name != name
  {
    DeleteMembers(Down(conns, name), name, c);
    if c.name != name {
      SetStateMembers(conns, name, Inactive, c);
    }
  }

  lemma {:induction false} DropAllMembers(conns: seq<Conn>, names: seq<string>, c: Conn)
    ensures c in DropAll(conns, names) <==> c in conns && c.name !in names
  {
    if names != [] {
      var before, name := names[..|names| - 1], names[|names| - 1];
      DropAllMembers(conns, before, c);
      DropMembers(DropAll(conns, before), name, c);
      assert names == before + [name];
    }
  }

  lemma {:induction false} ActiveNamesAre(conns: seq<Conn>, keep: string, name: string)
    ensures name in ActiveNames(conns, keep) <==>
              && name != keep
              && exists i :: 0 <= i < |conns| && conns[i].name == name && conns[i].vpn && conns[i].state == Activated
  {
    if conns != [] {
      ActiveNamesAre(conns[..|conns| - 1], keep, name);
    }
  }

  /** A VPN profile of that name. */
  predicate IsVpnName(conns: seq<Conn>, name: string) {
    exists i :: 0 <= i < |conns| && conns[i].name == name && conns[i].vpn
  }

  lemma {:induction false} VpnNamesAre(conns: seq<Conn>, keep: string, name: string)
    ensures name in VpnNames(conns, keep) <==> !(keep != "" && name == keep) && IsVpnName(conns, name)
  {
    if conns != [] {
      var before := conns[..|conns| - 1];
      VpnNamesAre(before, keep, name);
      assert IsVpnName(before, name) ==> IsVpnName(conns, name);
    }
  }

  /** Cleaning up leaves exactly the connections that share no name with a VPN profile, and the one to keep. */
  lemma CleanProfilesExactly(conns: seq<Conn>, keep: string, c: Conn)
    ensures c in CleanProfiles(conns, keep) <==>
              c in conns && (!IsVpnName(conns, c.name) || (keep != "" && c.name == keep))
  {
    var left := CleanActive(conns, keep);
    DropAllMembers(conns, ActiveNames(conns, keep), c);
    DropAllMembers(left, VpnNames(left, keep), c);
    ActiveNamesAre(conns, keep, c.name);
    VpnNamesAre(left, keep, c.name);
    if c in left {
      VpnNamesLeft(conns, keep, c.name);
    }
  }

  /** The first pass leaves a name's profiles together or not at all. */
  lemma VpnNamesLeft(conns: seq<Conn>, keep: string, name: string)
    requires name !in ActiveNames(conns, keep)
    ensures IsVpnName(CleanActive(conns, keep), name) <==> IsVpnName(conns, name)
  {
    var left := CleanActive(conns, keep);
    if IsVpnName(conns, name) {
      var i :| 0 <= i < |conns| && conns[i].name == name && conns[i].vpn;
      DropAllMembers(conns, ActiveNames(conns, keep), conns[i]);
      var j :| 0 <= j < |left| && left[j] == conns[i];
    }
    if IsVpnName(left, name) {
      var i :| 0 <= i < |left| && left[i].name == name && left[i].vpn;
      DropAllMembers(conns, ActiveNames(conns, keep), left[i]);
      var j :| 0 <= j < |conns| && conns[j] == left[i];
    }
  }

  // ----- what a connection leaves -----

  predicate NoVpns(conns: seq<Conn>) {
    forall i :: 0 <= i < |conns| ==> !conns[i].vpn
  }

  /** The only VPN profile is this one, and it is activated. */
  predicate OnlyVpn(conns: seq<Conn>, name: string) {
    && (exists i :: 0 <= i < |conns| && conns[i] == Conn(name, true, Activated))
    && forall i :: 0 <= i < |conns| ==> conns[i].vpn ==> conns[i] == Conn(name, true, Activated)
  }

  lemma CleanLeavesNoVpn(conns: seq<Conn>)
    ensures NoVpns(CleanProfiles(conns, ""))
  {
    var r := CleanProfiles(conns, "");
    forall i | 0 <= i < |r|
      ensures !r[i].vpn
    {
      CleanProfilesExactly(conns, "", r[i]);
    }
  }

  lemma BareHasNoVpn(conns: seq<Conn>, name: string)
    requires name != ""
    ensures var bare := Drop(Drop(CleanProfiles(conns, name), name), name);
            NoVpns(bare) && forall i :: 0 <= i < |bare| ==> bare[i].name != name
  {
    var once := Drop(CleanProfiles(conns, name), name);
    var bare := Drop(once, name);
    forall i | 0 <= i < |bare|
      ensures !bare[i].vpn && bare[i].name != name
    {
      DropMembers(once, name, bare[i]);
      DropMembers(CleanProfiles(conns, name), name, bare[i]);
      CleanProfilesExactly(conns, name, bare[i]);
    }
  }

  /** Profiles of which only this one, if any, is a VPN. */
  predicate OnlyNamed(conns: seq<Conn>, name: string) {
    forall i :: 0 <= i < |conns| ==> (conns[i].vpn <==> conns[i].name == name)
  }

  lemma {:induction false} SetStateKeeps(conns: seq<Conn>, name: string, state: State)
    ensures var r := SetState(conns, name, state);
            && |r| == |conns|
            && forall i :: 0 <= i < |r| ==>
                 r[i] == if conns[i].name == name then conns[i].(state := state) else conns[i]
  {
    if conns != [] {
      SetStateKeeps(conns[..|conns| - 1], name, state);
    }
  }

  lemma UpIsOnly(conns: seq<Conn>, name: string)
    requires OnlyNamed(conns, name) && conns != [] && conns[|conns| - 1].name == name
    ensures OnlyVpn(SetState(conns, name, Activated), name)
  {
    SetStateKeeps(conns, name, Activated);
    var r := SetState(conns, name, Activated);
    assert r[|r| - 1] == Conn(name, true, Activated);
  }

  lemma AttemptResult(conns: seq<Conn>, g: Group, a: Answers)
    requires g.profile != ""
    ensures var (r, outcome) := Attempt(conns, g, a);
            outcome != NoVpn && if outcome == Connected then OnlyVpn(r, g.profile) else NoVpns(r)
  {
    var bare := Drop(Drop(CleanProfiles(conns, g.profile), g.profile), g.profile);
    var added := bare + [Conn(g.profile, true, Inactive)];
    var uplinked := SetState(added, UPLINK, Activated);
    BareHasNoVpn(conns, g.profile);
    CleanLeavesNoVpn(bare);
    CleanLeavesNoVpn(added);
    CleanLeavesNoVpn(uplinked);
    SetStateKeeps(added, UPLINK, Activated);
    UpIsOnly(added, g.profile);
    UpIsOnly(uplinked, g.profile);
  }

  /** Connecting a VPN group: on success exactly its profile is active and it is the only VPN profile; on failure no
      VPN profile is left, or nothing was touched because the manager or the group's data were not there. */
  lemma ConnectResult(conns: seq<Conn>, g: Group, a: Answers)
    requires g.profile != "" && VpnOn(g)
    ensures var (r, outcome) := Connect(conns, g, a);
            && (outcome == Connected <==> a.ready && g.complete && a.added && (a.up || (a.retried && a.upAgain)))
            && (outcome == Connected ==> OnlyVpn(r, g.profile))
            && (outcome != Connected ==> outcome == Failed && (NoVpns(r) || (r == conns && !(a.ready && g.complete))))
  {
    AttemptResult(conns, g, a);
  }

  lemma DisconnectResult(conns: seq<Conn>, g: Group)
    requires VpnOn(g)
    ensures NoVpns(Disconnect(conns, g))
  {
    CleanLeavesNoVpn(Drop(conns, g.profile));
  }

  // ----- the service as it runs -----

  datatype SessionEnd = Completed | LockTimeout | ConnectFailed | BodyFailed

  /** One worker's service; the clock counts whole seconds and only sleeping takes time. */
  class Service {
    var conns: seq<Conn>
    var clock: nat

    method DropOne(name: string)
      modifies this`conns
      ensures conns == Drop(old(conns), name)
    {
      conns := Down(conns, name);
      conns := Delete(conns, name);
    }

    method CleanupActiveVpns(keep: string)
      modifies this`conns
      ensures conns == CleanActive(old(conns), keep)
    {
      var listed := conns;
      ghost var names := ActiveNames(listed, keep);
      for i := 0 to |listed|
        invariant conns == DropAll(old(conns), ActiveNames(listed[..i], keep))
      {
        assert listed[..i + 1][..i] == listed[..i];
        var c := listed[i];
        if c.vpn && c.state == Activated && c.name != keep {
          FoldSnoc(Drop, ActiveNames(listed[..i], keep), c.name, old(conns));
          DropOne(c.name);
        }
      }
      assert listed[..|listed|] == listed;
    }

    method CleanupVpnProfiles(keep: string)
      modifies this`conns
      ensures conns == CleanProfiles(old(conns), keep)
    {
      CleanupActiveVpns(keep);
      var listed := conns;
      ghost var left := conns;
      for i := 0 to |listed|
        invariant conns == DropAll(left, VpnNames(listed[..i], keep))
      {
        assert listed[..i + 1][..i] == listed[..i];
        var c := listed[i];
        if !c.vpn || (keep != "" && c.name == keep) {
          continue;
        }
        FoldSnoc(Drop, VpnNames(listed[..i], keep), c.name, left);
        DropOne(c.name);
      }
      assert listed[..|listed|] == listed;
    }

    /** Waits until no VPN is active, or for the whole time. */
    method WaitForVpnQuiescent(timeout: nat)
      modifies this`clock
      ensures clock == old(clock) + if ActiveVpns(conns) == 0 then 0 else timeout
    {
      var started := clock;
      while clock - started < timeout
        invariant old(clock) <= clock <= old(clock) + timeout && started == old(clock)
        invariant clock > old(clock) ==> ActiveVpns(conns) > 0
      {
        var active := 0;
        for i := 0 to |conns|
          invariant active == ActiveVpns(conns[..i])
        {
          assert conns[..i + 1][..i] == conns[..i];
          if conns[i].vpn && conns[i].state == Activated {
            active := active + 1;
          }
        }
        assert conns[..|conns|] == conns;
        if active == 0 {
          return;
        }
        clock := clock + 1;
      }
    }

    method ConnectGroupVpn(g: Group, a: Answers) returns (outcome: Connection)
      modifies this
      ensures (conns, outcome) == Connect(old(conns), g, a)
    {
      if !a.ready {
        return Failed;
      }
      if !VpnOn(g) {
        return NoVpn;
      }
      if !g.complete {
        return Failed;
      }
      CleanupVpnProfiles(g.profile);
      WaitForVpnQuiescent(20);
      clock := clock + 2;
      DropOne(g.profile);
      DropOne(g.profile);
      if a.added {
        conns := conns + [Conn(g.profile, true, Inactive)];
        if a.up {
          conns := SetState(conns, g.profile, Activated);
          return Connected;
        }
        if a.retried {
          conns := SetState(conns, UPLINK, Activated);
          if a.upAgain {
            conns := SetState(conns, g.profile, Activated);
            return Connected;
          }
        }
      }
      CleanupVpnProfiles("");
      WaitForVpnQuiescent(20);
      return Failed;
    }

    method DisconnectGroupVpn(g: Group, settle: nat)
      modifies this
      ensures conns == Disconnect(old(conns), g)
    {
      if !VpnOn(g) {
        return;
      }
      DropOne(g.profile);
      CleanupVpnProfiles("");
      WaitForVpnQuiescent(20);
      clock := clock + settle;
    }

    /** A whole session; however it ends, the group is disconnected, even if the lock was never acquired. `during`
        is what the body finds. */
    method Session(g: Group, lockAcquired: bool, a: Answers, bodyRaises: bool, settle: nat)
        returns (end: SessionEnd, ghost during: seq<Conn>)
      modifies this
      ensures end == LockTimeout <==> !lockAcquired
      ensures lockAcquired ==> during == Connect(old(conns), g, a).0
      ensures lockAcquired ==> (end == ConnectFailed <==> Connect(old(conns), g, a).1 == Failed)
      ensures end == Completed ==> !bodyRaises
      ensures g.profile != "" && VpnOn(g) && (end == Completed || end == BodyFailed) ==> OnlyVpn(during, g.profile)
      ensures VpnOn(g) ==> NoVpns(conns)
    {
      during := conns;
      if !lockAcquired {
        end := LockTimeout;
      } else {
        var outcome := ConnectGroupVpn(g, a);
        during := conns;
        end := if outcome == Failed then ConnectFailed else if bodyRaises then BodyFailed else Completed;
        if g.profile != "" && VpnOn(g) {
          ConnectResult(old(conns), g, a);
        }
      }
      if VpnOn(g) {
        DisconnectResult(conns, g);
      }
      DisconnectGroupVpn(g, settle);
    }
  }
}
