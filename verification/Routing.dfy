/** How a device is reached (app/services/connection_mode.py): directly, over its group's jump host, or over its
    group's VPN. */
module Routing {
  import opened Basics
  import opened Text

  datatype Mode = Unset | Jump | Vpn | Direct

  /** The stored name of a connection type. */
  function ModeNamed(raw: string): (m: Mode) {
    var name := Lower(Strip(raw));
    if name == "jump" || name == "jump_host" then Jump
    else if name == "vpn" then Vpn
    else if name == "direct" then Direct
    else Unset
  }

  datatype Group = Group(id: nat, connectionType: string, vpnServer: string, vpnUsername: string,
                         hasVpnPassword: bool, usesJumpHost: bool, usesVpn: bool)

  datatype Subgroup = Subgroup(active: bool, connectionType: string)

  /** The keys of a device's extra parameters that matter here; None where the key is missing. */
  datatype Extra = Extra(connectionSubgroupType: Option<string>, subgroupConnectionType: Option<string>,
                         connectionSubgroupEnabled: Option<string>, subgroupConnectionEnabled: Option<string>)

  datatype Link = Link(group: Option<Group>, subgroup: Option<Subgroup>, extra: Extra, mikrotik: bool)

  /** The two environment settings for MikroTik devices. */
  datatype Policy = Policy(disableJumpForMikrotik: bool, preferVpnForMikrotik: bool)

  predicate Truthy(value: string) {
    Lower(Strip(value)) in {"1", "true", "on", "yes", "sim"}
  }

  function OrEmpty(value: Option<string>): string {
    if value.Some? then value.value else ""
  }

  function ExtraMode(extra: Extra): Mode {
    ModeNamed(if OrEmpty(extra.connectionSubgroupType) != "" then OrEmpty(extra.connectionSubgroupType)
              else OrEmpty(extra.subgroupConnectionType))
  }

  function Override(link: Link): Mode {
    var subgroupMode := match link.subgroup
      case Some(s) => if s.active then ModeNamed(s.connectionType) else Unset
      case None => Unset;
    if subgroupMode != Unset then subgroupMode
    else
      var override := ExtraMode(link.extra);
      var enabled := Truthy(OrEmpty(if link.extra.connectionSubgroupEnabled.Some?
                                    then link.extra.connectionSubgroupEnabled
                                    else link.extra.subgroupConnectionEnabled));
      if override != Unset &&
         (enabled || link.extra.connectionSubgroupType.Some? || link.extra.subgroupConnectionType.Some?)
      then override
      else Unset
  }

  function HasVpnCredentials(g: Group): bool {
    Strip(g.vpnServer) != "" && Strip(g.vpnUsername) != "" && g.hasVpnPassword
  }

  function EffectiveMode(policy: Policy, link: Link): Mode {
    if Override(link) != Unset then Override(link)
    else
      match link.group
      case None => Unset
      case Some(g) =>
        var mode := ModeNamed(g.connectionType);
        if policy.disableJumpForMikrotik && mode == Jump && link.mikrotik then
          if policy.preferVpnForMikrotik && HasVpnCredentials(g) then Vpn else Direct
        else if mode != Unset then mode
        else if g.usesJumpHost then Jump
        else if g.usesVpn then Vpn
        else Direct
  }

  datatype Route = ToVpnGroup(group: nat) | ToJumpHost | ToDirect

  /** Where the scheduler sends a device: a device without a group always goes direct. */
  function RouteOf(policy: Policy, link: Link): Route {
    match link.group
    case None => ToDirect
    case Some(g) =>
      match EffectiveMode(policy, link)
      case Vpn => ToVpnGroup(g.id)
      case Jump => ToJumpHost
      case _ => ToDirect
  }

  // ----- properties -----

  lemma UnnamedMode()
    ensures ModeNamed("") == Unset
  {
  }

  /** The `enabled` flags never matter: an override named in the extra parameters applies even when switched off. */
  lemma EnabledFlagsAreIgnored(link: Link, on: Option<string>, off: Option<string>)
    ensures Override(link.(extra := link.extra.(connectionSubgroupEnabled := on, subgroupConnectionEnabled := off)))
         == Override(link)
  {
    UnnamedMode();
  }

  /** Outside an override, a MikroTik device is never sent over a jump host while the policy forbids it, unless only
      the legacy flags say so. */
  lemma MikrotikAvoidsJumpHost(policy: Policy, link: Link)
    requires policy.disableJumpForMikrotik && link.mikrotik && Override(link) == Unset
    ensures RouteOf(policy, link) == ToJumpHost <==>
              link.group.Some? && ModeNamed(link.group.value.connectionType) == Unset && link.group.value.usesJumpHost
  {
  }
}
