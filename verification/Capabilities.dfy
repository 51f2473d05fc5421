/**
 What the two platforms report of themselves, and which documents pass the capability check there: the
 names the plan asks for and the names the platforms report come from different places.
 */
module Capabilities {
  import opened Std
  import opened Text
  import opened Config
  import opened Model
  import opened Plan

  /** The capabilities in the order the Windows platform reports them. */
  function Name(j: nat): string
    requires j < 24
  {
    match j
    case 0 => "config.validate"
    case 1 => "config.plan"
    case 2 => "config.apply"
    case 3 => "adapter.inventory"
    case 4 => "adapter.ipv4.apply"
    case 5 => "adapter.state.apply"
    case 6 => "adapter.mac.apply"
    case 7 => "adapter.restart"
    case 8 => "firewall.apply"
    case 9 => "identity.computer_name.apply"
    case 10 => "identity.workgroup.apply"
    case 11 => "identity.dns_suffix.apply"
    case 12 => "service.apply"
    case 13 => "hook.execute"
    case 14 => "driver.install"
    case 15 => "driver.force_install"
    case 16 => "wifi.status"
    case 17 => "wifi.profile.apply"
    case 18 => "wifi.scan"
    case 19 => "wifi.connect"
    case 20 => "wifi.disconnect"
    case 21 => "smb.account.apply"
    case 22 => "smb.share.apply"
    case _ => "smb.mapping.apply"
  }

  // The names are told apart by their length and two of their characters.

  function Mark(name: string): (nat, char, char)
    requires |name| >= 9
  {
    (|name|, name[0], name[8])
  }

  function MarkAt(j: nat): (nat, char, char)
    requires j < 24
  {
    match j
    case 0 => (15, 'c', 'a')
    case 1 => (11, 'c', 'l')
    case 2 => (12, 'c', 'p')
    case 3 => (17, 'a', 'i')
    case 4 => (18, 'a', 'i')
    case 5 => (19, 'a', 's')
    case 6 => (17, 'a', 'm')
    case 7 => (15, 'a', 'r')
    case 8 => (14, 'f', '.')
    case 9 => (28, 'i', '.')
    case 10 => (24, 'i', '.')
    case 11 => (25, 'i', '.')
    case 12 => (13, 's', 'a')
    case 13 => (12, 'h', 'c')
    case 14 => (14, 'd', 'n')
    case 15 => (20, 'd', 'o')
    case 16 => (11, 'w', 't')
    case 17 => (18, 'w', 'f')
    case 18 => (9, 'w', 'n')
    case 19 => (12, 'w', 'n')
    case 20 => (15, 'w', 'c')
    case 21 => (17, 's', 'u')
    case 22 => (15, 's', 'e')
    case _ => (17, 's', 'i')
  }

  lemma NameMarked(j: nat)
    requires j < 24
    ensures |Name(j)| >= 9 && Mark(Name(j)) == MarkAt(j)
  {
  }

  lemma MarksDistinct(i: nat, j: nat)
    requires i < j < 24
    ensures MarkAt(i) != MarkAt(j)
  {
  }

  lemma NamesDistinct(i: nat, j: nat)
    requires i < 24 && j < 24 && Name(i) == Name(j)
    ensures i == j
  {
    NameMarked(i);
    NameMarked(j);
    if i < j {
      MarksDistinct(i, j);
    } else if j < i {
      MarksDistinct(j, i);
    }
  }

  // What Windows reports.

  /** The tools and services found on the machine. */
  datatype Probes = Probes(netsh: bool, pnputil: bool, forceDriver: bool, wifi: bool, accounts: bool, shares: bool, mappings: bool)

  function Present(p: Probes, j: nat): bool
    requires j < 24
  {
    if 4 <= j <= 8 then p.netsh
    else if j == 14 then p.pnputil
    else if j == 15 then p.forceDriver
    else if 16 <= j <= 20 then p.wifi
    else if j == 21 then p.accounts
    else if j == 22 then p.shares
    else if j == 23 then p.mappings
    else true
  }

  /** `reason` says why a capability is unavailable. */
  function WindowsReports(p: Probes, reason: nat -> Option<string>): seq<Capability> {
    seq(24, j requires 0 <= j < 24 =>
      if Present(p, j) then Capability(Name(j), Available, None) else Capability(Name(j), Unavailable, reason(j)))
  }

  /** Where the capability of an operation stands in the reports. */
  function SlotOf(op: Operation): (j: nat)
    ensures 4 <= j < 24
  {
    match op
    case HookRun(_, _) => 13
    case SetIdentity(field) => if field.ComputerNameField? then 9 else if field.WorkgroupField? then 10 else 11
    case AdapterState(_, _) => 5
    case AdapterMac(_) => 6
    case AdapterIpv4(_) => 4
    case WifiInstall(_) => 17
    case WifiRun(_, kind) => if kind.ScanKind? then 18 else if kind.ConnectKind? then 19 else 20
    case ServiceSwitch(_) => 12
    case AccountEnsure(_) => 21
    case ShareApply(_) => 22
    case MappingApply(_) => 23
    case FirewallSwitch => 8
    case DriverInstall(_, force) => if force then 15 else 14
    case DriverRestart(_) => 7
  }

  lemma IdentityNames()
    ensures "identity." + "computer_name" + ".apply" == "identity.computer_name.apply"
    ensures "identity." + "workgroup" + ".apply" == "identity.workgroup.apply"
    ensures "identity." + "dns_suffix" + ".apply" == "identity.dns_suffix.apply"
  {
  }

  lemma WifiNames()
    ensures "wifi." + "scan" == "wifi.scan" && "wifi." + "connect" == "wifi.connect" && "wifi." + "disconnect" == "wifi.disconnect"
  {
  }

  /** Every operation asks for a capability both platforms report. */
  lemma CapabilityReported(op: Operation)
    ensures CapabilityOf(op) == Name(SlotOf(op))
  {
    IdentityNames();
    WifiNames();
  }

  /** Reports that list every capability once, whatever they say of it. */
  ghost predicate Complete(reports: seq<Capability>) {
    |reports| == 24 && forall j :: 0 <= j < 24 ==> reports[j].name == Name(j)
  }

  lemma PermittedAt(reports: seq<Capability>, op: Operation)
    requires Complete(reports)
    ensures Permitted(reports, op) <==> Permits(reports[SlotOf(op)], RiskOf(op))
  {
    var slot := SlotOf(op);
    CapabilityReported(op);
    forall j | 0 <= j < 24 && reports[j].name == Name(slot)
      ensures j == slot
    {
      NamesDistinct(j, slot);
    }
    assert FirstNamed(reports, CapabilityOf(op), slot);
  }

  /** The tools and services the declarations of the document need are there. */
  ghost predicate Tooled(p: Probes, config: NetplanConfig) {
    && (forall a :: a in config.adapters && (a.enabled.Some? || a.mac.Some? || a.ipv4.Some?) ==> p.netsh)
    && (config.firewall.Some? ==> p.netsh)
    && (forall d :: d in config.drivers && d.RestartAdapter? ==> p.netsh)
    && (forall d :: d in config.drivers && d.Install? ==> if d.force then p.forceDriver else p.pnputil)
    && (config.wifi != [] || config.wifiActions != [] ==> p.wifi)
    && (forall a :: a in config.accounts && a.kind == Local ==> p.accounts)
    && (config.shares != [] ==> p.shares)
    && (config.mappings != [] ==> p.mappings)
  }

  ghost predicate AllPresent(p: Probes, config: NetplanConfig) {
    forall op :: Declared(config, op) ==> Present(p, SlotOf(op))
  }

  lemma AdaptersPresent(p: Probes, config: NetplanConfig)
    requires AllPresent(p, config)
    ensures forall a :: a in config.adapters && (a.enabled.Some? || a.mac.Some? || a.ipv4.Some?) ==> p.netsh
  {
    forall a | a in config.adapters && (a.enabled.Some? || a.mac.Some? || a.ipv4.Some?)
      ensures p.netsh
    {
      var i :| 0 <= i < |config.adapters| && config.adapters[i] == a;
      if a.mac.Some? {
        assert Declared(config, AdapterMac(i));
      } else if a.ipv4.Some? {
        assert Declared(config, AdapterIpv4(i));
      } else {
        assert Declared(config, AdapterState(i, a.enabled.value));
      }
    }
  }

  lemma DriversPresent(p: Probes, config: NetplanConfig)
    requires AllPresent(p, config)
    ensures forall d :: d in config.drivers && d.RestartAdapter? ==> p.netsh
    ensures forall d :: d in config.drivers && d.Install? ==> if d.force then p.forceDriver else p.pnputil
  {
    forall d | d in config.drivers
      ensures if d.RestartAdapter? then p.netsh else if d.force then p.forceDriver else p.pnputil
    {
      var i :| 0 <= i < |config.drivers| && config.drivers[i] == d;
      assert Declared(config, if d.Install? then DriverInstall(i, d.force) else DriverRestart(i));
    }
  }

  lemma AccountsPresent(p: Probes, config: NetplanConfig)
    requires AllPresent(p, config)
    ensures forall a :: a in config.accounts && a.kind == Local ==> p.accounts
  {
    forall a | a in config.accounts && a.kind == Local
      ensures p.accounts
    {
      var i :| 0 <= i < |config.accounts| && config.accounts[i] == a;
      assert Declared(config, AccountEnsure(i));
    }
  }

  lemma OthersPresent(p: Probes, config: NetplanConfig)
    requires AllPresent(p, config)
    ensures config.firewall.Some? ==> p.netsh
    ensures config.wifi != [] || config.wifiActions != [] ==> p.wifi
    ensures (config.shares != [] ==> p.shares) && (config.mappings != [] ==> p.mappings)
  {
    assert config.firewall.Some? ==> Declared(config, FirewallSwitch);
    assert config.wifi != [] ==> Declared(config, WifiInstall(0));
    assert config.wifiActions != [] ==> Declared(config, WifiRun(0, KindOf(config.wifiActions[0])));
    assert config.shares != [] ==> Declared(config, ShareApply(0));
    assert config.mappings != [] ==> Declared(config, MappingApply(0));
  }

  lemma TooledIsPresent(p: Probes, config: NetplanConfig, op: Operation)
    requires Tooled(p, config) && Declared(config, op)
    ensures Present(p, SlotOf(op))
  {
  }

  /** On Windows a document passes the check if and only if what its declarations need is there. */
  lemma WindowsAdmitsIff(p: Probes, reason: nat -> Option<string>, config: NetplanConfig)
    ensures AllPermitted(WindowsReports(p, reason), config) <==> Tooled(p, config)
  {
    var reports := WindowsReports(p, reason);
    assert Complete(reports);
    forall op
      ensures Permitted(reports, op) <==> Present(p, SlotOf(op))
    {
      PermittedAt(reports, op);
    }
    if AllPresent(p, config) {
      AdaptersPresent(p, config);
      DriversPresent(p, config);
      AccountsPresent(p, config);
      OthersPresent(p, config);
    }
    if Tooled(p, config) {
      forall op | Declared(config, op)
        ensures Present(p, SlotOf(op))
      {
        TooledIsPresent(p, config, op);
      }
    }
  }

  // What the other platform reports.

  /** Where the reports of the portable platform stand in the Windows order. */
  function Order(k: nat): (j: nat)
    requires k < 24
    ensures j < 24 && (j < 2 <==> k < 2)
  {
    match k
    case 4 => 5
    case 5 => 6
    case 6 => 4
    case 7 => 8
    case 8 => 12
    case 9 => 14
    case 10 => 15
    case 11 => 7
    case 12 => 13
    case 13 => 9
    case 14 => 10
    case 15 => 11
    case _ => k
  }

  function PortableReports(reason: nat -> Option<string>): seq<Capability> {
    seq(24, k requires 0 <= k < 24 =>
      Capability(Name(Order(k)), if k < 2 then Available else if k == 2 then DryRun else Unavailable, if k < 2 then None else reason(k)))
  }

  /** There a document passes the check only when its plan is empty. */
  lemma PortableAdmitsIff(reason: nat -> Option<string>, config: NetplanConfig)
    ensures AllPermitted(PortableReports(reason), config) <==> PlanOf(config) == []
  {
    var reports := PortableReports(reason);
    forall op
      ensures !Permitted(reports, op)
    {
      CapabilityReported(op);
      forall k: nat | FirstNamed(reports, CapabilityOf(op), k)
        ensures !Permits(reports[k], RiskOf(op))
      {
        NamesDistinct(Order(k), SlotOf(op));
      }
    }
    PlanCharacterised(config, 0);
    assert PlanOf(config) == [] <==> forall op :: op !in PlanOf(config) by {
      HasMember(PlanOf(config));
    }
  }

  /** Were everything reported as read-only, only Wi-Fi scans would pass. */
  lemma ReadOnlyAdmitsIff(reports: seq<Capability>, config: NetplanConfig)
    requires Complete(reports) && forall j :: 0 <= j < |reports| ==> reports[j].state == ReadOnlyState
    ensures AllPermitted(reports, config) <==> forall op :: op in PlanOf(config) ==> op.WifiRun? && op.kind.ScanKind?
  {
    forall op
      ensures Permitted(reports, op) <==> op.WifiRun? && op.kind.ScanKind?
    {
      PermittedAt(reports, op);
    }
    PlanCharacterised(config, 0);
  }

  /** The risk a client is told. */
  lemma RiskIff(op: Operation)
    ensures RiskOf(op) == Destructive <==> op.HookRun? || op.DriverInstall? || op.DriverRestart?
    ensures RiskOf(op) == Low <==>
      op.ServiceSwitch? || op.AccountEnsure? || op.ShareApply? || op.MappingApply? || op.FirewallSwitch?
    ensures RiskOf(op) == ReadOnly <==> op.WifiRun? && op.kind.ScanKind?
  {
  }
}
