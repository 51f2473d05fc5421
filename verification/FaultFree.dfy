/** Runs in which no call fails: exactly which of them succeed, and what the others leave. */
module FaultFree {
  import opened Std
  import opened Text
  import opened Config
  import opened Selectors
  import opened Ipv4Recovery
  import opened Machine
  import opened Transaction
  import opened Restoration
  import opened AdapterUndo
  import opened DriverPhase
  import opened RunInvariant
  import opened RollbackTheorem
  import opened InEffect
  import opened Conformance
  import opened FaultlessRollback
  import Validation
  import Plan

  // What a declaration needs of the machine.

  ghost predicate EntryCan(config: NetplanConfig, hw: Hardware, i: nat)
    requires i < |config.adapters|
  {
    var entry, resolved := config.adapters[i], ResolveAdapter(hw.adapters, config.adapters[i].selector);
    entry.mac.Some? || entry.ipv4.Some? ==> resolved.Success? && hw.adapters[resolved.value].guid.Some?
  }

  ghost predicate ActionCan(hw: Hardware, core: Core, action: WifiAction) {
    action.Connect? ==>
      InterfaceOf(hw, action.selector).Some? && (InterfaceOf(hw, action.selector).value, Fold(action.profile)) in core.profiles
  }

  ghost predicate MappingCan(core: Core, mapping: SmbMapping) {
    mapping.local.Some? && Fold(mapping.local.value) in core.drives ==>
      SameIgnoringCase(core.drives[Fold(mapping.local.value)], mapping.remote)
  }

  ghost predicate Can(config: NetplanConfig, hw: Hardware, core: Core, phase: nat, i: nat)
    requires phase < Plan.PHASES && i < Plan.Count(config, phase)
  {
    match phase
    case 1 => i == 1 && config.identity.Some? && config.identity.value.workgroup.Some? ==> core.join.InWorkgroup?
    case 2 => EntryCan(config, hw, i)
    case 4 => ActionCan(hw, core, config.wifiActions[i])
    case 5 => Fold(config.services[i].name) in core.services
    case 8 => MappingCan(core, config.mappings[i])
    case 10 => config.drivers[i].Install? && config.drivers[i].force ==> config.drivers[i].hardwareId.Some?
    case _ => true
  }

  /** The document is well formed and the runtime check admits it on this machine. */
  ghost predicate Admitted(config: NetplanConfig, hw: Hardware) {
    Validation.WellFormed(config) && Protected(config, hw.adapters, hw.wifi)
  }

  /** And nothing will fail. */
  ghost predicate Calm(w: World, config: NetplanConfig) {
    w.faults == [] && BaseSized(w) && Admitted(config, w.hw)
  }

  /** The step goes well exactly when this holds, and nothing will fail afterwards. */
  ghost predicate GoesIff(w: World, r: Run, can: bool) {
    (r.Ok? <==> can) && r.w.faults == [] && r.w.hw == w.hw && (BaseSized(w) ==> BaseSized(r.w))
  }

  lemma IdentityGoes(w: World, config: NetplanConfig, i: nat)
    requires w.faults == [] && i < 3
    ensures GoesIff(w, ApplyIdentity(w, config, i), Can(config, w.hw, w.core, Plan.IDENTITY, i))
  {
  }

  // Adapter entries.

  lemma NetshGoes(w: World, a: nat, commands: seq<Command>)
    requires w.faults == [] && a < |w.nets|
    ensures var r := Netsh(w, a, commands); r.Ok? && r.w.faults == [] && r.w.hw == w.hw && |r.w.nets| == |w.nets|
  {
    NetshWithoutFaults(w, a, commands);
  }

  lemma DhcpGoes(w: World, r: NetRestore, dnsFromDhcp: bool)
    requires w.faults == [] && r.adapter < |w.nets|
    ensures DhcpSwitch(w, r, dnsFromDhcp).Ok? && DhcpSwitch(w, r, dnsFromDhcp).w.faults == []
  {
    var first := if r.snapshot.dhcp then [] else [AddressFromDhcp];
    NetshGoes(w, r.adapter, first);
    var w1 := Netsh(w, r.adapter, first).w;
    var r2 := if r.snapshot.manual == [] then Ok(w1) else RemoveCaptured(w1, r);
    if r.snapshot.manual != [] {
      var current := w1.nets[r.adapter];
      NetshGoes(w1, r.adapter, DeleteAddresses(Addresses(r.snapshot.manual), current) + DeleteGateways(r.snapshot.gateways, current));
    }
    NetshGoes(r2.w, r.adapter, (if dnsFromDhcp && !r.dnsFromDhcp then [DnsFromDhcp] else [])
                               + (if dnsFromDhcp && !r.winsFromDhcp then [WinsFromDhcp] else []));
  }

  lemma Ipv4Goes(w: World, i: nat, entry: AdapterConfig, a: nat)
    requires w.faults == [] && Sized(w) && a < |w.hw.adapters|
    requires entry.ipv4.Some? && entry.ipv4.value.Static? ==> entry.ipv4.value.addresses != []
    ensures GoesIff(w, Ipv4Step(w, i, entry, a), entry.ipv4.Some? ==> w.hw.adapters[a].guid.Some?)
  {
    Ipv4StepFrame(w, i, entry, a);
    if entry.ipv4.Some? && w.hw.adapters[a].guid.Some? {
      var w3 := Attempt(w, Plan.AdapterIpv4(i));
      var target, r := entry.ipv4.value, Capture(a, w3.inventory.nets[a], w3.nets[a], entry.ipv4.value);
      var w4 := Push(w3, UndoIpv4(r));
      if target.Static? {
        NetshGoes(w4, a, StaticCommands(target));
      } else {
        DhcpGoes(w4, r, target.dnsFromDhcp);
      }
      assert Ipv4Step(w, i, entry, a) == Reconfigure(w3, r, target);
    }
  }

  lemma MacGoes(w: World, i: nat, entry: AdapterConfig, a: nat)
    requires w.faults == [] && Sized(w) && a < |w.hw.adapters|
    ensures GoesIff(w, MacStep(w, i, entry, a), entry.mac.Some? ==> w.hw.adapters[a].guid.Some?)
  {
  }

  lemma SwitchesGo(w: World, i: nat, entry: AdapterConfig, a: nat)
    requires w.faults == [] && Sized(w) && a < |w.hw.adapters|
    ensures GoesIff(w, EnableStep(w, i, entry, a), true) && GoesIff(w, DisableStep(w, i, entry, a), true)
  {
  }

  lemma EntryGoes(w: World, config: NetplanConfig, i: nat)
    requires Calm(w, config) && Sized(w) && i < |config.adapters|
    ensures GoesIff(w, ApplyAdapter(w, i, config.adapters[i]), EntryCan(config, w.hw, i))
    ensures Sized(ApplyAdapter(w, i, config.adapters[i]).w)
  {
    var entry := config.adapters[i];
    assert Validation.AdapterValid(config, entry);
    assert Declares(config, AdapterTarget(i)) && TargetOf(config, w.hw.adapters, w.hw.wifi, AdapterTarget(i)).Success?;
    var a := ResolveAdapter(w.hw.adapters, entry.selector).value;
    SwitchesGo(w, i, entry, a);
    var w1 := EnableStep(w, i, entry, a).w;
    MacGoes(w1, i, entry, a);
    var r2 := MacStep(w1, i, entry, a);
    if r2.Ok? {
      Ipv4Goes(r2.w, i, entry, a);
      Ipv4StepFrame(r2.w, i, entry, a);
      var r3 := Ipv4Step(r2.w, i, entry, a);
      if r3.Ok? {
        SwitchesGo(r3.w, i, entry, a);
      }
    }
  }

  // The other declarations.

  lemma InterfacesResolve(config: NetplanConfig, hw: Hardware)
    requires Protected(config, hw.adapters, hw.wifi)
    ensures forall i :: 0 <= i < |config.wifi| ==> InterfaceOf(hw, config.wifi[i].selector).Some?
    ensures forall i :: 0 <= i < |config.wifiActions| ==> InterfaceOf(hw, config.wifiActions[i].selector).Some?
  {
    forall i | 0 <= i < |config.wifi|
      ensures InterfaceOf(hw, config.wifi[i].selector).Some?
    {
      assert Declares(config, ProfileTarget(i)) && TargetOf(config, hw.adapters, hw.wifi, ProfileTarget(i)).Success?;
    }
    forall i | 0 <= i < |config.wifiActions|
      ensures InterfaceOf(hw, config.wifiActions[i].selector).Some?
    {
      assert Declares(config, ActionTarget(i)) && TargetOf(config, hw.adapters, hw.wifi, ActionTarget(i)).Success?;
    }
  }

  lemma ProfileGoes(w: World, config: NetplanConfig, i: nat)
    requires Calm(w, config) && i < |config.wifi|
    ensures GoesIff(w, ApplyProfile(w, i, config.wifi[i]), true)
    ensures InterfaceOf(w.hw, config.wifi[i].selector).Some?
    ensures var key := (InterfaceOf(w.hw, config.wifi[i].selector).value, Fold(config.wifi[i].ProfileName()));
      ApplyProfile(w, i, config.wifi[i]).w.core == w.core.(profiles := w.core.profiles[key := Written(config.wifi[i])])
  {
    InterfacesResolve(config, w.hw);
  }

  lemma ActionGoes(w: World, config: NetplanConfig, i: nat)
    requires Calm(w, config) && i < |config.wifiActions|
    ensures GoesIff(w, ApplyAction(w, i, config.wifiActions[i]), ActionCan(w.hw, w.core, config.wifiActions[i]))
  {
    InterfacesResolve(config, w.hw);
  }

  lemma ServiceGoes(w: World, i: nat, service: Service)
    requires w.faults == []
    ensures GoesIff(w, ApplyService(w, i, service), Fold(service.name) in w.core.services)
    ensures ApplyService(w, i, service).w.core.services.Keys == w.core.services.Keys
  {
  }

  lemma AccountGoes(w: World, i: nat, account: SmbAccount)
    requires w.faults == []
    ensures GoesIff(w, ApplyAccount(w, i, account), true)
  {
  }

  lemma ShareGoes(w: World, config: NetplanConfig, i: nat)
    requires Calm(w, config) && i < |config.shares|
    ensures GoesIff(w, ApplyShare(w, i, config, config.shares[i]), true)
  {
    Validation.ReferencesResolve(config);
    assert config.shares[i] in config.shares;
  }

  lemma AddGoes(w: World, config: NetplanConfig, mapping: SmbMapping)
    requires w.faults == [] && CredentialsKnown(config, mapping)
    ensures GoesIff(w, AddMapping(w, config, mapping), true)
  {
  }

  lemma MappingGoes(w: World, config: NetplanConfig, i: nat)
    requires Calm(w, config) && i < |config.mappings|
    ensures GoesIff(w, ApplyMapping(w, i, config, config.mappings[i]), MappingCan(w.core, config.mappings[i]))
  {
    Validation.ReferencesResolve(config);
    var mapping, w1 := config.mappings[i], Attempt(w, Plan.MappingApply(i));
    assert mapping in config.mappings;
    AddGoes(w1, config, mapping);
    assert Read(w1) == Ok(w1);
  }

  lemma FirewallGoes(w: World, on: bool)
    requires w.faults == []
    ensures GoesIff(w, ApplyFirewall(w, on), true)
  {
  }

  lemma DriverGoes(w: World, config: NetplanConfig, i: nat)
    requires Calm(w, config) && i < |config.drivers|
    ensures GoesIff(w, ApplyDriver(w, i, config.drivers[i]), Can(config, w.hw, w.core, Plan.DRIVERS, i))
  {
    assert config.drivers[i] in config.drivers && Validation.DriverValid(config, config.drivers[i]);
    if config.drivers[i].RestartAdapter? {
      assert Declares(config, DriverTarget(i)) && TargetOf(config, w.hw.adapters, w.hw.wifi, DriverTarget(i)).Success?;
    }
  }

  lemma ItemGoes(w: World, config: NetplanConfig, phase: nat, i: nat)
    requires Calm(w, config) && (phase == Plan.ADAPTERS ==> Sized(w)) && phase < Plan.PHASES && i < Plan.Count(config, phase)
    ensures GoesIff(w, RunItem(w, config, phase, i), Can(config, w.hw, w.core, phase, i))
  {
    match phase
    case 1 => IdentityGoes(w, config, i);
    case 2 => EntryGoes(w, config, i);
    case 3 => ProfileGoes(w, config, i);
    case 4 => ActionGoes(w, config, i);
    case 5 => ServiceGoes(w, i, config.services[i]);
    case 6 => AccountGoes(w, i, config.accounts[i]);
    case 7 => ShareGoes(w, config, i);
    case 8 => MappingGoes(w, config, i);
    case 9 =>
      if config.firewall.Some? {
        FirewallGoes(w, config.firewall.value);
      }
    case 10 => DriverGoes(w, config, i);
    case _ =>
  }

  // Whole phases.

  /** What declaration `j` needs, an earlier one of its phase neither gives nor takes. */
  lemma SamePhaseCan(w: World, config: NetplanConfig, phase: nat, i: nat, j: nat)
    requires Calm(w, config) && Plan.IDENTITY <= phase < Plan.DRIVERS && i < j < Plan.Count(config, phase)
    ensures Can(config, w.hw, RunItem(w, config, phase, i).w.core, phase, j) <==> Can(config, w.hw, w.core, phase, j)
  {
    ItemTouches(w, config, phase, i);
    match phase
    case 1 =>
      if i == 0 {
        EarlierFieldCan(w, config);
      }
    case 5 => ServiceGoes(w, i, config.services[i]);
    case 8 => EarlierMappingCan(w, config, i, j);
    case _ =>
  }

  lemma EarlierFieldCan(w: World, config: NetplanConfig)
    ensures ApplyIdentity(w, config, 0).w.core.join == w.core.join
  {
  }

  lemma EarlierMappingCan(w: World, config: NetplanConfig, i: nat, j: nat)
    requires Validation.DrivesDistinct(config) && i < j < |config.mappings|
    ensures MappingCan(ApplyMapping(w, i, config, config.mappings[i]).w.core, config.mappings[j]) <==> MappingCan(w.core, config.mappings[j])
  {
    assert !Validation.SameDrive(config.mappings[i], config.mappings[j]);
    MappingShape(w, config, i, config.mappings[i]);
  }

  ghost predicate CanFrom(config: NetplanConfig, hw: Hardware, core: Core, phase: nat, i: nat)
    requires phase < Plan.PHASES
  {
    forall j: nat :: i <= j < Plan.Count(config, phase) ==> Can(config, hw, core, phase, j)
  }

  /** The fields a fault-free run looks at before it changes them, as far as these phases leave them alone. */
  ghost predicate Spares(phase: nat, last: nat, a: Core, b: Core) {
    && (last <= Plan.PROFILES || phase > Plan.PROFILES ==> b.profiles == a.profiles)
    && (last <= Plan.SERVICES || phase > Plan.SERVICES ==> b.services == a.services)
    && (last <= Plan.MAPPINGS || phase > Plan.MAPPINGS ==> b.drives == a.drives)
  }

  lemma TouchesSpares(phase: nat, a: Core, b: Core)
    requires Plan.IDENTITY <= phase < Plan.DRIVERS && Touches(phase, a, b)
    ensures Spares(phase, phase + 1, a, b)
  {
  }

  lemma NextItemCan(w: World, config: NetplanConfig, phase: nat, i: nat)
    requires Calm(w, config) && Plan.IDENTITY <= phase < Plan.DRIVERS && i < Plan.Count(config, phase)
    ensures CanFrom(config, w.hw, RunItem(w, config, phase, i).w.core, phase, i + 1) <==> CanFrom(config, w.hw, w.core, phase, i + 1)
  {
    forall j: nat | i + 1 <= j < Plan.Count(config, phase)
      ensures Can(config, w.hw, RunItem(w, config, phase, i).w.core, phase, j) <==> Can(config, w.hw, w.core, phase, j)
    {
      SamePhaseCan(w, config, phase, i, j);
    }
  }

  lemma ItemKeepsSized(w: World, config: NetplanConfig, i: nat)
    requires Calm(w, config) && Sized(w) && i < |config.adapters|
    ensures Sized(RunItem(w, config, Plan.ADAPTERS, i).w)
  {
    EntryGoes(w, config, i);
  }

  ghost predicate PhaseGoesWell(w: World, config: NetplanConfig, phase: nat, i: nat)
    requires phase < Plan.PHASES && i <= Plan.Count(config, phase)
  {
    var r := RunPhase(w, config, phase, i);
    GoesIff(w, r, CanFrom(config, w.hw, w.core, phase, i)) && Spares(phase, phase + 1, w.core, r.w.core)
  }

  lemma CanSplit(config: NetplanConfig, hw: Hardware, core: Core, phase: nat, i: nat)
    requires phase < Plan.PHASES && i < Plan.Count(config, phase)
    ensures CanFrom(config, hw, core, phase, i) <==> Can(config, hw, core, phase, i) && CanFrom(config, hw, core, phase, i + 1)
  {
  }

  lemma PhaseGoesStep(w: World, config: NetplanConfig, phase: nat, i: nat)
    requires Calm(w, config) && (phase == Plan.ADAPTERS ==> Sized(w))
    requires Plan.IDENTITY <= phase < Plan.DRIVERS && i < Plan.Count(config, phase)
    requires RunItem(w, config, phase, i).Ok? ==> PhaseGoesWell(RunItem(w, config, phase, i).w, config, phase, i + 1)
    ensures PhaseGoesWell(w, config, phase, i)
  {
    ItemGoes(w, config, phase, i);
    ItemTouches(w, config, phase, i);
    TouchesSpares(phase, w.core, RunItem(w, config, phase, i).w.core);
    NextItemCan(w, config, phase, i);
    CanSplit(config, w.hw, w.core, phase, i);
  }

  lemma {:induction false} PhaseGoes(w: World, config: NetplanConfig, phase: nat, i: nat)
    requires Calm(w, config) && (phase == Plan.ADAPTERS ==> Sized(w))
    requires Plan.IDENTITY <= phase < Plan.DRIVERS && i <= Plan.Count(config, phase)
    ensures PhaseGoesWell(w, config, phase, i)
    decreases Plan.Count(config, phase) - i
  {
    if i < Plan.Count(config, phase) {
      ItemGoes(w, config, phase, i);
      var r := RunItem(w, config, phase, i);
      if r.Ok? {
        if phase == Plan.ADAPTERS {
          ItemKeepsSized(w, config, i);
        }
        PhaseGoes(r.w, config, phase, i + 1);
      }
      PhaseGoesStep(w, config, phase, i);
    }
  }

  lemma EnterGoes(w: World, config: NetplanConfig, phase: nat)
    requires Calm(w, config)
    ensures var r := Enter(w, config, phase);
      GoesIff(w, r, true) && r.w.core == w.core && (phase == Plan.ADAPTERS && config.adapters != [] ==> Sized(r.w))
  {
  }

  lemma LaterPhaseCan(config: NetplanConfig, hw: Hardware, phase: nat, q: nat, a: Core, b: Core)
    requires Plan.IDENTITY <= phase < q < Plan.DRIVERS && (q != Plan.ACTIONS || phase != Plan.PROFILES) && Spares(phase, phase + 1, a, b)
    ensures CanFrom(config, hw, b, q, 0) <==> CanFrom(config, hw, a, q, 0)
  {
    forall j: nat | j < Plan.Count(config, q)
      ensures Can(config, hw, b, q, j) <==> Can(config, hw, a, q, j)
    {
    }
  }

  ghost predicate CanThrough(config: NetplanConfig, hw: Hardware, core: Core, phase: nat, last: nat)
    requires last <= Plan.PHASES
  {
    forall q: nat :: phase <= q < last ==> CanFrom(config, hw, core, q, 0)
  }

  lemma LaterPhasesCan(config: NetplanConfig, hw: Hardware, phase: nat, last: nat, a: Core, b: Core)
    requires Plan.IDENTITY <= phase < last <= Plan.DRIVERS && (last <= Plan.ACTIONS || phase > Plan.PROFILES) && Spares(phase, phase + 1, a, b)
    ensures CanThrough(config, hw, a, phase, last) <==> CanFrom(config, hw, a, phase, 0) && CanThrough(config, hw, b, phase + 1, last)
  {
    forall q: nat | phase < q < last
      ensures CanFrom(config, hw, b, q, 0) <==> CanFrom(config, hw, a, q, 0)
    {
      LaterPhaseCan(config, hw, phase, q, a, b);
    }
  }

  lemma PhaseGoesWhole(w: World, config: NetplanConfig, phase: nat)
    requires Calm(w, config) && Plan.IDENTITY <= phase < Plan.DRIVERS
    ensures var r1 := Enter(w, config, phase);
      r1.Ok? && r1.w.core == w.core
      && var r := RunPhase(r1.w, config, phase, 0);
         GoesIff(w, r, CanFrom(config, w.hw, w.core, phase, 0)) && Spares(phase, phase + 1, w.core, r.w.core)
  {
    EnterGoes(w, config, phase);
    var w1 := Enter(w, config, phase).w;
    if phase != Plan.ADAPTERS || config.adapters != [] {
      PhaseGoes(w1, config, phase, 0);
    }
  }

  /** One phase, entered and carried out. */
  ghost function OnePhase(w: World, config: NetplanConfig, phase: nat): Run
    requires phase < Plan.PHASES
  {
    RunPhase(Enter(w, config, phase).w, config, phase, 0)
  }

  /** What the phases still need is what all of them needed at the start. */
  ghost predicate OnTheWay(start: Core, w: World, config: NetplanConfig, phase: nat, p: nat, last: nat)
    requires last <= Plan.PHASES
  {
    && Calm(w, config) && phase <= p && Spares(phase, p, start, w.core)
    && (CanThrough(config, w.hw, start, phase, last) <==> CanThrough(config, w.hw, w.core, p, last))
  }

  /** Something was needed that is not there. */
  ghost predicate Lacking(start: Core, w: World, config: NetplanConfig, phase: nat, last: nat)
    requires last <= Plan.PHASES
  {
    w.faults == [] && BaseSized(w) && !CanThrough(config, w.hw, start, phase, last)
  }

  lemma OnePhaseOn(start: Core, w: World, config: NetplanConfig, phase: nat, p: nat, last: nat)
    requires Plan.IDENTITY <= phase <= p < last <= Plan.DRIVERS && (last <= Plan.ACTIONS || phase > Plan.PROFILES)
    requires OnTheWay(start, w, config, phase, p, last)
    ensures var r := OnePhase(w, config, p);
      r.w.hw == w.hw && if r.Ok? then OnTheWay(start, r.w, config, phase, p + 1, last) else Lacking(start, r.w, config, phase, last)
  {
    PhaseGoesWhole(w, config, p);
    var r := OnePhase(w, config, p);
    if r.Ok? {
      LaterPhasesCan(config, w.hw, p, last, w.core, r.w.core);
    } else {
      assert !CanFrom(config, w.hw, w.core, p, 0);
    }
  }

  lemma PhaseIsStep(start: Core, w: World, config: NetplanConfig, phase: nat, p: nat, last: nat)
    requires Plan.IDENTITY <= phase <= p < last <= Plan.DRIVERS && (last <= Plan.ACTIONS || phase > Plan.PROFILES)
    requires OnTheWay(start, w, config, phase, p, last)
    ensures PhaseStep((v: World, q: nat) => OnTheWay(start, v, config, phase, q, last),
                      (v: World) => Lacking(start, v, config, phase, last), config, w, p)
  {
    EnterGoes(w, config, p);
    OnePhaseOn(start, w, config, phase, p, last);
  }

  /** These phases go well exactly when everything they need is there at the start. */
  lemma PhasesGo(w: World, config: NetplanConfig, phase: nat, last: nat)
    requires Calm(w, config) && Plan.IDENTITY <= phase <= last <= Plan.DRIVERS && (last <= Plan.ACTIONS || phase > Plan.PROFILES)
    ensures var r := RunPhases(w, config, phase, last);
      GoesIff(w, r, CanThrough(config, w.hw, w.core, phase, last)) && (r.Ok? ==> Spares(phase, last, w.core, r.w.core))
  {
    var inv := (v: World, q: nat) => OnTheWay(w.core, v, config, phase, q, last);
    var halt := (v: World) => Lacking(w.core, v, config, phase, last);
    forall v: World, p: nat | v.hw == w.hw && phase <= p < last && inv(v, p)
      ensures PhaseStep(inv, halt, config, v, p)
    {
      PhaseIsStep(w.core, v, config, phase, p, last);
    }
    PhasesInduction(inv, halt, w.hw, config, w, phase, last);
  }

  // Profiles that actions connect to.

  /** The document installs this profile on this interface. */
  ghost predicate Installs(config: NetplanConfig, hw: Hardware, key: (nat, string), i: nat) {
    exists j: nat :: i <= j < |config.wifi| && InterfaceOf(hw, config.wifi[j].selector) == Some(key.0) && Fold(config.wifi[j].ProfileName()) == key.1
  }

  ghost function InstalledKeys(config: NetplanConfig, hw: Hardware, i: nat): set<(nat, string)>
    requires i <= |config.wifi|
    decreases |config.wifi| - i
  {
    if i == |config.wifi| then {}
    else
      var interface := InterfaceOf(hw, config.wifi[i].selector);
      InstalledKeys(config, hw, i + 1) + if interface.Some? then {(interface.value, Fold(config.wifi[i].ProfileName()))} else {}
  }

  lemma {:induction false} InstalledIff(config: NetplanConfig, hw: Hardware, key: (nat, string), i: nat)
    requires i <= |config.wifi|
    ensures key in InstalledKeys(config, hw, i) <==> Installs(config, hw, key, i)
    decreases |config.wifi| - i
  {
    if i < |config.wifi| {
      InstalledIff(config, hw, key, i + 1);
    }
  }

  /** The profiles there are, and those still to be installed. */
  ghost predicate Installing(w: World, config: NetplanConfig, i: nat, keys: set<(nat, string)>) {
    Calm(w, config) && i <= |config.wifi| && w.core.profiles.Keys + InstalledKeys(config, w.hw, i) == keys
  }

  lemma InstallingNext(w: World, config: NetplanConfig, i: nat, keys: set<(nat, string)>)
    requires Installing(w, config, i, keys) && i < |config.wifi|
    ensures var r := RunItem(w, config, Plan.PROFILES, i); r.Ok? && r.w.hw == w.hw && Installing(r.w, config, i + 1, keys)
  {
    ProfileGoes(w, config, i);
    assert RunItem(w, config, Plan.PROFILES, i) == ApplyProfile(w, i, config.wifi[i]);
  }

  lemma ProfilesInstalled(w: World, config: NetplanConfig)
    requires Calm(w, config)
    ensures var r := RunPhase(w, config, Plan.PROFILES, 0);
      r.Ok? && r.w.core.profiles.Keys == w.core.profiles.Keys + InstalledKeys(config, w.hw, 0)
  {
    var keys := w.core.profiles.Keys + InstalledKeys(config, w.hw, 0);
    var inv := (v: World, j: nat) => Installing(v, config, j, keys);
    var halt := (v: World) => false;
    forall v: World, j: nat | v.hw == w.hw && j < |config.wifi| && inv(v, j)
      ensures ItemStep(inv, halt, config, Plan.PROFILES, v, j)
    {
      InstallingNext(v, config, j, keys);
    }
    PhaseInduction(inv, halt, w.hw, config, Plan.PROFILES, w, 0);
  }

  // The theorem.

  /** Every forced installation names a hardware identifier. */
  ghost predicate InstallsIdentified(config: NetplanConfig) {
    forall d :: d in config.drivers && d.Install? && d.force ==> d.hardwareId.Some?
  }

  /** The machine has what the document needs of it. */
  ghost predicate Startable(w: World, config: NetplanConfig) {
    && (config.identity.Some? && config.identity.value.workgroup.Some? ==> w.core.join.InWorkgroup?)
    && (forall i: nat :: i < |config.adapters| ==> EntryCan(config, w.hw, i))
    && (forall a :: a in config.wifiActions && a.Connect? ==> Connectable(w, config, a))
    && (forall s :: s in config.services ==> Fold(s.name) in w.core.services)
    && (forall m :: m in config.mappings ==> MappingCan(w.core, m))
    && InstallsIdentified(config)
  }

  /** The profile is on the interface already or the document installs it there. */
  ghost predicate Connectable(w: World, config: NetplanConfig, action: WifiAction)
    requires action.Connect?
  {
    var interface := InterfaceOf(w.hw, action.selector);
    interface.Some? && ((interface.value, Fold(action.profile)) in w.core.profiles
                        || Installs(config, w.hw, (interface.value, Fold(action.profile)), 0))
  }

  lemma EarlyCan(w: World, config: NetplanConfig)
    ensures CanThrough(config, w.hw, w.core, Plan.IDENTITY, Plan.ACTIONS) <==>
      && (config.identity.Some? && config.identity.value.workgroup.Some? ==> w.core.join.InWorkgroup?)
      && (forall i: nat :: i < |config.adapters| ==> EntryCan(config, w.hw, i))
  {
    assert CanFrom(config, w.hw, w.core, Plan.IDENTITY, 0) <==> Can(config, w.hw, w.core, Plan.IDENTITY, 1);
    forall i: nat | i < |config.adapters|
      ensures Can(config, w.hw, w.core, Plan.ADAPTERS, i) <==> EntryCan(config, w.hw, i)
    {
    }
    assert CanFrom(config, w.hw, w.core, Plan.PROFILES, 0);
    if CanFrom(config, w.hw, w.core, Plan.IDENTITY, 0) && CanFrom(config, w.hw, w.core, Plan.ADAPTERS, 0) {
      forall q: nat | Plan.IDENTITY <= q < Plan.ACTIONS
        ensures CanFrom(config, w.hw, w.core, q, 0)
      {
        assert q == Plan.IDENTITY || q == Plan.ADAPTERS || q == Plan.PROFILES;
      }
    }
  }

  /** The later phases, from a world in which the profiles are installed. */
  lemma LaterCan(w: World, config: NetplanConfig)
    ensures CanThrough(config, w.hw, w.core, Plan.ACTIONS, Plan.DRIVERS) <==>
      && (forall a :: a in config.wifiActions ==> ActionCan(w.hw, w.core, a))
      && (forall s :: s in config.services ==> Fold(s.name) in w.core.services)
      && (forall m :: m in config.mappings ==> MappingCan(w.core, m))
  {
    assert CanFrom(config, w.hw, w.core, Plan.ACTIONS, 0) <==> forall a :: a in config.wifiActions ==> ActionCan(w.hw, w.core, a) by {
      forall i: nat | i < |config.wifiActions|
        ensures Can(config, w.hw, w.core, Plan.ACTIONS, i) <==> ActionCan(w.hw, w.core, config.wifiActions[i])
      {
      }
    }
    assert CanFrom(config, w.hw, w.core, Plan.SERVICES, 0) <==> forall s :: s in config.services ==> Fold(s.name) in w.core.services by {
      forall i: nat | i < |config.services|
        ensures Can(config, w.hw, w.core, Plan.SERVICES, i) <==> Fold(config.services[i].name) in w.core.services
      {
      }
    }
    assert CanFrom(config, w.hw, w.core, Plan.MAPPINGS, 0) <==> forall m :: m in config.mappings ==> MappingCan(w.core, m) by {
      forall i: nat | i < |config.mappings|
        ensures Can(config, w.hw, w.core, Plan.MAPPINGS, i) <==> MappingCan(w.core, config.mappings[i])
      {
      }
    }
    if CanFrom(config, w.hw, w.core, Plan.ACTIONS, 0) && CanFrom(config, w.hw, w.core, Plan.SERVICES, 0) && CanFrom(config, w.hw, w.core, Plan.MAPPINGS, 0) {
      forall q: nat | Plan.ACTIONS <= q < Plan.DRIVERS
        ensures CanFrom(config, w.hw, w.core, q, 0)
      {
        assert q in {Plan.ACTIONS, Plan.SERVICES, Plan.ACCOUNTS, Plan.SHARES, Plan.MAPPINGS, Plan.FIREWALL};
      }
    }
  }

  lemma EarlyProfiles(w: World, config: NetplanConfig)
    requires Calm(w, config) && RunPhases(w, config, Plan.IDENTITY, Plan.ACTIONS).Ok?
    ensures forall key :: key in RunPhases(w, config, Plan.IDENTITY, Plan.ACTIONS).w.core.profiles <==>
      key in w.core.profiles || Installs(config, w.hw, key, 0)
  {
    PhasesGo(w, config, Plan.IDENTITY, Plan.PROFILES);
    RunPhasesSplit(w, config, Plan.IDENTITY, Plan.PROFILES, Plan.ACTIONS);
    var v := RunPhases(w, config, Plan.IDENTITY, Plan.PROFILES).w;
    EnterGoes(v, config, Plan.PROFILES);
    var entered := Enter(v, config, Plan.PROFILES).w;
    assert RunPhases(v, config, Plan.PROFILES, Plan.ACTIONS) == RunPhase(entered, config, Plan.PROFILES, 0);
    ProfilesInstalled(entered, config);
    forall key
      ensures key in RunPhase(entered, config, Plan.PROFILES, 0).w.core.profiles <==> key in w.core.profiles || Installs(config, w.hw, key, 0)
    {
      InstalledIff(config, w.hw, key, 0);
    }
  }

  lemma ConnectionsCan(w: World, config: NetplanConfig)
    requires Calm(w, config) && RunPhases(w, config, Plan.IDENTITY, Plan.ACTIONS).Ok?
    ensures (forall a :: a in config.wifiActions ==> ActionCan(w.hw, RunPhases(w, config, Plan.IDENTITY, Plan.ACTIONS).w.core, a))
      <==> forall a :: a in config.wifiActions && a.Connect? ==> Connectable(w, config, a)
  {
    EarlyProfiles(w, config);
  }

  ghost predicate ReversibleStartable(w: World, config: NetplanConfig) {
    Startable(w, config.(drivers := []))
  }

  /** The reversible part of a run. */
  lemma ReversibleGoes(w: World, config: NetplanConfig)
    requires Calm(w, config)
    ensures GoesIff(w, RunPhases(w, config, Plan.IDENTITY, Plan.DRIVERS), ReversibleStartable(w, config))
  {
    PhasesGo(w, config, Plan.IDENTITY, Plan.ACTIONS);
    RunPhasesSplit(w, config, Plan.IDENTITY, Plan.ACTIONS, Plan.DRIVERS);
    EarlyCan(w, config);
    var early := RunPhases(w, config, Plan.IDENTITY, Plan.ACTIONS);
    SameStart(w, config);
    if early.Ok? {
      ConnectionsCan(w, config);
      PhasesGo(early.w, config, Plan.ACTIONS, Plan.DRIVERS);
      LaterCan(early.w, config);
    }
  }

  lemma SameStart(w: World, config: NetplanConfig)
    ensures ReversibleStartable(w, config) <==>
      && (config.identity.Some? && config.identity.value.workgroup.Some? ==> w.core.join.InWorkgroup?)
      && (forall i: nat :: i < |config.adapters| ==> EntryCan(config, w.hw, i))
      && (forall a :: a in config.wifiActions && a.Connect? ==> Connectable(w, config, a))
      && (forall s :: s in config.services ==> Fold(s.name) in w.core.services)
      && (forall m :: m in config.mappings ==> MappingCan(w.core, m))
  {
    var c := config.(drivers := []);
    assert forall i: nat :: i < |config.adapters| ==> (EntryCan(config, w.hw, i) <==> EntryCan(c, w.hw, i));
    assert forall key, i: nat :: Installs(config, w.hw, key, i) <==> Installs(c, w.hw, key, i);
  }

  lemma DriversCanSame(config: NetplanConfig, hw: Hardware, a: Core, b: Core, i: nat)
    ensures CanFrom(config, hw, a, Plan.DRIVERS, i) <==> CanFrom(config, hw, b, Plan.DRIVERS, i)
  {
    forall j: nat | i <= j < Plan.Count(config, Plan.DRIVERS)
      ensures Can(config, hw, a, Plan.DRIVERS, j) <==> Can(config, hw, b, Plan.DRIVERS, j)
    {
    }
  }

  lemma DriverThenGo(w: World, config: NetplanConfig, i: nat)
    requires Calm(w, config) && i < |config.drivers|
    ensures var r := ApplyDriver(w, i, config.drivers[i]);
      && RunPhase(w, config, Plan.DRIVERS, i) == (if r.Ok? then RunPhase(r.w, config, Plan.DRIVERS, i + 1) else r)
      && GoesIff(w, r, Can(config, w.hw, w.core, Plan.DRIVERS, i)) && Calm(r.w, config)
      && (CanFrom(config, w.hw, w.core, Plan.DRIVERS, i) <==> r.Ok? && CanFrom(config, w.hw, r.w.core, Plan.DRIVERS, i + 1))
  {
    DriverGoes(w, config, i);
    DriversUnfold(w, config, i);
    DriversCanSame(config, w.hw, w.core, ApplyDriver(w, i, config.drivers[i]).w.core, i + 1);
    CanSplit(config, w.hw, w.core, Plan.DRIVERS, i);
  }

  lemma {:induction false} DriversGo(w: World, config: NetplanConfig, i: nat)
    requires Calm(w, config) && i <= |config.drivers|
    ensures GoesIff(w, RunPhase(w, config, Plan.DRIVERS, i), CanFrom(config, w.hw, w.core, Plan.DRIVERS, i))
    decreases |config.drivers| - i
  {
    if i < |config.drivers| {
      DriverThenGo(w, config, i);
      var r := ApplyDriver(w, i, config.drivers[i]);
      if r.Ok? {
        DriversGo(r.w, config, i + 1);
      }
    }
  }

  lemma {:induction false} HooksGo(w: World, config: NetplanConfig, phase: nat, i: nat)
    requires w.faults == [] && phase in {Plan.BEFORE_HOOKS, Plan.AFTER_HOOKS} && i <= |config.hooks|
    ensures var r := RunPhase(w, config, phase, i); GoesIff(w, r, true) && r.w.core == w.core
    decreases |config.hooks| - i
  {
    if i < |config.hooks| {
      HooksGo(RunItem(w, config, phase, i).w, config, phase, i + 1);
    }
  }

  lemma DriversCan(config: NetplanConfig, hw: Hardware, core: Core)
    ensures CanFrom(config, hw, core, Plan.DRIVERS, 0) <==> InstallsIdentified(config)
  {
    forall i: nat | i < |config.drivers|
      ensures Can(config, hw, core, Plan.DRIVERS, i) <==> (config.drivers[i].Install? && config.drivers[i].force ==> config.drivers[i].hardwareId.Some?)
    {
    }
  }

  lemma LateHooksGo(w: World, config: NetplanConfig)
    requires w.faults == []
    ensures GoesIff(w, RunPhases(w, config, Plan.AFTER_HOOKS, Plan.ROLLBACK_HOOKS), true)
  {
    HooksGo(w, config, Plan.AFTER_HOOKS, 0);
    assert RunPhases(w, config, Plan.AFTER_HOOKS, Plan.ROLLBACK_HOOKS) == RunPhase(w, config, Plan.AFTER_HOOKS, 0);
  }

  lemma LateGoes(w: World, config: NetplanConfig)
    requires Calm(w, config)
    ensures GoesIff(w, RunPhases(w, config, Plan.DRIVERS, Plan.ROLLBACK_HOOKS), InstallsIdentified(config))
  {
    DriversGo(w, config, 0);
    DriversCan(config, w.hw, w.core);
    var r := RunPhase(w, config, Plan.DRIVERS, 0);
    if r.Ok? {
      LateHooksGo(r.w, config);
    }
  }

  lemma StartablePart(w: World, config: NetplanConfig)
    ensures Startable(w, config) <==>
      ReversibleStartable(w, config) && InstallsIdentified(config)
  {
    SameStart(w, config);
  }

  lemma ForwardGoes(w: World, config: NetplanConfig)
    requires Calm(w, config)
    ensures GoesIff(w, Forward(w, config).0, Startable(w, config))
  {
    ReversibleGoes(w, config);
    StartablePart(w, config);
    var r := RunPhases(w, config, Plan.IDENTITY, Plan.DRIVERS);
    if r.Ok? {
      LateGoes(r.w, config);
    }
  }

  /**
   A well-formed document that the runtime check admits, and no call that fails: the run reports success
   if and only if the machine has what the document needs of it, and otherwise it has failed after the
   before-apply hooks.
   */
  lemma SucceedsIffStartable(w: World, config: NetplanConfig)
    requires Calm(w, config)
    ensures Apply(w, config).1.ok <==> Startable(w, config)
    ensures !Startable(w, config) ==> Fails(w, config) && FailedAt(w, config).faults == []
  {
    HooksGo(w, config, Plan.BEFORE_HOOKS, 0);
    StageQuiet(w, config, Plan.BEFORE_HOOKS);
    var b := RunPhase(w, config, Plan.BEFORE_HOOKS, 0).w;
    assert RunPhases(w, config, Plan.BEFORE_HOOKS, Plan.IDENTITY) == Ok(b);
    ForwardGoes(b, config);
    assert Startable(b, config) <==> Startable(w, config);
  }

  /**
   Such a run that does not succeed is undone, record by record, and its after-rollback hooks are started;
   everything but IPv4 is then as it was if and only if the run was faithful.
   */
  lemma RefusedIsUndone(w: World, config: NetplanConfig)
    requires Ready(w) && Calm(w, config) && !Startable(w, config)
    ensures var final, failed := Apply(w, config).0, FailedAt(w, config);
      && (final.core == w.core <==> Faithful(w, config))
      && NetsUndone(w.hw.network, failed.rollback, failed.nets, final.nets)
      && final.attempted == failed.attempted + RollbackHooks(config)
  {
    Validation.ReferencesResolve(config);
    SucceedsIffStartable(w, config);
    FaultlessAftermath(w, config);
    FailedExactIff(w, config);
  }
}
