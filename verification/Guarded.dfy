/**
 What runtime protection is for: no protected adapter is touched by a run, neither by its declarations
 nor by its rollback, and no Wi-Fi interface on one.
 */
module Guarded {
  import opened Std
  import opened Text
  import opened Config
  import opened Selectors
  import opened Ipv4Recovery
  import opened Machine
  import opened Transaction
  import opened Restoration
  import opened AdapterUndo
  import opened DriverPhase
  import opened RunInvariant
  import opened RollbackTheorem
  import opened Switches
  import opened Settlement
  import opened InEffect
  import opened RunRecords
  import Plan

  /** The document protects adapter `g` of the machine. */
  ghost predicate Guards(config: NetplanConfig, hw: Hardware, g: nat) {
    g < |hw.adapters| && exists p :: p in config.protectedInterfaces && ResolveAdapter(hw.adapters, p) == Success(g)
  }

  ghost predicate GuidsDistinct(hw: Hardware) {
    forall j, k :: 0 <= j < k < |hw.wifi| ==> hw.wifi[j].guid != hw.wifi[k].guid
  }

  /** The Wi-Fi interfaces on adapter `g`. */
  ghost predicate OnAdapter(hw: Hardware, g: nat, guid: nat)
    requires g < |hw.adapters|
  {
    exists k :: 0 <= k < |hw.wifi| && hw.wifi[k].guid == guid && hw.wifi[k].ifIndex == hw.adapters[g].ifIndex
  }

  ghost predicate SameWifi(a: Core, b: Core, guid: nat) {
    LookUp(b.connections, guid) == LookUp(a.connections, guid)
    && forall name :: LookUp(b.profiles, (guid, name)) == LookUp(a.profiles, (guid, name))
  }

  /** The switch, the override and the IPv4 state of adapter `g` are as they were. */
  ghost predicate AdapterSpared(w: World, after: World, g: nat) {
    && g < |w.hw.adapters| && g < |w.core.enabled| && g < |w.core.macs| && g < |w.nets|
    && after.hw == w.hw
    && |after.core.enabled| == |w.core.enabled| && |after.core.macs| == |w.core.macs| && |after.nets| == |w.nets|
    && after.core.enabled[g] == w.core.enabled[g] && after.core.macs[g] == w.core.macs[g] && after.nets[g] == w.nets[g]
    && forall on :: (g, on) in after.switches ==> (g, on) in w.switches
  }

  /** And so is the Wi-Fi on it. */
  ghost predicate Spared(w: World, after: World, g: nat) {
    AdapterSpared(w, after, g) && forall guid :: OnAdapter(w.hw, g, guid) ==> SameWifi(w.core, after.core, guid)
  }

  lemma WifiSame(w: World, after: World, g: nat)
    requires AdapterSpared(w, after, g) && after.core.profiles == w.core.profiles && after.core.connections == w.core.connections
    ensures Spared(w, after, g)
  {
  }

  lemma SparedThen(w: World, mid: World, after: World, g: nat)
    requires Spared(w, mid, g) && Spared(mid, after, g)
    ensures Spared(w, after, g)
  {
  }

  // What a target is, is not protected.

  lemma TargetIsNotGuarded(config: NetplanConfig, hw: Hardware, g: nat, t: Target)
    requires Protected(config, hw.adapters, hw.wifi) && Guards(config, hw, g) && Declares(config, t)
    ensures TargetOf(config, hw.adapters, hw.wifi, t).Success?
    ensures TargetOf(config, hw.adapters, hw.wifi, t).value != hw.adapters[g].ifIndex
  {
    var p :| p in config.protectedInterfaces && ResolveAdapter(hw.adapters, p) == Success(g);
    assert IndexOf(hw.adapters, p) == Success(hw.adapters[g].ifIndex);
  }

  lemma InterfaceIsNotGuarded(config: NetplanConfig, hw: Hardware, g: nat, t: Target, selector: Option<InterfaceSelector>)
    requires Protected(config, hw.adapters, hw.wifi) && Guards(config, hw, g) && GuidsDistinct(hw) && Declares(config, t)
    requires (t.ProfileTarget? && config.wifi[t.index].selector == selector) || (t.ActionTarget? && config.wifiActions[t.index].selector == selector)
    ensures InterfaceOf(hw, selector).Some? && !OnAdapter(hw, g, InterfaceOf(hw, selector).value)
  {
    TargetIsNotGuarded(config, hw, g, t);
    var k := ResolveWifi(hw.adapters, hw.wifi, selector).value;
    assert TargetOf(config, hw.adapters, hw.wifi, t) == Success(hw.wifi[k].ifIndex);
    assert forall j :: 0 <= j < |hw.wifi| && hw.wifi[j].guid == hw.wifi[k].guid ==> j == k;
  }

  // Declarations.

  lemma EntrySpares(w: World, i: nat, entry: AdapterConfig, a: nat, g: nat)
    requires Sized(w) && a < |w.hw.adapters| && g < |w.hw.adapters| && a != g
    ensures Spared(w, ApplyAdapterAt(w, i, entry, a).w, g)
  {
    OtherAdapterKept(w, i, entry, a, g);
    EntryTouches(w, i, entry, a);
    EntrySwitchesOnly(w, i, entry, a);
    EntryNetsOnly(w, i, entry, a);
  }

  lemma EntryNetsOnly(w: World, i: nat, entry: AdapterConfig, a: nat)
    requires Sized(w) && a < |w.hw.adapters|
    ensures var r := ApplyAdapterAt(w, i, entry, a).w;
      |r.nets| == |w.nets| && forall b :: 0 <= b < |w.nets| && b != a ==> r.nets[b] == w.nets[b]
  {
    var r1 := EnableStep(w, i, entry, a);
    if r1.Ok? {
      MacFacts(r1.w, i, entry, a);
      var r2 := MacStep(r1.w, i, entry, a);
      if r2.Ok? {
        Ipv4StepFrame(r2.w, i, entry, a);
      }
    }
  }

  lemma AdapterItemSpares(config: NetplanConfig, w: World, i: nat, g: nat)
    requires Protected(config, w.hw.adapters, w.hw.wifi) && Guards(config, w.hw, g) && BaseSized(w) && i < |config.adapters|
    ensures Spared(w, ApplyAdapter(w, i, config.adapters[i]).w, g)
  {
    TargetIsNotGuarded(config, w.hw, g, AdapterTarget(i));
    var a := ResolveAdapter(w.hw.adapters, config.adapters[i].selector).value;
    assert a != g;
    if Sized(w) {
      EntrySpares(w, i, config.adapters[i], a, g);
    }
  }

  lemma ProfileElsewhere(w: World, i: nat, profile: WifiProfile, guid: nat)
    requires InterfaceOf(w.hw, profile.selector) != Some(guid)
    ensures SameWifi(w.core, ApplyProfile(w, i, profile).w.core, guid)
  {
  }

  lemma ActionElsewhere(w: World, i: nat, action: WifiAction, guid: nat)
    requires InterfaceOf(w.hw, action.selector) != Some(guid)
    ensures SameWifi(w.core, ApplyAction(w, i, action).w.core, guid)
  {
    ActionTouches(w, i, action);
    var interface := InterfaceOf(w.hw, action.selector);
    if interface.Some? && !action.Scan? {
      var w3 := Push(Tick(Attempt(w, Plan.WifiRun(i, Plan.KindOf(action)))), UndoConnection(interface.value, LookUp(w.core.connections, interface.value)));
      ConnectionElsewhere(w3, interface.value, if action.Connect? then Fold(action.profile) else "");
    }
  }

  lemma WifiItemSpares(config: NetplanConfig, w: World, phase: nat, i: nat, g: nat)
    requires Protected(config, w.hw.adapters, w.hw.wifi) && Guards(config, w.hw, g) && GuidsDistinct(w.hw)
    requires phase in {Plan.PROFILES, Plan.ACTIONS} && i < Plan.Count(config, phase)
    ensures forall guid :: OnAdapter(w.hw, g, guid) ==> SameWifi(w.core, RunItem(w, config, phase, i).w.core, guid)
  {
    if phase == Plan.PROFILES {
      InterfaceIsNotGuarded(config, w.hw, g, ProfileTarget(i), config.wifi[i].selector);
    } else {
      InterfaceIsNotGuarded(config, w.hw, g, ActionTarget(i), config.wifiActions[i].selector);
    }
    forall guid | OnAdapter(w.hw, g, guid)
      ensures SameWifi(w.core, RunItem(w, config, phase, i).w.core, guid)
    {
      if phase == Plan.PROFILES {
        ProfileElsewhere(w, i, config.wifi[i], guid);
      } else {
        ActionElsewhere(w, i, config.wifiActions[i], guid);
      }
    }
  }

  lemma ItemSpares(config: NetplanConfig, origin: Core, nets0: seq<Net>, w: World, phase: nat, i: nat, g: nat)
    requires During(config, origin, nets0, w, phase, i)
    requires Protected(config, w.hw.adapters, w.hw.wifi) && Guards(config, w.hw, g) && GuidsDistinct(w.hw)
    requires Plan.IDENTITY <= phase < Plan.DRIVERS && i < Plan.Count(config, phase)
    ensures Spared(w, RunItem(w, config, phase, i).w, g)
  {
    if phase == Plan.ADAPTERS {
      AdapterItemSpares(config, w, i, g);
      AdapterItem(w, config, i);
    } else {
      ItemTouches(w, config, phase, i);
      if phase == Plan.SHARES {
        ShareShape(w, i, config, config.shares[i]);
      } else {
        OtherItemKeeps(config, origin, w, phase, i);
      }
      if phase in {Plan.PROFILES, Plan.ACTIONS} {
        WifiItemSpares(config, w, phase, i, g);
      }
    }
  }

  // Records.

  /** Undoing the record does not touch adapter `g` or the Wi-Fi on it. */
  ghost predicate Avoids(hw: Hardware, u: Undo, g: nat)
    requires g < |hw.adapters|
  {
    && (OfAdapter(u) ==> AdapterOf(u) != g)
    && (u.UndoProfile? || u.UndoConnection? ==> !OnAdapter(hw, g, u.interface))
  }

  ghost predicate LogAvoids(w: World, g: nat)
    requires g < |w.hw.adapters|
  {
    forall x :: 0 <= x < |w.rollback| ==> Avoids(w.hw, w.rollback[x], g)
  }

  lemma FitsAvoids(config: NetplanConfig, hw: Hardware, phase: nat, i: nat, u: Undo, g: nat)
    requires Protected(config, hw.adapters, hw.wifi) && Guards(config, hw, g) && GuidsDistinct(hw)
    requires Plan.IDENTITY <= phase < Plan.DRIVERS && i < Plan.Count(config, phase) && Fits(config, hw, phase, i, u)
    ensures Avoids(hw, u, g)
  {
    if phase == Plan.ADAPTERS {
      TargetIsNotGuarded(config, hw, g, AdapterTarget(i));
    } else if phase == Plan.PROFILES {
      InterfaceIsNotGuarded(config, hw, g, ProfileTarget(i), config.wifi[i].selector);
    } else if phase == Plan.ACTIONS {
      InterfaceIsNotGuarded(config, hw, g, ActionTarget(i), config.wifiActions[i].selector);
    }
  }

  lemma ItemAvoids(w: World, config: NetplanConfig, phase: nat, i: nat, g: nat)
    requires Protected(config, w.hw.adapters, w.hw.wifi) && Guards(config, w.hw, g) && GuidsDistinct(w.hw)
    requires Plan.IDENTITY <= phase < Plan.DRIVERS && i < Plan.Count(config, phase) && Known(w.core) && LogAvoids(w, g)
    ensures var r := RunItem(w, config, phase, i).w; r.hw == w.hw && LogAvoids(r, g)
  {
    var after := RunItem(w, config, phase, i).w;
    ItemAdds(w, config, phase, i);
    forall x | 0 <= x < |after.rollback|
      ensures Avoids(w.hw, after.rollback[x], g)
    {
      if x < |w.rollback| {
        assert after.rollback[x] == w.rollback[x];
      } else {
        FitsAvoids(config, w.hw, phase, i, after.rollback[x], g);
      }
    }
  }

  /** Adapter `g` exists. */
  predicate Exists(w: World, g: nat) {
    g < |w.hw.adapters| && g < |w.core.enabled| && g < |w.core.macs| && g < |w.nets|
  }

  lemma StateUndoSpares(w: World, u: Undo, g: nat)
    requires Exists(w, g) && u.UndoAdapterState? && u.adapter != g
    ensures Spared(w, Execute(w, u).w, g)
  {
    WifiSame(w, Execute(w, u).w, g);
  }

  lemma RestartSpares(w: World, a: nat, g: nat)
    requires Exists(w, g) && a < |w.core.enabled| && a != g
    ensures Spared(w, Machine.RestartAdapter(w, a).w, g)
  {
    WifiSame(w, Machine.RestartAdapter(w, a).w, g);
  }

  lemma MacUndoSpares(w: World, u: Undo, g: nat)
    requires Exists(w, g) && u.UndoMac? && u.adapter != g
    ensures Spared(w, Execute(w, u).w, g)
  {
    if InRange(w, u) && Healthy(w) {
      var w1 := Tick(w).(core := w.core.(macs := w.core.macs[u.adapter := u.previous]));
      WifiSame(w, w1, g);
      if u.restart {
        RestartSpares(w1, u.adapter, g);
        SparedThen(w, w1, Machine.RestartAdapter(w1, u.adapter).w, g);
        assert Execute(w, u) == Machine.RestartAdapter(w1, u.adapter);
      }
    } else {
      WifiSame(w, Execute(w, u).w, g);
    }
  }

  lemma Ipv4UndoSpares(w: World, u: Undo, g: nat)
    requires Exists(w, g) && u.UndoIpv4? && u.restore.adapter != g
    ensures Spared(w, Execute(w, u).w, g)
  {
    if InRange(w, u) {
      RestoreNetFrame(w, u.restore);
      assert Execute(w, u) == RestoreNet(w, u.restore);
    }
    WifiSame(w, Execute(w, u).w, g);
  }

  /** Nothing but profiles and connections may have changed. */
  ghost predicate OnlyWifi(w: World, after: World) {
    && after.hw == w.hw && after.nets == w.nets && after.switches == w.switches
    && after.core.enabled == w.core.enabled && after.core.macs == w.core.macs
  }

  lemma ProfileUndoElsewhere(w: World, u: Undo, guid: nat)
    requires u.UndoProfile? && guid != u.interface
    ensures var r := Execute(w, u).w; OnlyWifi(w, r) && SameWifi(w.core, r.core, guid)
  {
    if Healthy(w) {
      var t := Tick(w);
      if u.content.Some? {
        assert Execute(w, u) == SetProfile(t, u.interface, u.profile, u.content.value);
        ProfileSetElsewhere(t, u.interface, u.profile, u.content.value, guid);
      } else {
        assert Execute(w, u) == Change(t, DropProfile(t.core, u.interface, u.profile));
        ProfileDroppedElsewhere(t.core, u.interface, u.profile, guid);
      }
    }
  }

  lemma ProfileSetElsewhere(w: World, interface: nat, name: string, content: ProfileContent, guid: nat)
    requires guid != interface
    ensures var r := SetProfile(w, interface, name, content).w; OnlyWifi(w, r) && SameWifi(w.core, r.core, guid)
  {
  }

  lemma ProfileDroppedElsewhere(core: Core, interface: nat, name: string, guid: nat)
    requires guid != interface
    ensures SameWifi(core, DropProfile(core, interface, name), guid)
  {
  }

  lemma ConnectionUndoElsewhere(w: World, u: Undo, guid: nat)
    requires u.UndoConnection? && guid != u.interface
    ensures var r := Execute(w, u).w; OnlyWifi(w, r) && SameWifi(w.core, r.core, guid)
  {
    if Healthy(w) {
      var t := Tick(w);
      var name := if u.connection.Some? then u.connection.value else "";
      ConnectionElsewhere(t, u.interface, name);
      ConnectionsOnly(t, u.interface, name);
      assert Execute(w, u) == if u.connection.Some? then Machine.Connect(t, u.interface, name) else Machine.Disconnect(t, u.interface);
    }
  }

  lemma ConnectionsOnly(w: World, interface: nat, name: string)
    ensures var r := Machine.Connect(w, interface, name).w; OnlyWifi(w, r) && r.core.profiles == w.core.profiles
    ensures var r := Machine.Disconnect(w, interface).w; OnlyWifi(w, r) && r.core.profiles == w.core.profiles
  {
  }

  lemma WifiUndoSpares(w: World, u: Undo, g: nat)
    requires Exists(w, g) && Avoids(w.hw, u, g) && (u.UndoProfile? || u.UndoConnection?)
    ensures Spared(w, Execute(w, u).w, g)
  {
    if u.UndoProfile? {
      ProfileUndoElsewhere(w, u, u.interface + 1);
    } else {
      ConnectionUndoElsewhere(w, u, u.interface + 1);
    }
    forall guid | OnAdapter(w.hw, g, guid)
      ensures SameWifi(w.core, Execute(w, u).w.core, guid)
    {
      if u.UndoProfile? {
        ProfileUndoElsewhere(w, u, guid);
      } else {
        ConnectionUndoElsewhere(w, u, guid);
      }
    }
  }

  /** Nothing about adapters or Wi-Fi has changed. */
  ghost predicate BesideAdapters(w: World, after: World) {
    OnlyWifi(w, after) && after.core.profiles == w.core.profiles && after.core.connections == w.core.connections
  }

  lemma FirewallUndoFrame(w: World, u: Undo)
    requires u.UndoFirewall?
    ensures BesideAdapters(w, Execute(w, u).w)
  {
  }

  lemma ServiceUndoFrame(w: World, u: Undo)
    requires u.UndoService?
    ensures BesideAdapters(w, Execute(w, u).w)
  {
  }

  lemma ShareUndoFrame(w: World, u: Undo)
    requires u.UndoShare?
    ensures BesideAdapters(w, Execute(w, u).w)
  {
  }

  lemma PlainUndoFrame(w: World, u: Undo)
    requires u.UndoComputerName? || u.UndoWorkgroup? || u.UndoDnsSuffix? || u.UndoAccount? || u.UndoMapping?
    ensures BesideAdapters(w, Execute(w, u).w)
  {
  }

  lemma OtherUndoSpares(w: World, u: Undo, g: nat)
    requires Exists(w, g) && !OfAdapter(u) && !u.UndoProfile? && !u.UndoConnection?
    ensures Spared(w, Execute(w, u).w, g)
  {
    if u.UndoFirewall? {
      FirewallUndoFrame(w, u);
    } else if u.UndoService? {
      ServiceUndoFrame(w, u);
    } else if u.UndoShare? {
      ShareUndoFrame(w, u);
    } else {
      PlainUndoFrame(w, u);
    }
    WifiSame(w, Execute(w, u).w, g);
  }

  lemma UndoSpares(w: World, u: Undo, g: nat)
    requires Exists(w, g) && Avoids(w.hw, u, g)
    ensures Spared(w, Execute(w, u).w, g)
  {
    match u
    case UndoAdapterState(_, _) => StateUndoSpares(w, u, g);
    case UndoMac(_, _, _) => MacUndoSpares(w, u, g);
    case UndoIpv4(_) => Ipv4UndoSpares(w, u, g);
    case UndoProfile(_, _, _) => WifiUndoSpares(w, u, g);
    case UndoConnection(_, _) => WifiUndoSpares(w, u, g);
    case _ => OtherUndoSpares(w, u, g);
  }

  lemma {:induction false} RollbackSpares(w: World, log: seq<Undo>, g: nat)
    requires Exists(w, g)
    requires forall x :: 0 <= x < |log| ==> Avoids(w.hw, log[x], g)
    ensures Spared(w, RollbackAll(w, log).0, g)
    decreases |log|
  {
    if log != [] {
      var n := |log| - 1;
      UndoSpares(w, log[n], g);
      var next := Execute(w, log[n]).w;
      RollbackSpares(next, log[..n], g);
      SparedThen(w, next, RollbackAll(next, log[..n]).0, g);
    }
  }

  // Whole runs.

  /** Before and after each step. */
  ghost predicate SparedSoFar(start: World, w: World, g: nat) {
    Spared(start, w, g) && LogAvoids(w, g)
  }

  lemma PhaseSpares(config: NetplanConfig, origin: Core, nets0: seq<Net>, start: World, w: World, phase: nat, g: nat)
    requires Plan.IDENTITY <= phase < Plan.DRIVERS
    requires During(config, origin, nets0, w, phase, 0) && SharesDistinct(config) && SparedSoFar(start, w, g)
    requires Protected(config, w.hw.adapters, w.hw.wifi) && Guards(config, w.hw, g) && GuidsDistinct(w.hw)
    ensures SparedSoFar(start, RunPhase(w, config, phase, 0).w, g)
  {
    var inv := (v: World, j: nat) => During(config, origin, nets0, v, phase, j) && SparedSoFar(start, v, g);
    var halt := (v: World) => SparedSoFar(start, v, g);
    forall v: World, j: nat | v.hw == w.hw && j < Plan.Count(config, phase) && inv(v, j)
      ensures ItemStep(inv, halt, config, phase, v, j)
    {
      ItemKeeps(config, origin, nets0, v, phase, j);
      ItemSpares(config, origin, nets0, v, phase, j, g);
      ItemAvoids(v, config, phase, j, g);
      SparedThen(start, v, RunItem(v, config, phase, j).w, g);
    }
    PhaseInduction(inv, halt, w.hw, config, phase, w, 0);
  }

  lemma EnterSpares(start: World, w: World, config: NetplanConfig, p: nat, g: nat)
    requires SparedSoFar(start, w, g)
    ensures SparedSoFar(start, Enter(w, config, p).w, g)
  {
    var r := Enter(w, config, p).w;
    assert r.core == w.core && r.rollback == w.rollback && r.nets == w.nets && r.switches == w.switches && r.hw == w.hw;
  }

  lemma EnteredPhaseSpares(config: NetplanConfig, origin: Core, nets0: seq<Net>, start: World, w: World, p: nat, g: nat)
    requires Plan.IDENTITY <= p < Plan.DRIVERS
    requires Before(config, origin, nets0, w, p) && SharesDistinct(config) && SparedSoFar(start, w, g)
    requires Protected(config, w.hw.adapters, w.hw.wifi) && Guards(config, w.hw, g) && GuidsDistinct(w.hw)
    ensures PhaseStep((v: World, q: nat) => Before(config, origin, nets0, v, q) && SparedSoFar(start, v, g),
                      (v: World) => SparedSoFar(start, v, g), config, w, p)
  {
    EnterKeeps(config, origin, nets0, w, p);
    EnterSpares(start, w, config, p, g);
    var r1 := Enter(w, config, p);
    if r1.Ok? {
      PhaseSpares(config, origin, nets0, start, r1.w, p, g);
      PhaseKeeps(config, origin, nets0, r1.w, p);
      var r2 := RunPhase(r1.w, config, p, 0);
      if r2.Ok? {
        DuringIsBefore(config, origin, nets0, r2.w, p, Plan.Count(config, p));
      }
    }
  }

  lemma PhasesSpare(config: NetplanConfig, origin: Core, nets0: seq<Net>, w: World, g: nat)
    requires Before(config, origin, nets0, w, Plan.IDENTITY) && SharesDistinct(config) && SparedSoFar(w, w, g)
    requires Protected(config, w.hw.adapters, w.hw.wifi) && Guards(config, w.hw, g) && GuidsDistinct(w.hw)
    ensures SparedSoFar(w, RunPhases(w, config, Plan.IDENTITY, Plan.DRIVERS).w, g)
  {
    var inv := (v: World, q: nat) => Before(config, origin, nets0, v, q) && SparedSoFar(w, v, g);
    var halt := (v: World) => SparedSoFar(w, v, g);
    forall v: World, p: nat | v.hw == w.hw && Plan.IDENTITY <= p < Plan.DRIVERS && inv(v, p)
      ensures PhaseStep(inv, halt, config, v, p)
    {
      EnteredPhaseSpares(config, origin, nets0, w, v, p, g);
    }
    PhasesInduction(inv, halt, w.hw, config, w, Plan.IDENTITY, Plan.DRIVERS);
  }

  lemma DriverSpares(w: World, config: NetplanConfig, i: nat, g: nat)
    requires Protected(config, w.hw.adapters, w.hw.wifi) && Guards(config, w.hw, g) && BaseSized(w) && i < |config.drivers|
    ensures var r := ApplyDriver(w, i, config.drivers[i]).w; Spared(w, r, g) && r.rollback == w.rollback
  {
    var d := config.drivers[i];
    DriverSwitchesOnly(w, i, d);
    if d.Install? {
      InstallSwitchesNothing(Attempt(w, Plan.DriverInstall(i, d.force)), i, d.hardwareId, d.force, d.restart);
      WifiSame(w, ApplyDriver(w, i, d).w, g);
    } else {
      TargetIsNotGuarded(config, w.hw, g, DriverTarget(i));
      var w1, a := Tick(Attempt(w, Plan.DriverRestart(i))), ResolveAdapter(w.hw.adapters, d.selector).value;
      WifiSame(w, w1, g);
      if Healthy(w) {
        RestartSpares(w1, a, g);
        SparedThen(w, w1, Machine.RestartAdapter(w1, a).w, g);
        assert ApplyDriver(w, i, d) == Machine.RestartAdapter(w1, a);
      }
    }
  }

  lemma {:induction false} DriversSpare(w: World, config: NetplanConfig, i: nat, g: nat)
    requires Protected(config, w.hw.adapters, w.hw.wifi) && Guards(config, w.hw, g) && BaseSized(w) && i <= |config.drivers|
    ensures var r := RunPhase(w, config, Plan.DRIVERS, i).w; Spared(w, r, g) && r.rollback == w.rollback
    decreases |config.drivers| - i
  {
    if i < |config.drivers| {
      DriverSpares(w, config, i, g);
      DriversUnfold(w, config, i);
      var r := ApplyDriver(w, i, config.drivers[i]);
      if r.Ok? {
        DriversSpare(r.w, config, i + 1, g);
        SparedThen(w, r.w, RunPhase(r.w, config, Plan.DRIVERS, i + 1).w, g);
      }
    }
  }

  /** Where the run ended or failed. */
  lemma ForwardSpares(w: World, config: NetplanConfig, g: nat)
    requires Ready(w) && SharesDistinct(config) && Protected(config, w.hw.adapters, w.hw.wifi)
    requires Guards(config, w.hw, g) && GuidsDistinct(w.hw)
    ensures SparedSoFar(w, FailedAt(w, config), g)
  {
    StageQuiet(w, config, Plan.BEFORE_HOOKS);
    var b := RunPhases(w, config, Plan.BEFORE_HOOKS, Plan.IDENTITY).w;
    WifiSame(w, b, g);
    ReadyIsBefore(config, b);
    WifiSame(b, b, g);
    PhasesSpare(config, b.core, b.nets, b, g);
    var r := RunPhases(b, config, Plan.IDENTITY, Plan.DRIVERS);
    SparedThen(w, b, r.w, g);
    if r.Ok? {
      PhasesKeep(config, b.core, b.nets, b, Plan.IDENTITY, Plan.DRIVERS);
      LateSpares(r.w, config, g);
      SparedThen(w, r.w, RunPhases(r.w, config, Plan.DRIVERS, Plan.ROLLBACK_HOOKS).w, g);
    }
  }

  lemma LateSpares(w: World, config: NetplanConfig, g: nat)
    requires Protected(config, w.hw.adapters, w.hw.wifi) && Guards(config, w.hw, g) && BaseSized(w)
    ensures var r := RunPhases(w, config, Plan.DRIVERS, Plan.ROLLBACK_HOOKS).w; Spared(w, r, g) && r.rollback == w.rollback
  {
    DriversSpare(w, config, 0, g);
    var r := RunPhase(w, config, Plan.DRIVERS, 0);
    if r.Ok? {
      HooksSpare(r.w, config, 0);
      var s := RunPhase(r.w, config, Plan.AFTER_HOOKS, 0);
      assert RunPhases(r.w, config, Plan.AFTER_HOOKS, Plan.ROLLBACK_HOOKS).w == s.w;
      WifiSame(r.w, s.w, g);
      SparedThen(w, r.w, s.w, g);
    }
  }

  lemma {:induction false} HooksSpare(w: World, config: NetplanConfig, i: nat)
    requires i <= |config.hooks|
    ensures var r := RunPhase(w, config, Plan.AFTER_HOOKS, i).w;
      r.hw == w.hw && r.core == w.core && r.nets == w.nets && r.switches == w.switches && r.rollback == w.rollback
    decreases |config.hooks| - i
  {
    if i < |config.hooks| {
      var r := RunItem(w, config, Plan.AFTER_HOOKS, i);
      if r.Ok? {
        HooksSpare(r.w, config, i + 1);
      }
    }
  }

  /**
   Whatever the document declares and whatever fails: a run that the runtime check admits leaves every
   protected adapter as it was, its switch, override and IPv4 state and the profiles and connections of
   the Wi-Fi interfaces on it, and switches it neither on the way nor on the way back.
   */
  lemma GuardedUntouched(w: World, config: NetplanConfig, g: nat)
    requires Ready(w) && SharesDistinct(config) && Protected(config, w.hw.adapters, w.hw.wifi)
    requires Guards(config, w.hw, g) && GuidsDistinct(w.hw)
    ensures Spared(w, Apply(w, config).0, g)
  {
    StageQuiet(w, config, Plan.BEFORE_HOOKS);
    var before := RunPhases(w, config, Plan.BEFORE_HOOKS, Plan.IDENTITY);
    if before.Err? {
      WifiSame(w, before.w, g);
    } else {
      ForwardSpares(w, config, g);
      var run := Forward(before.w, config).0;
      if run.Err? {
        var restored := RollbackAll(run.w, run.w.rollback).0;
        RollbackSpares(run.w, run.w.rollback, g);
        StageQuiet(restored, config, Plan.ROLLBACK_HOOKS);
        WifiSame(restored, RunPhases(restored, config, Plan.ROLLBACK_HOOKS, Plan.PHASES).w, g);
        SparedThen(w, run.w, restored, g);
        SparedThen(w, restored, RunPhases(restored, config, Plan.ROLLBACK_HOOKS, Plan.PHASES).w, g);
      }
    }
  }
}
