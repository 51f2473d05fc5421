/** Which records a declaration writes, and what of the machine it is about. */
module RunRecords {
  import opened Std
  import opened Text
  import opened Config
  import opened Selectors
  import opened Ipv4Recovery
  import opened Machine
  import opened Transaction
  import opened Restoration
  import opened AdapterUndo
  import opened DriverPhase
  import opened RunInvariant
  import opened RollbackTheorem
  import opened InEffect
  import Plan

  function AdapterOf(u: Undo): nat
    requires OfAdapter(u)
  {
    match u
    case UndoAdapterState(adapter, _) => adapter
    case UndoMac(adapter, _, _) => adapter
    case UndoIpv4(r) => r.adapter
  }

  /** What the record needs to be executed is there. */
  predicate Supplied(u: Undo, core: Core) {
    match u
    case UndoService(name, _) => name in core.services
    case UndoConnection(interface, connection) => connection.Some? ==> (interface, connection.value) in core.profiles
    case _ => true
  }

  /** The record is about what declaration `i` of the phase is about. */
  ghost predicate Fits(config: NetplanConfig, hw: Hardware, phase: nat, i: nat, u: Undo)
    requires phase < Plan.PHASES && i < Plan.Count(config, phase)
  {
    match phase
    case 2 => OfAdapter(u) && ResolveAdapter(hw.adapters, config.adapters[i].selector) == Success(AdapterOf(u))
    case 3 => u.UndoProfile? && InterfaceOf(hw, config.wifi[i].selector) == Some(u.interface)
    case 4 => u.UndoConnection? && InterfaceOf(hw, config.wifiActions[i].selector) == Some(u.interface)
    case 5 => u.UndoService?
    case _ => !OfAdapter(u) && !u.UndoProfile? && !u.UndoConnection? && !u.UndoService?
  }

  /** Records have only been added, and the new ones fit. */
  ghost predicate Adds(config: NetplanConfig, phase: nat, i: nat, w: World, after: World)
    requires phase < Plan.PHASES && i < Plan.Count(config, phase)
  {
    && after.hw == w.hw && IsPrefix(w.rollback, after.rollback)
    && forall x :: |w.rollback| <= x < |after.rollback| ==>
         Fits(config, w.hw, phase, i, after.rollback[x]) && Supplied(after.rollback[x], after.core)
  }

  /** One new record at most. */
  lemma OneAdds(w: World, after: World, config: NetplanConfig, phase: nat, i: nat)
    requires phase < Plan.PHASES && i < Plan.Count(config, phase) && after.hw == w.hw
    requires after.rollback == w.rollback
      || (after.rollback != [] && after.rollback == w.rollback + [Last(after)]
          && Fits(config, w.hw, phase, i, Last(after)) && Supplied(Last(after), after.core))
    ensures Adds(config, phase, i, w, after)
  {
  }

  lemma ProfileAdds(w: World, config: NetplanConfig, i: nat)
    requires i < |config.wifi|
    ensures Adds(config, Plan.PROFILES, i, w, ApplyProfile(w, i, config.wifi[i]).w)
  {
  }

  lemma ActionAdds(w: World, config: NetplanConfig, i: nat)
    requires i < |config.wifiActions| && Known(w.core)
    ensures Adds(config, Plan.ACTIONS, i, w, ApplyAction(w, i, config.wifiActions[i]).w)
  {
    ActionShape(w, i, config.wifiActions[i]);
    ActionTouches(w, i, config.wifiActions[i]);
  }

  lemma ServiceRecord(w: World, i: nat, service: Service)
    ensures var r := ApplyService(w, i, service).w;
      && r.hw == w.hw
      && (r.rollback == w.rollback
          || (r.rollback != [] && r.rollback == w.rollback + [Last(r)] && Last(r).UndoService? && Last(r).service in w.core.services))
  {
    ServiceShape(w, i, service);
  }

  lemma ServicesStay(w: World, i: nat, service: Service)
    ensures forall n :: n in w.core.services ==> n in ApplyService(w, i, service).w.core.services
  {
  }

  lemma ServiceAdds(w: World, config: NetplanConfig, i: nat)
    requires i < |config.services|
    ensures var r := ApplyService(w, i, config.services[i]).w;
      Adds(config, Plan.SERVICES, i, w, r) && forall n :: n in w.core.services ==> n in r.core.services
  {
    ServiceRecord(w, i, config.services[i]);
    ServicesStay(w, i, config.services[i]);
    OneAdds(w, ApplyService(w, i, config.services[i]).w, config, Plan.SERVICES, i);
  }

  lemma ShareRecord(w: World, i: nat, config: NetplanConfig, share: SmbShare)
    ensures var r := ApplyShare(w, i, config, share).w;
      && r.hw == w.hw
      && (r.rollback == w.rollback || (r.rollback != [] && r.rollback == w.rollback + [Last(r)] && Last(r).UndoShare?))
  {
    ShareShape(w, i, config, share);
  }

  lemma ShareAdds(w: World, config: NetplanConfig, i: nat)
    requires i < |config.shares|
    ensures Adds(config, Plan.SHARES, i, w, ApplyShare(w, i, config, config.shares[i]).w)
  {
    ShareRecord(w, i, config, config.shares[i]);
    OneAdds(w, ApplyShare(w, i, config, config.shares[i]).w, config, Plan.SHARES, i);
  }

  lemma MappingAdds(w: World, config: NetplanConfig, i: nat)
    requires i < |config.mappings|
    ensures Adds(config, Plan.MAPPINGS, i, w, ApplyMapping(w, i, config, config.mappings[i]).w)
  {
    MappingShape(w, config, i, config.mappings[i]);
    OneAdds(w, ApplyMapping(w, i, config, config.mappings[i]).w, config, Plan.MAPPINGS, i);
  }

  /** One untraced record at most. */
  lemma PlainAdds(w: World, config: NetplanConfig, phase: nat, i: nat, r: Run)
    requires phase in {Plan.IDENTITY, Plan.ACCOUNTS, Plan.FIREWALL} && i < Plan.Count(config, phase) && Plain(w, r)
    ensures Adds(config, phase, i, w, r.w)
  {
  }

  lemma PlainItemAdds(w: World, config: NetplanConfig, phase: nat, i: nat)
    requires phase in {Plan.IDENTITY, Plan.ACCOUNTS, Plan.FIREWALL} && i < Plan.Count(config, phase)
    ensures Adds(config, phase, i, w, RunItem(w, config, phase, i).w)
  {
    if phase == Plan.IDENTITY {
      IdentityPlain(w, config, i);
    } else if phase == Plan.ACCOUNTS {
      AccountPlain(w, i, config.accounts[i]);
    } else if config.firewall.Some? {
      FirewallPlain(w, config.firewall.value);
    }
    PlainAdds(w, config, phase, i, RunItem(w, config, phase, i));
  }

  // Adapter entries.

  ghost predicate AddsFor(a: nat, w: World, after: World) {
    && after.hw == w.hw && IsPrefix(w.rollback, after.rollback)
    && forall x :: |w.rollback| <= x < |after.rollback| ==> OfAdapter(after.rollback[x]) && AdapterOf(after.rollback[x]) == a
  }

  lemma AddsForThen(a: nat, w: World, mid: World, after: World)
    requires AddsFor(a, w, mid) && AddsFor(a, mid, after)
    ensures AddsFor(a, w, after)
  {
    forall x | |w.rollback| <= x < |after.rollback|
      ensures OfAdapter(after.rollback[x]) && AdapterOf(after.rollback[x]) == a
    {
      if x < |mid.rollback| {
        assert after.rollback[x] == mid.rollback[x];
      }
    }
  }

  lemma EnableAdds(w: World, i: nat, entry: AdapterConfig, a: nat)
    requires Sized(w) && a < |w.hw.adapters|
    ensures AddsFor(a, w, EnableStep(w, i, entry, a).w) && AddsFor(a, w, DisableStep(w, i, entry, a).w)
  {
  }

  lemma MacAdds(w: World, i: nat, entry: AdapterConfig, a: nat)
    requires Sized(w) && a < |w.hw.adapters|
    ensures AddsFor(a, w, MacStep(w, i, entry, a).w)
  {
    MacFacts(w, i, entry, a);
  }

  lemma Ipv4Adds(w: World, i: nat, entry: AdapterConfig, a: nat)
    requires Sized(w) && a < |w.hw.adapters|
    ensures AddsFor(a, w, Ipv4Step(w, i, entry, a).w)
  {
    Ipv4StepFrame(w, i, entry, a);
    if entry.ipv4.Some? && w.hw.adapters[a].guid.Some? && Healthy(w) && Healthy(Tick(w)) {
      var w3 := Tick(Tick(Attempt(w, Plan.AdapterIpv4(i))));
      ReconfigureFrame(w3, Capture(a, w3.inventory.nets[a], w3.nets[a], entry.ipv4.value), entry.ipv4.value);
    }
  }

  lemma EntryAdds(w: World, i: nat, entry: AdapterConfig, a: nat)
    requires Sized(w) && a < |w.hw.adapters|
    ensures AddsFor(a, w, ApplyAdapterAt(w, i, entry, a).w)
  {
    EnableAdds(w, i, entry, a);
    var r1 := EnableStep(w, i, entry, a);
    if r1.Ok? {
      MacAdds(r1.w, i, entry, a);
      var r2 := MacStep(r1.w, i, entry, a);
      AddsForThen(a, w, r1.w, r2.w);
      if r2.Ok? {
        Ipv4StepFrame(r2.w, i, entry, a);
        Ipv4Adds(r2.w, i, entry, a);
        var r3 := Ipv4Step(r2.w, i, entry, a);
        AddsForThen(a, w, r2.w, r3.w);
        if r3.Ok? {
          EnableAdds(r3.w, i, entry, a);
          AddsForThen(a, w, r3.w, DisableStep(r3.w, i, entry, a).w);
        }
      }
    }
  }

  lemma AdapterAdds(w: World, config: NetplanConfig, i: nat)
    requires i < |config.adapters|
    ensures Adds(config, Plan.ADAPTERS, i, w, ApplyAdapter(w, i, config.adapters[i]).w)
  {
    var resolved := ResolveAdapter(w.hw.adapters, config.adapters[i].selector);
    if resolved.Success? && Sized(w) {
      EntryAdds(w, i, config.adapters[i], resolved.value);
    }
  }

  /** Every declaration of the reversible part adds records of its own kind, about its own subject. */
  lemma ItemAdds(w: World, config: NetplanConfig, phase: nat, i: nat)
    requires Plan.IDENTITY <= phase < Plan.DRIVERS && i < Plan.Count(config, phase) && Known(w.core)
    ensures Adds(config, phase, i, w, RunItem(w, config, phase, i).w)
  {
    match phase
    case 2 => AdapterAdds(w, config, i);
    case 3 => ProfileAdds(w, config, i);
    case 4 => ActionAdds(w, config, i);
    case 5 => ServiceAdds(w, config, i);
    case 7 => ShareAdds(w, config, i);
    case 8 => MappingAdds(w, config, i);
    case _ => PlainItemAdds(w, config, phase, i);
  }
}
