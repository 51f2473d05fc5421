/** Which adapters a run turns on, and when. */
module Switches {
  import opened Std
  import opened Text
  import opened Config
  import opened Model
  import opened Selectors
  import opened Ipv4Recovery
  import opened Machine
  import opened Transaction
  import opened Restoration
  import opened AdapterUndo
  import opened DriverPhase
  import opened RunInvariant
  import opened Replaying
  import opened RollbackTheorem
  import Plan

  /** Undoing the record would turn adapter `a` on. */
  predicate TurnsOn(u: Undo, a: nat) {
    u == UndoAdapterState(a, true) || (u.UndoMac? && u.adapter == a && u.restart)
  }

  /** Adapter `a` is off, has not been turned on, and no record would turn it on. */
  ghost predicate StaysOff(w: World, a: nat) {
    && a < |w.core.enabled| && !w.core.enabled[a]
    && (a, true) !in w.switches
    && forall u :: u in w.rollback ==> !TurnsOn(u, a)
  }

  /** What remains of that after a failure. */
  ghost predicate NeverOn(w: World, a: nat) {
    (a, true) !in w.switches && forall u :: u in w.rollback ==> !TurnsOn(u, a)
  }

  ghost predicate Off(r: Run, a: nat) {
    if r.Ok? then StaysOff(r.w, a) else NeverOn(r.w, a)
  }

  /** A step on adapter `b` switches only `b` and records only about `b`. */
  ghost predicate SwitchesOnly(w: World, after: World, b: nat) {
    && (forall x, on :: (x, on) in after.switches ==> (x, on) in w.switches || x == b)
    && (forall u :: u in after.rollback ==> u in w.rollback || !OfAdapter(u) || u.UndoIpv4? || u.adapter == b)
  }

  lemma EnableSwitchesOnly(w: World, i: nat, entry: AdapterConfig, b: nat)
    requires Sized(w) && b < |w.hw.adapters|
    ensures SwitchesOnly(w, EnableStep(w, i, entry, b).w, b)
  {
  }

  lemma MacSwitchesOnly(w: World, i: nat, entry: AdapterConfig, b: nat)
    requires Sized(w) && b < |w.hw.adapters|
    ensures SwitchesOnly(w, MacStep(w, i, entry, b).w, b)
  {
    MacFacts(w, i, entry, b);
  }

  lemma DisableSwitchesOnly(w: World, i: nat, entry: AdapterConfig, b: nat)
    requires Sized(w) && b < |w.hw.adapters|
    ensures SwitchesOnly(w, DisableStep(w, i, entry, b).w, b)
  {
  }

  lemma Ipv4SwitchesNothing(w: World, i: nat, entry: AdapterConfig, b: nat)
    requires Sized(w) && b < |w.hw.adapters|
    ensures var r := Ipv4Step(w, i, entry, b).w;
      r.switches == w.switches && forall u :: u in r.rollback ==> u in w.rollback || u.UndoIpv4?
  {
    Ipv4StepFrame(w, i, entry, b);
    if entry.ipv4.Some? && w.hw.adapters[b].guid.Some? && Healthy(w) && Healthy(Tick(w)) {
      var w3 := Tick(Tick(Attempt(w, Plan.AdapterIpv4(i))));
      ReconfigureFrame(w3, Capture(b, w3.inventory.nets[b], w3.nets[b], entry.ipv4.value), entry.ipv4.value);
    }
  }

  lemma EntrySwitchesOnly(w: World, i: nat, entry: AdapterConfig, b: nat)
    requires Sized(w) && b < |w.hw.adapters|
    ensures SwitchesOnly(w, ApplyAdapterAt(w, i, entry, b).w, b)
  {
    EnableSwitchesOnly(w, i, entry, b);
    var r1 := EnableStep(w, i, entry, b);
    if r1.Ok? {
      MacSwitchesOnly(r1.w, i, entry, b);
      var r2 := MacStep(r1.w, i, entry, b);
      if r2.Ok? {
        Ipv4SwitchesNothing(r2.w, i, entry, b);
        Ipv4StepFrame(r2.w, i, entry, b);
        var r3 := Ipv4Step(r2.w, i, entry, b);
        if r3.Ok? {
          DisableSwitchesOnly(r3.w, i, entry, b);
        }
      }
    }
  }

  /** An entry that leaves `enabled` unset switches nothing on an adapter that is off. */
  lemma UnsetEntryKeepsOff(w: World, i: nat, entry: AdapterConfig, a: nat)
    requires Sized(w) && a < |w.hw.adapters| && StaysOff(w, a)
    requires entry.enabled.None? && !w.inventory.enabled[a]
    ensures var r := ApplyAdapterAt(w, i, entry, a); Off(r, a) && r.w.switches == w.switches
  {
    var r1 := EnableStep(w, i, entry, a);
    MacFacts(r1.w, i, entry, a);
    var r2 := MacStep(r1.w, i, entry, a);
    MacSwitchesNothing(r1.w, i, entry, a);
    if r2.Ok? {
      Ipv4SwitchesNothing(r2.w, i, entry, a);
      Ipv4StepFrame(r2.w, i, entry, a);
    }
  }

  lemma MacSwitchesNothing(w: World, i: nat, entry: AdapterConfig, a: nat)
    requires Sized(w) && a < |w.hw.adapters| && entry.enabled.None? && !w.inventory.enabled[a]
    ensures MacStep(w, i, entry, a).w.switches == w.switches
  {
  }

  /** Every entry that names adapter `a` leaves `enabled` unset. */
  ghost predicate LeftUnset(config: NetplanConfig, inventory: seq<AdapterInfo>, a: nat) {
    forall i :: 0 <= i < |config.adapters| && ResolveAdapter(inventory, config.adapters[i].selector) == Success(a) ==>
      config.adapters[i].enabled.None?
  }

  lemma AdapterItemOff(config: NetplanConfig, origin: Core, nets0: seq<Net>, w: World, i: nat, a: nat)
    requires During(config, origin, nets0, w, Plan.ADAPTERS, i) && i < |config.adapters| && StaysOff(w, a)
    requires Protected(config, w.hw.adapters, w.hw.wifi) && LeftUnset(config, w.hw.adapters, a)
    ensures Off(ApplyAdapter(w, i, config.adapters[i]), a)
  {
    EntryIsFresh(config, origin, nets0, w, i);
    var b := ResolveAdapter(w.hw.adapters, config.adapters[i].selector).value;
    if b == a {
      UnsetEntryKeepsOff(w, i, config.adapters[i], a);
    } else {
      EntryKeeps(config, origin, nets0, w, i, b);
      OtherEntryOff(w, i, config.adapters[i], b, a);
    }
  }

  lemma OtherEntryOff(w: World, i: nat, entry: AdapterConfig, b: nat, a: nat)
    requires Sized(w) && b < |w.hw.adapters| && b != a && StaysOff(w, a)
    requires OnlyAdapter(w, ApplyAdapterAt(w, i, entry, b).w, b)
    ensures Off(ApplyAdapterAt(w, i, entry, b), a)
  {
    EntrySwitchesOnly(w, i, entry, b);
  }

  lemma SidewaysOff(w: World, r: Run, share: Option<string>, a: nat)
    requires StaysOff(w, a) && Sideways(w, r.w, share)
    ensures Off(r, a)
  {
  }

  lemma ItemOff(config: NetplanConfig, origin: Core, nets0: seq<Net>, w: World, phase: nat, i: nat, a: nat)
    requires During(config, origin, nets0, w, phase, i) && SharesDistinct(config) && StaysOff(w, a)
    requires Protected(config, w.hw.adapters, w.hw.wifi) && LeftUnset(config, w.hw.adapters, a)
    requires Plan.IDENTITY <= phase < Plan.DRIVERS && i < Plan.Count(config, phase)
    ensures Off(RunItem(w, config, phase, i), a)
  {
    if phase == Plan.ADAPTERS {
      AdapterItemOff(config, origin, nets0, w, i, a);
    } else if phase == Plan.SHARES {
      ShareShape(w, i, config, config.shares[i]);
      SidewaysOff(w, RunItem(w, config, phase, i), Some(Fold(config.shares[i].name)), a);
    } else {
      OtherItemKeeps(config, origin, w, phase, i);
      SidewaysOff(w, RunItem(w, config, phase, i), None, a);
    }
  }

  /** One whole phase, entered and carried out. */
  lemma EnteredPhaseOff(config: NetplanConfig, origin: Core, nets0: seq<Net>, w: World, p: nat, a: nat)
    requires Plan.IDENTITY <= p < Plan.DRIVERS
    requires Before(config, origin, nets0, w, p) && SharesDistinct(config)
    requires Protected(config, w.hw.adapters, w.hw.wifi) && LeftUnset(config, w.hw.adapters, a) && StaysOff(w, a)
    ensures PhaseStep((v: World, q: nat) => Before(config, origin, nets0, v, q) && StaysOff(v, a), (v: World) => NeverOn(v, a), config, w, p)
  {
    EnterKeeps(config, origin, nets0, w, p);
    var r1 := Enter(w, config, p);
    if r1.Ok? {
      PhaseOff(config, origin, nets0, r1.w, p, a);
      PhaseKeeps(config, origin, nets0, r1.w, p);
      var r2 := RunPhase(r1.w, config, p, 0);
      if r2.Ok? {
        DuringIsBefore(config, origin, nets0, r2.w, p, Plan.Count(config, p));
      }
    }
  }

  lemma PhasesOff(config: NetplanConfig, origin: Core, nets0: seq<Net>, w: World, phase: nat, last: nat, a: nat)
    requires Plan.IDENTITY <= phase <= last <= Plan.DRIVERS
    requires Before(config, origin, nets0, w, phase) && SharesDistinct(config)
    requires Protected(config, w.hw.adapters, w.hw.wifi) && LeftUnset(config, w.hw.adapters, a) && StaysOff(w, a)
    ensures Off(RunPhases(w, config, phase, last), a)
  {
    var inv := (v: World, q: nat) => Before(config, origin, nets0, v, q) && StaysOff(v, a);
    var halt := (v: World) => NeverOn(v, a);
    forall v: World, p: nat | v.hw == w.hw && phase <= p < last && inv(v, p)
      ensures PhaseStep(inv, halt, config, v, p)
    {
      EnteredPhaseOff(config, origin, nets0, v, p, a);
    }
    PhasesInduction(inv, halt, w.hw, config, w, phase, last);
  }

  lemma PhaseOff(config: NetplanConfig, origin: Core, nets0: seq<Net>, w: World, phase: nat, a: nat)
    requires Plan.IDENTITY <= phase < Plan.DRIVERS
    requires During(config, origin, nets0, w, phase, 0) && SharesDistinct(config)
    requires Protected(config, w.hw.adapters, w.hw.wifi) && LeftUnset(config, w.hw.adapters, a) && StaysOff(w, a)
    ensures Off(RunPhase(w, config, phase, 0), a)
  {
    var inv := (v: World, j: nat) => During(config, origin, nets0, v, phase, j) && StaysOff(v, a);
    var halt := (v: World) => NeverOn(v, a);
    forall v: World, j: nat | v.hw == w.hw && j < Plan.Count(config, phase) && inv(v, j)
      ensures ItemStep(inv, halt, config, phase, v, j)
    {
      ItemKeeps(config, origin, nets0, v, phase, j);
      ItemOff(config, origin, nets0, v, phase, j, a);
    }
    PhaseInduction(inv, halt, w.hw, config, phase, w, 0);
  }

  lemma UndoSwitches(w: World, u: Undo, a: nat)
    requires !TurnsOn(u, a) && (a, true) !in w.switches
    ensures (a, true) !in Execute(w, u).w.switches
  {
    if u.UndoIpv4? && InRange(w, u) {
      RestoreNetFrame(w, u.restore);
      assert Execute(w, u) == RestoreNet(w, u.restore);
    }
  }

  lemma {:induction false} RollbackOff(w: World, log: seq<Undo>, a: nat)
    requires (a, true) !in w.switches && forall u :: u in log ==> !TurnsOn(u, a)
    ensures (a, true) !in RollbackAll(w, log).0.switches
    decreases |log|
  {
    if log != [] {
      var last, rest := log[|log| - 1], log[..|log| - 1];
      UndoSwitches(w, last, a);
      RollbackOff(Execute(w, last).w, rest, a);
    }
  }

  // Driver operations.

  lemma RestartTurnsOn(w: World, b: nat, a: nat)
    requires b < |w.core.enabled|
    ensures (a, true) in Machine.RestartAdapter(w, b).w.switches <==> (a, true) in w.switches || (a == b && RestartLeaves(w).Some?)
  {
    var off := w.switches + [(b, false)];
    var on := off + [(b, true)];
    assert (a, true) in off <==> (a, true) in w.switches;
    assert (a, true) in on <==> (a, true) in off || a == b;
    assert (a, true) in on + [(b, true)] <==> (a, true) in on;
  }

  lemma OperationTurnsOn(w: World, i: nat, operation: DriverOperation, a: nat)
    requires a < |w.core.enabled|
    ensures var after := ApplyDriver(w, i, operation).w;
      && after.hw == w.hw && |after.core.enabled| == |w.core.enabled|
      && ((a, true) in after.switches <==> (a, true) in w.switches || (Restarts(w, operation, a) && RestartLeaves(Tick(w)).Some?))
  {
    DriverSwitchesOnly(w, i, operation);
    if operation.RestartAdapter? && Healthy(w) {
      var resolved, w1 := ResolveAdapter(w.hw.adapters, operation.selector), Tick(Attempt(w, Plan.DriverRestart(i)));
      if resolved.Success? && resolved.value < |w.core.enabled| {
        RestartTurnsOn(w1, resolved.value, a);
      }
    }
  }

  /** The driver phase turns an adapter on exactly when a restart of it got past switching it off. */
  lemma {:induction false} DriversTurnOn(w: World, config: NetplanConfig, i: nat, a: nat)
    requires i <= |config.drivers| && a < |w.core.enabled|
    ensures (a, true) in RunPhase(w, config, Plan.DRIVERS, i).w.switches <==> (a, true) in w.switches || LastLeft(w, config, i, a).Some?
    decreases |config.drivers| - i
  {
    if i < |config.drivers| {
      OperationTurnsOn(w, i, config.drivers[i], a);
      DriversUnfold(w, config, i);
      var r := ApplyDriver(w, i, config.drivers[i]);
      if r.Ok? {
        DriversTurnOn(r.w, config, i + 1, a);
      }
    }
  }

  lemma LatePhasesTurnOn(w: World, config: NetplanConfig, a: nat)
    requires a < |w.core.enabled|
    ensures (a, true) in RunPhases(w, config, Plan.DRIVERS, Plan.ROLLBACK_HOOKS).w.switches
      <==> (a, true) in w.switches || LastLeft(w, config, 0, a).Some?
  {
    DriversTurnOn(w, config, 0, a);
    var r := RunPhase(w, config, Plan.DRIVERS, 0);
    if r.Ok? {
      AfterHooksSwitchNothing(r.w, config, 0);
      var s := RunPhase(r.w, config, Plan.AFTER_HOOKS, 0);
      assert RunPhases(r.w, config, Plan.AFTER_HOOKS, Plan.ROLLBACK_HOOKS).w == s.w;
    }
  }

  /** No operation that restarts an adapter names `a`. */
  ghost predicate NeverRestarted(config: NetplanConfig, inventory: seq<AdapterInfo>, a: nat) {
    forall i :: 0 <= i < |config.drivers| && config.drivers[i].RestartAdapter? ==> ResolveAdapter(inventory, config.drivers[i].selector) != Success(a)
  }

  lemma {:induction false} NeverRestartedLeaves(w: World, config: NetplanConfig, i: nat, a: nat)
    requires i <= |config.drivers| && NeverRestarted(config, w.hw.adapters, a)
    ensures LastLeft(w, config, i, a) == None
    decreases |config.drivers| - i
  {
    if i < |config.drivers| {
      DriverSwitchesOnly(w, i, config.drivers[i]);
      var r := ApplyDriver(w, i, config.drivers[i]);
      if r.Ok? {
        NeverRestartedLeaves(r.w, config, i + 1, a);
      }
    }
  }

  // Whole runs.

  ghost predicate BeginsOff(w: World, config: NetplanConfig, a: nat) {
    a < |w.core.enabled| && !w.core.enabled[a] && LeftUnset(config, w.hw.adapters, a)
  }

  /** Until driver operations are reached. */
  lemma ReversibleOff(w: World, config: NetplanConfig, a: nat)
    requires Ready(w) && SharesDistinct(config) && Protected(config, w.hw.adapters, w.hw.wifi) && BeginsOff(w, config, a)
    ensures var b := RunPhases(w, config, Plan.BEFORE_HOOKS, Plan.IDENTITY).w;
      && b.switches == [] && b.hw == w.hw
      && Off(RunPhases(b, config, Plan.IDENTITY, Plan.DRIVERS), a)
  {
    StageQuiet(w, config, Plan.BEFORE_HOOKS);
    var b := RunPhases(w, config, Plan.BEFORE_HOOKS, Plan.IDENTITY).w;
    ReadyIsBefore(config, b);
    PhasesOff(config, b.core, b.nets, b, Plan.IDENTITY, Plan.DRIVERS, a);
  }

  /** Where the run ended or failed, before any rollback. */
  lemma ForwardTurnsOnIff(w: World, config: NetplanConfig, a: nat)
    requires Ready(w) && SharesDistinct(config) && Protected(config, w.hw.adapters, w.hw.wifi) && BeginsOff(w, config, a)
    ensures var end := FailedAt(w, config);
      && ((a, true) in end.switches <==> LeftByDrivers(w, config, a).Some?)
      && (forall u :: u in end.rollback ==> !TurnsOn(u, a)) && end.hw == w.hw
  {
    ReversibleOff(w, config, a);
    var b := RunPhases(w, config, Plan.BEFORE_HOOKS, Plan.IDENTITY).w;
    StageQuiet(w, config, Plan.BEFORE_HOOKS);
    ReadyIsBefore(config, b);
    PhasesKeep(config, b.core, b.nets, b, Plan.IDENTITY, Plan.DRIVERS);
    var r := RunPhases(b, config, Plan.IDENTITY, Plan.DRIVERS);
    if r.Ok? {
      LatePhasesTurnOn(r.w, config, a);
      LatePhasesSwitchOnly(r.w, config);
    }
  }

  lemma {:induction false} RollbackSwitches(w: World, log: seq<Undo>)
    ensures forall s :: s in w.switches ==> s in RollbackAll(w, log).0.switches
    decreases |log|
  {
    if log != [] {
      UndoOutcome(w, log[|log| - 1]);
      RollbackSwitches(Execute(w, log[|log| - 1]).w, log[..|log| - 1]);
    }
  }

  /**
   An adapter that is off when a live apply begins and whose entry leaves `enabled` unset is turned
   on in the run if and only if driver operations are reached and one of them restarts it and gets
   past switching it off; neither the adapter steps nor any undo ever turn it on, whatever fails.
   */
  lemma TurnedOnIff(w: World, config: NetplanConfig, a: nat)
    requires Ready(w) && SharesDistinct(config) && Protected(config, w.hw.adapters, w.hw.wifi) && BeginsOff(w, config, a)
    ensures (a, true) in Apply(w, config).0.switches
      <==> RunPhases(w, config, Plan.BEFORE_HOOKS, Plan.IDENTITY).Ok? && LeftByDrivers(w, config, a).Some?
  {
    StageQuiet(w, config, Plan.BEFORE_HOOKS);
    var before := RunPhases(w, config, Plan.BEFORE_HOOKS, Plan.IDENTITY);
    if before.Ok? {
      ForwardTurnsOnIff(w, config, a);
      var run := Forward(before.w, config).0;
      if run.Err? {
        var restored := RollbackAll(run.w, run.w.rollback).0;
        RollbackSwitches(run.w, run.w.rollback);
        if (a, true) !in run.w.switches {
          RollbackOff(run.w, run.w.rollback, a);
        }
        StageQuiet(restored, config, Plan.ROLLBACK_HOOKS);
      }
    }
  }

  /** So it is never turned on when no driver operation names it. */
  lemma NeverTurnedOn(w: World, config: NetplanConfig, a: nat)
    requires Ready(w) && SharesDistinct(config) && Protected(config, w.hw.adapters, w.hw.wifi) && BeginsOff(w, config, a)
    requires NeverRestarted(config, w.hw.adapters, a)
    ensures (a, true) !in Apply(w, config).0.switches
  {
    TurnedOnIff(w, config, a);
    if RunPhases(w, config, Plan.BEFORE_HOOKS, Plan.IDENTITY).Ok? && DriversReached(w, config) {
      var b := RunPhases(w, config, Plan.BEFORE_HOOKS, Plan.IDENTITY).w;
      StageQuiet(w, config, Plan.BEFORE_HOOKS);
      ReadyIsBefore(config, b);
      PhasesKeep(config, b.core, b.nets, b, Plan.IDENTITY, Plan.DRIVERS);
      NeverRestartedLeaves(ReversibleEnd(w, config), config, 0, a);
    }
  }
}
