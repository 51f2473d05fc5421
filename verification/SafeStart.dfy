/** Checks a caller can make before a live apply so that `rolled_back` means the whole machine is back. */
module SafeStart {
  import opened Std
  import opened Text
  import opened Config
  import opened Model
  import opened Selectors
  import opened Ipv4Recovery
  import opened Ipv4Interruption
  import opened Machine
  import opened Transaction
  import opened Restoration
  import opened AdapterUndo
  import opened DriverPhase
  import opened RunInvariant
  import opened Replaying
  import opened RollbackTheorem
  import opened Switches
  import opened UndoOrder
  import opened Settlement
  import Plan

  /** Entry `i` is about adapter `a`. */
  ghost predicate About(config: NetplanConfig, inventory: seq<AdapterInfo>, i: nat, a: nat) {
    i < |config.adapters| && ResolveAdapter(inventory, config.adapters[i].selector) == Success(a)
  }

  /** No declaration makes an adapter be switched, given which adapters are on. */
  ghost predicate SwitchesNothing(config: NetplanConfig, inventory: seq<AdapterInfo>, enabled: seq<bool>) {
    && NoRestarts(config)
    && forall i: nat, a: nat :: About(config, inventory, i, a) && a < |enabled| ==> NotSwitched(config.adapters[i], enabled[a])
  }

  /** Undoing the record would switch an adapter. */
  predicate Switching(u: Undo) {
    u.UndoAdapterState? || (u.UndoMac? && u.restart)
  }

  /** No adapter has been switched and no record would switch one. */
  ghost predicate Still(w: World) {
    w.switches == [] && forall u :: u in w.rollback ==> !Switching(u)
  }

  lemma EntryStill(w: World, i: nat, entry: AdapterConfig, a: nat)
    requires Sized(w) && a < |w.hw.adapters| && NotSwitched(entry, w.inventory.enabled[a]) && Still(w)
    ensures Still(ApplyAdapterAt(w, i, entry, a).w)
  {
    var w1 := EnableStep(w, i, entry, a).w;
    assert EnableStep(w, i, entry, a) == Ok(w1) && Still(w1) && w1.inventory == w.inventory;
    MacFacts(w1, i, entry, a);
    var r2 := MacStep(w1, i, entry, a);
    assert Still(r2.w) && r2.w.inventory == w.inventory;
    if r2.Ok? {
      Ipv4SwitchesNothing(r2.w, i, entry, a);
      Ipv4StepFrame(r2.w, i, entry, a);
    }
  }

  lemma SidewaysStill(w: World, after: World, share: Option<string>)
    requires Still(w) && Sideways(w, after, share)
    ensures Still(after)
  {
  }

  lemma ItemStill(config: NetplanConfig, origin: Core, nets0: seq<Net>, w: World, phase: nat, i: nat)
    requires During(config, origin, nets0, w, phase, i) && SharesDistinct(config) && SwitchesNothing(config, w.hw.adapters, origin.enabled) && Still(w)
    requires Protected(config, w.hw.adapters, w.hw.wifi)
    requires Plan.IDENTITY <= phase < Plan.DRIVERS && i < Plan.Count(config, phase)
    ensures Still(RunItem(w, config, phase, i).w)
  {
    if phase == Plan.ADAPTERS {
      EntryIsFresh(config, origin, nets0, w, i);
      var a := ResolveAdapter(w.hw.adapters, config.adapters[i].selector).value;
      assert About(config, w.hw.adapters, i, a);
      EntryStill(w, i, config.adapters[i], a);
    } else if phase == Plan.SHARES {
      ShareShape(w, i, config, config.shares[i]);
      SidewaysStill(w, RunItem(w, config, phase, i).w, Some(Fold(config.shares[i].name)));
    } else {
      OtherItemKeeps(config, origin, w, phase, i);
      SidewaysStill(w, RunItem(w, config, phase, i).w, None);
    }
  }

  lemma PhaseStill(config: NetplanConfig, origin: Core, nets0: seq<Net>, w: World, phase: nat)
    requires Plan.IDENTITY <= phase < Plan.DRIVERS
    requires During(config, origin, nets0, w, phase, 0) && SharesDistinct(config) && SwitchesNothing(config, w.hw.adapters, origin.enabled) && Still(w)
    requires Protected(config, w.hw.adapters, w.hw.wifi)
    ensures Still(RunPhase(w, config, phase, 0).w)
  {
    var inv := (v: World, j: nat) => During(config, origin, nets0, v, phase, j) && Still(v);
    var halt := (v: World) => Still(v);
    forall v: World, j: nat | v.hw == w.hw && j < Plan.Count(config, phase) && inv(v, j)
      ensures ItemStep(inv, halt, config, phase, v, j)
    {
      ItemKeeps(config, origin, nets0, v, phase, j);
      ItemStill(config, origin, nets0, v, phase, j);
    }
    PhaseInduction(inv, halt, w.hw, config, phase, w, 0);
  }

  lemma EnteredPhaseStill(config: NetplanConfig, origin: Core, nets0: seq<Net>, w: World, p: nat)
    requires Plan.IDENTITY <= p < Plan.DRIVERS
    requires Before(config, origin, nets0, w, p) && SharesDistinct(config) && SwitchesNothing(config, w.hw.adapters, origin.enabled) && Still(w)
    requires Protected(config, w.hw.adapters, w.hw.wifi)
    ensures PhaseStep((v: World, q: nat) => Before(config, origin, nets0, v, q) && Still(v), (v: World) => Still(v), config, w, p)
  {
    EnterKeeps(config, origin, nets0, w, p);
    var r1 := Enter(w, config, p);
    if r1.Ok? {
      PhaseStill(config, origin, nets0, r1.w, p);
      PhaseKeeps(config, origin, nets0, r1.w, p);
      var r2 := RunPhase(r1.w, config, p, 0);
      if r2.Ok? {
        DuringIsBefore(config, origin, nets0, r2.w, p, Plan.Count(config, p));
      }
    }
  }

  lemma PhasesStill(config: NetplanConfig, origin: Core, nets0: seq<Net>, w: World, phase: nat, last: nat)
    requires Plan.IDENTITY <= phase <= last <= Plan.DRIVERS
    requires Before(config, origin, nets0, w, phase) && SharesDistinct(config) && SwitchesNothing(config, w.hw.adapters, origin.enabled) && Still(w)
    requires Protected(config, w.hw.adapters, w.hw.wifi)
    ensures Still(RunPhases(w, config, phase, last).w)
  {
    var inv := (v: World, q: nat) => Before(config, origin, nets0, v, q) && Still(v);
    var halt := (v: World) => Still(v);
    forall v: World, p: nat | v.hw == w.hw && phase <= p < last && inv(v, p)
      ensures PhaseStep(inv, halt, config, v, p)
    {
      EnteredPhaseStill(config, origin, nets0, v, p);
    }
    PhasesInduction(inv, halt, w.hw, config, w, phase, last);
  }

  lemma {:induction false} InstallsStill(w: World, config: NetplanConfig, i: nat)
    requires i <= |config.drivers| && NoRestarts(config)
    ensures RunPhase(w, config, Plan.DRIVERS, i).w.switches == w.switches
    decreases |config.drivers| - i
  {
    if i < |config.drivers| {
      DriversUnfold(w, config, i);
      var d := config.drivers[i];
      InstallSwitchesNothing(Attempt(w, Plan.DriverInstall(i, d.force)), i, d.hardwareId, d.force, d.restart);
      var r := ApplyDriver(w, i, d);
      if r.Ok? {
        InstallsStill(r.w, config, i + 1);
      }
    }
  }

  lemma UndoStill(w: World, u: Undo)
    requires !Switching(u)
    ensures Execute(w, u).w.switches == w.switches
  {
    if u.UndoIpv4? && InRange(w, u) {
      RestoreNetFrame(w, u.restore);
      assert Execute(w, u) == RestoreNet(w, u.restore);
    }
  }

  lemma {:induction false} RollbackStill(w: World, log: seq<Undo>)
    requires forall u :: u in log ==> !Switching(u)
    ensures RollbackAll(w, log).0.switches == w.switches
    decreases |log|
  {
    if log != [] {
      UndoStill(w, log[|log| - 1]);
      RollbackStill(Execute(w, log[|log| - 1]).w, log[..|log| - 1]);
    }
  }

  /** Where the run ended or failed. */
  lemma ForwardStill(w: World, config: NetplanConfig)
    requires Ready(w) && SharesDistinct(config) && Protected(config, w.hw.adapters, w.hw.wifi) && SwitchesNothing(config, w.hw.adapters, w.core.enabled)
    ensures Still(FailedAt(w, config))
  {
    StageQuiet(w, config, Plan.BEFORE_HOOKS);
    var b := RunPhases(w, config, Plan.BEFORE_HOOKS, Plan.IDENTITY).w;
    ReadyIsBefore(config, b);
    PhasesStill(config, b.core, b.nets, b, Plan.IDENTITY, Plan.DRIVERS);
    var v := RunPhases(b, config, Plan.IDENTITY, Plan.DRIVERS);
    if v.Ok? {
      LatePhasesSwitchOnly(v.w, config);
      InstallsStill(v.w, config, 0);
      var r := RunPhase(v.w, config, Plan.DRIVERS, 0);
      if r.Ok? {
        AfterHooksSwitchNothing(r.w, config, 0);
        var s := RunPhase(r.w, config, Plan.AFTER_HOOKS, 0);
        assert RunPhases(r.w, config, Plan.AFTER_HOOKS, Plan.ROLLBACK_HOOKS).w == s.w;
      }
    }
  }

  /** Such a document never has an adapter switched, by no step and no undo, whatever fails. */
  lemma NothingSwitched(w: World, config: NetplanConfig)
    requires Ready(w) && SharesDistinct(config) && Protected(config, w.hw.adapters, w.hw.wifi) && SwitchesNothing(config, w.hw.adapters, w.core.enabled)
    ensures Apply(w, config).0.switches == []
  {
    StageQuiet(w, config, Plan.BEFORE_HOOKS);
    var before := RunPhases(w, config, Plan.BEFORE_HOOKS, Plan.IDENTITY);
    if before.Ok? {
      ForwardStill(w, config);
      var run := Forward(before.w, config).0;
      if run.Err? {
        RollbackStill(run.w, run.w.rollback);
        StageQuiet(RollbackAll(run.w, run.w.rollback).0, config, Plan.ROLLBACK_HOOKS);
      }
    }
  }

  /** Entry `i` declares IPv4 settings for adapter `a`. */
  ghost predicate Configures(config: NetplanConfig, inventory: seq<AdapterInfo>, i: nat, a: nat) {
    && i < |config.adapters| && config.adapters[i].ipv4.Some?
    && ResolveAdapter(inventory, config.adapters[i].selector) == Success(a)
  }

  predicate StaticNet(net: Net) {
    net.manual != [] && net.dnsStatic && net.winsStatic
  }

  /** Every adapter whose IPv4 settings are declared is static, and so are its servers. */
  ghost predicate StaticStart(config: NetplanConfig, w: World) {
    forall i: nat, a: nat :: Configures(config, w.hw.adapters, i, a) && a < |w.nets| ==> StaticNet(w.nets[a])
  }

  lemma StaticRecord(config: NetplanConfig, w: World, failed: World, after: seq<Net>, x: nat)
    requires x < |failed.rollback| && failed.rollback[x].UndoIpv4? && |after| == |w.nets| == |failed.nets|
    requires RecordOutcome(config, w, failed, after, x) && StaticStart(config, w)
    requires !SwitchedLater(failed.rollback, x)
    ensures var a := failed.rollback[x].restore.adapter; after[a] == w.nets[a].(leased := after[a].leased)
  {
    var r := failed.rollback[x].restore;
    var i: nat :| CapturedBy(config, w.hw.adapters, i, r, w.nets[r.adapter]);
    assert Configures(config, w.hw.adapters, i, r.adapter);
    ComparisonComplete(w.nets[r.adapter], r, after[r.adapter]);
  }

  lemma StaticNets(config: NetplanConfig, w: World, failed: World, final: World)
    requires NetsOutcome(config, w, failed, final) && StaticStart(config, w) && final.switches == []
    requires forall u :: u in failed.rollback ==> !Switching(u)
    ensures forall a :: 0 <= a < |w.nets| ==> final.nets[a] == w.nets[a].(leased := final.nets[a].leased)
  {
    forall a | 0 <= a < |w.nets| && a in Restoration.Adapters(failed.rollback)
      ensures final.nets[a] == w.nets[a].(leased := final.nets[a].leased)
    {
      var u :| u in failed.rollback && u.UndoIpv4? && u.restore.adapter == a;
      var x :| 0 <= x < |failed.rollback| && failed.rollback[x] == u;
      StaticRecord(config, w, failed, final.nets, x);
    }
  }

  /**
   From a safe start, with nothing to switch and static adapters, a job reported as rolled back has
   restored the whole machine, whatever failed and whatever a failed command left behind: all of
   IPv4 too, but for the leases a static adapter should not have.
   */
  lemma StaticMachineRestored(w: World, config: NetplanConfig)
    requires Ready(w) && SharesDistinct(config) && Protected(config, w.hw.adapters, w.hw.wifi)
    requires SafeStart(config, w.core) && SwitchesNothing(config, w.hw.adapters, w.core.enabled) && StaticStart(config, w)
    ensures var (final, report) := Apply(w, config);
      report.rolledBack ==>
        && final.core == w.core && |final.nets| == |w.nets|
        && forall a :: 0 <= a < |w.nets| ==> final.nets[a] == w.nets[a].(leased := final.nets[a].leased)
  {
    if Apply(w, config).1.rolledBack {
      SafeStartRestores(w, config);
      NothingSwitched(w, config);
      ForwardStill(w, config);
      StaticNets(config, w, FailedAt(w, config), Apply(w, config).0);
    }
  }
}
