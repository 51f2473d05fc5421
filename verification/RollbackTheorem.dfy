/** What a rolled-back job guarantees about the machine. */
module RollbackTheorem {
  import opened Std
  import opened Text
  import opened Config
  import opened Selectors
  import opened Ipv4Recovery
  import opened Machine
  import opened Transaction
  import opened Restoration
  import opened AdapterUndo
  import opened DriverPhase
  import opened RunInvariant
  import opened Replaying
  import Plan

  // Where a run fails.

  /** A run begins with empty records on a machine whose lists speak of the same adapters. */
  ghost predicate Ready(w: World) {
    w.rollback == [] && w.unrepaired == {} && w.switches == [] && BaseSized(w) && Known(w.core)
  }

  /** The world in which a failed run stopped. */
  ghost function FailedAt(w: World, config: NetplanConfig): World {
    Forward(RunPhases(w, config, Plan.BEFORE_HOOKS, Plan.IDENTITY).w, config).0.w
  }

  lemma {:induction false} HooksQuiet(w: World, config: NetplanConfig, phase: nat, i: nat)
    requires phase in {Plan.BEFORE_HOOKS, Plan.ROLLBACK_HOOKS} && i <= |config.hooks|
    ensures var r := RunPhase(w, config, phase, i); Quiet(w, r.w) && r.w.nets == w.nets && r.w.hw == w.hw && r.w.switches == w.switches
    decreases |config.hooks| - i
  {
    if i < |config.hooks| {
      var r := RunItem(w, config, phase, i);
      if r.Ok? {
        HooksQuiet(r.w, config, phase, i + 1);
      }
    }
  }

  lemma StageQuiet(w: World, config: NetplanConfig, phase: nat)
    requires phase in {Plan.BEFORE_HOOKS, Plan.ROLLBACK_HOOKS}
    ensures var r := RunPhases(w, config, phase, phase + 1); Quiet(w, r.w) && r.w.nets == w.nets && r.w.hw == w.hw && r.w.switches == w.switches
  {
    HooksQuiet(w, config, phase, 0);
  }

  lemma ReadyIsBefore(config: NetplanConfig, w: World)
    requires Ready(w)
    ensures Before(config, w.core, w.nets, w, Plan.IDENTITY)
  {
    assert Replay(w.core, []) == w.core;
    assert Services(w.rollback) == {} && Remotes(w.rollback) == {} && Shares(w.rollback) == {} && Restoration.Adapters(w.rollback) == {};
  }

  /** The before-apply hooks passed and something after them failed. */
  ghost predicate Fails(w: World, config: NetplanConfig) {
    var before := RunPhases(w, config, Plan.BEFORE_HOOKS, Plan.IDENTITY);
    before.Ok? && Forward(before.w, config).0.Err?
  }

  ghost predicate DriversReached(w: World, config: NetplanConfig) {
    Forward(RunPhases(w, config, Plan.BEFORE_HOOKS, Plan.IDENTITY).w, config).1
  }

  /** The world in which the reversible part of a run ended or failed. */
  ghost function ReversibleEnd(w: World, config: NetplanConfig): World {
    RunPhases(RunPhases(w, config, Plan.BEFORE_HOOKS, Plan.IDENTITY).w, config, Plan.IDENTITY, Plan.DRIVERS).w
  }

  /** A failed run leaves a log that leads back to the start, wherever it failed. */
  lemma FailureIsUndoable(config: NetplanConfig, w: World)
    requires Ready(w) && SharesDistinct(config) && Protected(config, w.hw.adapters, w.hw.wifi) && Fails(w, config)
    ensures StoppedFrom(config, w.core, w.nets, ReversibleEnd(w, config), FailedAt(w, config))
    ensures NetsTracked(config, w.nets, FailedAt(w, config)) && FailedAt(w, config).hw == w.hw
  {
    StageQuiet(w, config, Plan.BEFORE_HOOKS);
    var b := RunPhases(w, config, Plan.BEFORE_HOOKS, Plan.IDENTITY).w;
    ReadyIsBefore(config, b);
    PhasesKeep(config, b.core, b.nets, b, Plan.IDENTITY, Plan.DRIVERS);
    var r := RunPhases(b, config, Plan.IDENTITY, Plan.DRIVERS);
    if r.Ok? {
      SteadyIsStopped(config, w.core, r.w);
      LatePhasesSwitchOnly(r.w, config);
      TrackQuiet(config, w.nets, r.w, FailedAt(w, config));
    }
  }

  // The adapter switches and the rest of the machine apart from IPv4.

  /** Where driver operations last left the switch of adapter `a`, if they touched it. */
  ghost function LeftByDrivers(w: World, config: NetplanConfig, a: nat): Option<bool> {
    if DriversReached(w, config) then LastLeft(ReversibleEnd(w, config), config, 0, a) else None
  }

  /**
   The exact condition for a rollback to be exact: the records can be reproduced, and no driver
   operation left an adapter without a switch record on that had been off, or off that had been on.
   */
  ghost predicate Faithful(w: World, config: NetplanConfig) {
    && Reproducible(w.core, FailedAt(w, config))
    && forall a :: 0 <= a < |w.core.enabled| && !Switched(FailedAt(w, config).rollback, a) ==> LeavesAsWas(w, config, a)
  }

  ghost predicate LeavesAsWas(w: World, config: NetplanConfig, a: nat)
    requires a < |w.core.enabled|
  {
    LeftByDrivers(w, config, a) in {None, Some(w.core.enabled[a])}
  }

  lemma SwitchAfterDrivers(w: World, config: NetplanConfig, a: nat)
    requires a < |ReversibleEnd(w, config).core.enabled|
    ensures var v, failed, left := ReversibleEnd(w, config), FailedAt(w, config), LeftByDrivers(w, config, a);
      && |failed.core.enabled| == |v.core.enabled|
      && failed.core.enabled[a] == if left.Some? then left.value else v.core.enabled[a]
  {
    if DriversReached(w, config) {
      LateSwitches(ReversibleEnd(w, config), config, a);
    }
  }

  /** Undoing a failed run's log is exact if and only if the run was faithful. */
  lemma FailedExactIff(w: World, config: NetplanConfig)
    requires Ready(w) && SharesDistinct(config) && Protected(config, w.hw.adapters, w.hw.wifi) && Fails(w, config)
    ensures Replay(FailedAt(w, config).core, FailedAt(w, config).rollback) == w.core <==> Faithful(w, config)
  {
    var v, failed := ReversibleEnd(w, config), FailedAt(w, config);
    FailureIsUndoable(config, w);
    ReplayedExactIff(config, w.core, w.nets, v, failed);
    SwitchesKeptWithoutDrivers(config, w.core, w.nets, v);
    forall a | 0 <= a < |w.core.enabled| && !Switched(failed.rollback, a)
      ensures failed.core.enabled[a] == w.core.enabled[a] <==> LeavesAsWas(w, config, a)
      ensures |failed.core.enabled| == |w.core.enabled|
    {
      SwitchAfterDrivers(w, config, a);
    }
    assert SwitchesKept(w.core, failed)
      <==> forall a :: 0 <= a < |w.core.enabled| && !Switched(failed.rollback, a) ==> LeavesAsWas(w, config, a);
  }

  // IPv4.

  /**
   What became of the adapter of record `x`: the record is of its original state; unless a later
   undo switched it, it passed the comparison; and if no record switches it, it is exactly where
   the recovery model leads from the state the failed run left.
   */
  ghost predicate RecordOutcome(config: NetplanConfig, w: World, failed: World, after: seq<Net>, x: nat)
    requires x < |failed.rollback| && failed.rollback[x].UndoIpv4? && |after| == |w.nets| == |failed.nets|
  {
    var r, log := failed.rollback[x].restore, failed.rollback;
    && r.adapter < |w.nets| && Captured(config, w.hw.adapters, r, w.nets[r.adapter])
    && (!SwitchedLater(log, x) ==> VerifyRestored(r, after[r.adapter]))
    && (!Switched(log, r.adapter) ==> after[r.adapter] == Restored(w.hw.network, r, failed.nets[r.adapter]))
  }

  /** Adapters neither recorded nor switched are as they were, and every record had its outcome. */
  ghost predicate NetsOutcome(config: NetplanConfig, w: World, failed: World, final: World) {
    && |final.nets| == |w.nets| == |failed.nets|
    && (forall a :: 0 <= a < |w.nets| && a !in Restoration.Adapters(failed.rollback) && !Issued(final, a) ==> final.nets[a] == w.nets[a])
    && (forall x :: 0 <= x < |failed.rollback| && failed.rollback[x].UndoIpv4? ==> RecordOutcome(config, w, failed, final.nets, x))
  }

  lemma NetsComeBack(config: NetplanConfig, w: World, failed: World, final: World)
    requires NetsTracked(config, w.nets, failed) && failed.hw == w.hw
    requires NetsVerified(failed.hw.network, failed.nets, failed.rollback, final.nets)
    requires forall s :: s in failed.switches ==> s in final.switches
    requires forall a :: Switched(failed.rollback, a) ==> Issued(final, a)
    ensures NetsOutcome(config, w, failed, final)
  {
    forall x | 0 <= x < |failed.rollback| && failed.rollback[x].UndoIpv4?
      ensures RecordOutcome(config, w, failed, final.nets, x)
    {
      assert failed.rollback[x] in failed.rollback;
    }
  }

  // The theorems.

  /**
   Rolled back means: something was recorded, the driver stage was not reached with an
   installation declared, no undo and no after-rollback hook failed.
   */
  lemma RolledBackMeans(w: World, config: NetplanConfig)
    ensures var (final, report) := Apply(w, config);
      report.rolledBack ==>
        var before := RunPhases(w, config, Plan.BEFORE_HOOKS, Plan.IDENTITY);
        && before.Ok? && !report.ok
        && var (run, driversReached) := Forward(before.w, config);
        && run.Err? && run.w.rollback != [] && !(driversReached && InstallsDriver(config))
        && var (restored, errors) := RollbackAll(run.w, run.w.rollback);
        && errors == 0
        && final == RunPhases(restored, config, Plan.ROLLBACK_HOOKS, Plan.PHASES).w
        && RunPhases(restored, config, Plan.ROLLBACK_HOOKS, Plan.PHASES).Ok?
  {
  }

  /** No driver operation restarts an adapter. */
  ghost predicate NoRestarts(config: NetplanConfig) {
    forall i :: 0 <= i < |config.drivers| ==> config.drivers[i].Install?
  }

  lemma NothingRestarted(w: World, config: NetplanConfig)
    requires Apply(w, config).1.rolledBack && (NoRestarts(config) || !DriversReached(w, config))
    ensures Fails(w, config) && forall a :: LeftByDrivers(w, config, a) == None
  {
    RolledBackMeans(w, config);
    assert config.drivers != [] && NoRestarts(config) ==> config.drivers[0].Install?;
  }

  /** What the report `rolled_back` stands for. */
  ghost predicate RolledBackOutcome(w: World, config: NetplanConfig) {
    var final, failed := Apply(w, config).0, FailedAt(w, config);
    && Fails(w, config) && failed.rollback != []
    && !(DriversReached(w, config) && InstallsDriver(config))
    && NetsOutcome(config, w, failed, final)
    && (final.core == w.core <==> Faithful(w, config))
  }

  /**
   Main theorem. For every document accepted by the runtime check, every initial machine and every
   sequence of faults: a job reported as rolled back wrote records and reached no installation, every
   IPv4 record had its outcome and other adapters not switched kept their IPv4 state, and everything
   else is exactly as it was if and only if the run was faithful.
   */
  lemma RolledBackRestores(w: World, config: NetplanConfig)
    requires Ready(w) && SharesDistinct(config) && Protected(config, w.hw.adapters, w.hw.wifi)
    ensures Apply(w, config).1.rolledBack ==> RolledBackOutcome(w, config)
  {
    var (final, report) := Apply(w, config);
    if report.rolledBack {
      RolledBackMeans(w, config);
      FailureIsUndoable(config, w);
      FailedExactIff(w, config);
      var failed := FailedAt(w, config);
      RollbackOutcome(failed, failed.rollback);
      var restored := RollbackAll(failed, failed.rollback).0;
      StageQuiet(restored, config, Plan.ROLLBACK_HOOKS);
      NetsComeBack(config, w, failed, restored);
    }
  }

  // Checks a caller can make before the call.

  /**
   No service to be started is in transition, no declared connection without a drive letter and no
   declared share exists.
   */
  ghost predicate SafeStart(config: NetplanConfig, core: Core) {
    && (forall s :: s in config.services && s.state == Running ==> LookUp(core.services, Fold(s.name)) != Some(Transitional))
    && (forall m :: m in config.mappings && m.local.None? ==> Fold(m.remote) !in core.remotes)
    && (forall s :: s in config.shares ==> Fold(s.name) !in core.shares)
  }

  /** From a safe start, a job reported as rolled back has restored everything but IPv4, which had its outcome. */
  lemma SafeStartRestores(w: World, config: NetplanConfig)
    requires Ready(w) && SharesDistinct(config) && Protected(config, w.hw.adapters, w.hw.wifi)
    requires NoRestarts(config) || !DriversReached(w, config)
    requires SafeStart(config, w.core)
    ensures var (final, report) := Apply(w, config);
      report.rolledBack ==> final.core == w.core && NetsOutcome(config, w, FailedAt(w, config), final)
  {
    RolledBackRestores(w, config);
    if Apply(w, config).1.rolledBack {
      NothingRestarted(w, config);
      FailureIsUndoable(config, w);
      assert Reproducible(w.core, FailedAt(w, config));
    }
  }
}
