/**
 What follows a failure: every record is executed, last first and whatever happened to the others,
 the after-rollback hooks run until one fails, and the report says how all that went.
 */
module Aftermath {
  import opened Std
  import opened Config
  import opened Machine
  import opened Transaction
  import opened RollbackTheorem
  import opened Conformance
  import Plan

  // The undo log.

  /** `stops[x]` is the world in which the records before `x` are still to be executed. */
  ghost predicate Unwound(w: World, log: seq<Undo>, stops: seq<World>) {
    && |stops| == |log| + 1 && stops[|log|] == w
    && forall x :: 0 <= x < |log| ==> stops[x] == Execute(stops[x + 1], log[x]).w
  }

  /** No record failed when its turn came. */
  ghost predicate NoneFailed(log: seq<Undo>, stops: seq<World>)
    requires |stops| == |log| + 1
  {
    forall x :: 0 <= x < |log| ==> Execute(stops[x + 1], log[x]).Ok?
  }

  lemma UnwoundMore(w: World, log: seq<Undo>, earlier: seq<World>)
    requires log != [] && Unwound(Execute(w, log[|log| - 1]).w, log[..|log| - 1], earlier)
    ensures Unwound(w, log, earlier + [w])
  {
    var n, stops := |log| - 1, earlier + [w];
    forall x | 0 <= x < |log|
      ensures stops[x] == Execute(stops[x + 1], log[x]).w
    {
      if x < n {
        assert stops[x] == earlier[x] && stops[x + 1] == earlier[x + 1] && log[..n][x] == log[x];
      }
    }
  }

  lemma {:induction false} Unwinds(w: World, log: seq<Undo>)
    ensures exists stops :: Unwound(w, log, stops)
    decreases |log|
  {
    if log == [] {
      assert Unwound(w, log, [w]);
    } else {
      var n := |log| - 1;
      Unwinds(Execute(w, log[n]).w, log[..n]);
      var earlier :| Unwound(Execute(w, log[n]).w, log[..n], earlier);
      UnwoundMore(w, log, earlier);
    }
  }

  lemma UnwoundRest(w: World, log: seq<Undo>, stops: seq<World>)
    requires Unwound(w, log, stops) && log != []
    ensures var n := |log| - 1; stops[n] == Execute(w, log[n]).w && Unwound(stops[n], log[..n], stops[..|log|])
  {
    var n, earlier := |log| - 1, stops[..|log|];
    forall x | 0 <= x < n
      ensures earlier[x] == Execute(earlier[x + 1], log[..n][x]).w
    {
      assert earlier[x] == stops[x] && earlier[x + 1] == stops[x + 1] && log[..n][x] == log[x];
    }
  }

  lemma NoneFailedRest(log: seq<Undo>, stops: seq<World>)
    requires |stops| == |log| + 1 && log != []
    ensures var n := |log| - 1; NoneFailed(log, stops) <==> NoneFailed(log[..n], stops[..|log|]) && Execute(stops[n + 1], log[n]).Ok?
  {
    var n, earlier := |log| - 1, stops[..|log|];
    forall x | 0 <= x < n
      ensures Execute(earlier[x + 1], log[..n][x]) == Execute(stops[x + 1], log[x])
    {
    }
  }

  lemma {:induction false} RollbackUnwinds(w: World, log: seq<Undo>, stops: seq<World>)
    requires Unwound(w, log, stops)
    ensures RollbackAll(w, log).0 == stops[0] && (RollbackAll(w, log).1 == 0 <==> NoneFailed(log, stops))
    decreases |log|
  {
    if log != [] {
      UnwoundRest(w, log, stops);
      NoneFailedRest(log, stops);
      RollbackUnwinds(stops[|log| - 1], log[..|log| - 1], stops[..|log|]);
    }
  }

  // A failed run.

  /** A run refused by a before-apply hook has done nothing but start hooks. */
  lemma RefusedBefore(w: World, config: NetplanConfig)
    requires RunPhases(w, config, Plan.BEFORE_HOOKS, Plan.IDENTITY).Err?
    ensures var (final, report) := Apply(w, config);
      && report == Report(false, false)
      && final.core == w.core && final.nets == w.nets && final.rollback == w.rollback && final.switches == w.switches
  {
    StageQuiet(w, config, Plan.BEFORE_HOOKS);
  }

  /** A run reports success if and only if the before-apply hooks passed and nothing after them failed. */
  lemma SucceedsIff(w: World, config: NetplanConfig)
    ensures Apply(w, config).1.ok <==> RunPhases(w, config, Plan.BEFORE_HOOKS, Plan.ROLLBACK_HOOKS).Ok?
    ensures Apply(w, config).1.ok ==> Apply(w, config).0 == RunPhases(w, config, Plan.BEFORE_HOOKS, Plan.ROLLBACK_HOOKS).w
  {
    RunPhasesSplit(w, config, Plan.BEFORE_HOOKS, Plan.IDENTITY, Plan.ROLLBACK_HOOKS);
    var before := RunPhases(w, config, Plan.BEFORE_HOOKS, Plan.IDENTITY);
    RunPhasesSplit(before.w, config, Plan.IDENTITY, Plan.DRIVERS, Plan.ROLLBACK_HOOKS);
  }

  /** The reversible part of the run was carried out and the document installs a driver. */
  ghost predicate MayHaveInstalled(w: World, config: NetplanConfig) {
    && RunPhases(w, config, Plan.BEFORE_HOOKS, Plan.DRIVERS).Ok?
    && exists d :: d in config.drivers && d.Install?
  }

  lemma MayHaveInstalledIff(w: World, config: NetplanConfig)
    requires Fails(w, config)
    ensures MayHaveInstalled(w, config) <==> DriversReached(w, config) && InstallsDriver(config)
  {
    RunPhasesSplit(w, config, Plan.BEFORE_HOOKS, Plan.IDENTITY, Plan.DRIVERS);
    assert InstallsDriver(config) <==> exists d :: d in config.drivers && d.Install?;
  }

  /**
   In every failed run, whatever was installed and however many undos failed: each record is executed
   in the world the later ones left, then the after-rollback hooks are started up to the first that
   fails, and nothing else happens. The report is `rolled_back` if and only if there were records, no
   record and no hook failed, and no installation may have taken place.
   */
  lemma FailureHandled(w: World, config: NetplanConfig, stops: seq<World>)
    requires Fails(w, config) && Unwound(FailedAt(w, config), FailedAt(w, config).rollback, stops)
    ensures var (final, report) := Apply(w, config);
      var failed := FailedAt(w, config);
      && OnlyTried(stops[0], final)
      && (exists started :: HooksStarted(stops[0].faults, RollbackHooks(config), started) && final.attempted == failed.attempted + started)
      && !report.ok
      && (report.rolledBack <==>
            && failed.rollback != [] && NoneFailed(failed.rollback, stops)
            && AllGo(stops[0].faults, |RollbackHooks(config)|) && !MayHaveInstalled(w, config))
  {
    var failed := FailedAt(w, config);
    RollbackUnwinds(failed, failed.rollback, stops);
    HooksRun(stops[0], config, 0);
    MayHaveInstalledIff(w, config);
    var r := RunPhase(stops[0], config, Plan.ROLLBACK_HOOKS, 0);
    assert RunPhases(stops[0], config, Plan.ROLLBACK_HOOKS, Plan.PHASES) == r;
  }
}
