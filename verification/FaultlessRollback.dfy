/** Undo records can be executed: what a rollback does when no call fails any more. */
module FaultlessRollback {
  import opened Std
  import opened Text
  import opened Config
  import opened Selectors
  import opened Ipv4Recovery
  import opened Machine
  import opened Transaction
  import opened Restoration
  import opened AdapterUndo
  import opened DriverPhase
  import opened RunInvariant
  import opened RollbackTheorem
  import opened InEffect
  import opened Conformance
  import opened RunRecords
  import Replaying
  import Plan

  // Records that can be executed.

  /** The record speaks of an adapter of a machine with `n` adapters, or of none. */
  predicate Ranged(u: Undo, n: nat) {
    match u
    case UndoAdapterState(adapter, _) => adapter < n
    case UndoMac(adapter, _, _) => adapter < n
    case UndoIpv4(r) => r.adapter < n
    case _ => true
  }

  /** No record from `y` on is about a profile. */
  ghost predicate ProfilesStay(log: seq<Undo>, y: nat) {
    forall z :: y <= z < |log| ==> !log[z].UndoProfile?
  }

  /** Every record can be executed once the later ones have been. */
  ghost predicate Runnable(core: Core, n: nat, log: seq<Undo>) {
    && |core.enabled| == |core.macs| == n
    && (forall x :: 0 <= x < |log| ==> Ranged(log[x], n) && Supplied(log[x], core))
    && (forall x :: 0 <= x < |log| && log[x].UndoConnection? ==> ProfilesStay(log, x))
  }

  lemma PlainUndoFaultless(w: World, u: Undo)
    requires w.faults == [] && Runnable(w.core, |w.nets|, [u]) && !u.UndoIpv4? && !OfAdapter(u)
    ensures var r := Execute(w, u); r.Ok? && r.w.faults == [] && r.w.nets == w.nets
  {
    assert [u][0] == u;
  }

  lemma AdapterUndoFaultless(w: World, u: Undo)
    requires w.faults == [] && Runnable(w.core, |w.nets|, [u]) && !u.UndoIpv4? && OfAdapter(u)
    ensures var r := Execute(w, u); r.Ok? && r.w.faults == [] && r.w.nets == w.nets
  {
    assert [u][0] == u;
  }

  /** The IPv4 state of adapter `a` after one undo without faults. */
  function UndoneNet(env: Environment, u: Undo, a: nat, net: Net): Net {
    if u.UndoIpv4? && u.restore.adapter == a then Restored(env, u.restore, net) else net
  }

  predicate Passes(env: Environment, u: Undo, nets: seq<Net>) {
    u.UndoIpv4? && u.restore.adapter < |nets| ==> VerifyRestored(u.restore, Restored(env, u.restore, nets[u.restore.adapter]))
  }

  lemma UndoFaultless(w: World, u: Undo)
    requires w.faults == [] && Runnable(w.core, |w.nets|, [u])
    ensures var r := Execute(w, u);
      && r.w.faults == [] && r.w.hw == w.hw && r.w.core == UndoCore(w.core, u) && |r.w.nets| == |w.nets|
      && (r.Ok? <==> Passes(w.hw.network, u, w.nets))
      && forall a: nat :: a < |w.nets| ==> r.w.nets[a] == UndoneNet(w.hw.network, u, a, w.nets[a])
  {
    assert [u][0] == u;
    UndoOutcome(w, u);
    if u.UndoIpv4? {
      RestoreNetWithoutFaults(w, u.restore);
      assert Execute(w, u) == RestoreNet(w, u.restore);
    } else if OfAdapter(u) {
      AdapterUndoFaultless(w, u);
    } else {
      PlainUndoFaultless(w, u);
    }
  }

  lemma SuppliedAfter(u: Undo, last: Undo, core: Core)
    requires Supplied(u, core) && (u.UndoConnection? ==> !last.UndoProfile?)
    ensures Supplied(u, UndoCore(core, last))
  {
  }

  lemma ProfilesStayRest(log: seq<Undo>, x: nat)
    requires x + 1 < |log| && ProfilesStay(log, x)
    ensures !log[|log| - 1].UndoProfile? && ProfilesStay(log[..|log| - 1], x)
  {
  }

  /** The records before the last can be executed once the last has been. */
  lemma RunnableRest(core: Core, n: nat, log: seq<Undo>)
    requires Runnable(core, n, log) && log != []
    ensures Runnable(core, n, [log[|log| - 1]]) && Runnable(UndoCore(core, log[|log| - 1]), n, log[..|log| - 1])
  {
    var m := |log| - 1;
    Replaying.UndoSizes(core, log[m]);
    forall x | 0 <= x < m
      ensures Supplied(log[x], UndoCore(core, log[m]))
      ensures log[x].UndoConnection? ==> ProfilesStay(log[..m], x)
    {
      if log[x].UndoConnection? {
        ProfilesStayRest(log, x);
      }
      SuppliedAfter(log[x], log[m], core);
    }
  }

  /** Some record of the log captured adapter `a` with `r`. */
  ghost predicate Records(log: seq<Undo>, r: NetRestore) {
    UndoIpv4(r) in log
  }

  /** Where a rollback without faults leaves the adapters and whether it counts an error. */
  ghost predicate NetsUndone(env: Environment, log: seq<Undo>, before: seq<Net>, after: seq<Net>) {
    && |after| == |before|
    && (forall a: nat :: a < |before| && a !in Restoration.Adapters(log) ==> after[a] == before[a])
    && (forall r :: Records(log, r) && r.adapter < |before| ==> after[r.adapter] == Restored(env, r, before[r.adapter]))
  }

  ghost predicate AllPass(env: Environment, log: seq<Undo>, nets: seq<Net>) {
    forall x :: 0 <= x < |log| ==> Passes(env, log[x], nets)
  }

  lemma OnceSplit(log: seq<Undo>, x: nat)
    requires Ipv4Once(log) && x + 1 < |log| && log[x].UndoIpv4? && log[|log| - 1].UndoIpv4?
    ensures log[x].restore.adapter != log[|log| - 1].restore.adapter
  {
  }

  lemma PassesRest(env: Environment, log: seq<Undo>, before: seq<Net>, mid: seq<Net>)
    requires Ipv4Once(log) && log != [] && |mid| == |before|
    requires forall a: nat :: a < |before| ==> mid[a] == UndoneNet(env, log[|log| - 1], a, before[a])
    ensures AllPass(env, log, before) <==> AllPass(env, log[..|log| - 1], mid) && Passes(env, log[|log| - 1], before)
  {
    var m := |log| - 1;
    forall x | 0 <= x < m
      ensures Passes(env, log[..m][x], mid) <==> Passes(env, log[x], before)
    {
      assert log[..m][x] == log[x];
      if log[x].UndoIpv4? && log[m].UndoIpv4? {
        OnceSplit(log, x);
      }
    }
  }

  lemma NetsUndoneMore(env: Environment, log: seq<Undo>, before: seq<Net>, mid: seq<Net>, after: seq<Net>)
    requires Ipv4Once(log) && log != [] && |mid| == |before|
    requires forall a: nat :: a < |before| ==> mid[a] == UndoneNet(env, log[|log| - 1], a, before[a])
    requires NetsUndone(env, log[..|log| - 1], mid, after)
    ensures NetsUndone(env, log, before, after)
  {
    var m := |log| - 1;
    var rest, last := log[..m], log[m];
    assert log == rest + [last];
    RecordedAfter(rest, last);
    forall r | Records(log, r) && r.adapter < |before|
      ensures after[r.adapter] == Restored(env, r, before[r.adapter])
    {
      if last == UndoIpv4(r) {
        Replaying.LastOnce(rest, last);
      } else {
        var x :| 0 <= x < m && rest[x] == UndoIpv4(r);
        if last.UndoIpv4? {
          OnceSplit(log, x);
        }
        assert Records(rest, r);
      }
    }
  }

  lemma OnceRest(log: seq<Undo>)
    requires Ipv4Once(log) && log != []
    ensures Ipv4Once(log[..|log| - 1])
  {
  }

  /** A rollback without faults undoes every record; only IPv4 records can count an error. */
  lemma {:induction false} RollbackFaultless(w: World, log: seq<Undo>)
    requires w.faults == [] && Runnable(w.core, |w.nets|, log) && Ipv4Once(log)
    ensures var (after, errors) := RollbackAll(w, log);
      && after.faults == [] && after.core == Replay(w.core, log)
      && NetsUndone(w.hw.network, log, w.nets, after.nets)
      && (errors == 0 <==> AllPass(w.hw.network, log, w.nets))
    decreases |log|
  {
    if log != [] {
      var m := |log| - 1;
      var run := Execute(w, log[m]);
      RunnableRest(w.core, |w.nets|, log);
      UndoFaultless(w, log[m]);
      OnceRest(log);
      RollbackFaultless(run.w, log[..m]);
      PassesRest(w.hw.network, log, w.nets, run.w.nets);
      NetsUndoneMore(w.hw.network, log, w.nets, run.w.nets, RollbackAll(run.w, log[..m]).0.nets);
    }
  }

  // Every run's records can be executed.

  ghost predicate RunnableAt(w: World) {
    BaseSized(w) && Runnable(w.core, |w.nets|, w.rollback)
  }

  ghost predicate NoConnections(log: seq<Undo>) {
    forall x :: 0 <= x < |log| ==> !log[x].UndoConnection?
  }

  /** Services and profiles are added to, not taken from. */
  ghost predicate StillSupplied(before: Core, after: Core) {
    && (forall n :: n in before.services ==> n in after.services)
    && (forall k :: k in before.profiles ==> k in after.profiles)
  }

  lemma SuppliedStill(u: Undo, before: Core, after: Core)
    requires StillSupplied(before, after) && Supplied(u, before)
    ensures Supplied(u, after)
  {
  }

  /** New records that can be executed now keep the log executable: no connection before a profile. */
  lemma GrownRunnable(w: World, after: World)
    requires RunnableAt(w) && BaseSized(after) && |after.nets| == |w.nets| && IsPrefix(w.rollback, after.rollback)
    requires StillSupplied(w.core, after.core)
    requires forall x :: |w.rollback| <= x < |after.rollback| ==> Ranged(after.rollback[x], |w.nets|) && Supplied(after.rollback[x], after.core)
    requires NoConnections(after.rollback) || ProfilesStay(after.rollback, |w.rollback|)
    ensures RunnableAt(after)
  {
    forall x | 0 <= x < |after.rollback|
      ensures Ranged(after.rollback[x], |after.nets|) && Supplied(after.rollback[x], after.core)
    {
      if x < |w.rollback| {
        assert after.rollback[x] == w.rollback[x];
        SuppliedStill(w.rollback[x], w.core, after.core);
      }
    }
    forall x | 0 <= x < |after.rollback| && after.rollback[x].UndoConnection?
      ensures ProfilesStay(after.rollback, x)
    {
      ConnectionsLast(w, after, x);
    }
  }

  lemma ConnectionsLast(w: World, after: World, x: nat)
    requires Runnable(w.core, |w.nets|, w.rollback) && IsPrefix(w.rollback, after.rollback) && x < |after.rollback| && after.rollback[x].UndoConnection?
    requires ProfilesStay(after.rollback, |w.rollback|)
    ensures ProfilesStay(after.rollback, x)
  {
    forall z | x <= z < |after.rollback|
      ensures !after.rollback[z].UndoProfile?
    {
      if z < |w.rollback| {
        assert after.rollback[x] == w.rollback[x] && after.rollback[z] == w.rollback[z];
        assert ProfilesStay(w.rollback, x);
      }
    }
  }

  /** Before the actions no connection is on record. */
  ghost predicate RunnableIn(w: World, phase: nat) {
    RunnableAt(w) && (phase <= Plan.PROFILES ==> NoConnections(w.rollback))
  }

  lemma ItemSizes(w: World, config: NetplanConfig, phase: nat, i: nat)
    requires Plan.IDENTITY <= phase < Plan.DRIVERS && i < Plan.Count(config, phase) && BaseSized(w)
    requires phase == Plan.ADAPTERS || RunItem(w, config, phase, i).w.nets == w.nets
    ensures var r := RunItem(w, config, phase, i).w; BaseSized(r) && |r.nets| == |w.nets|
  {
    ItemTouches(w, config, phase, i);
    if phase == Plan.ADAPTERS {
      AdapterItem(w, config, i);
    }
  }

  lemma ItemSupplies(w: World, config: NetplanConfig, phase: nat, i: nat)
    requires Plan.IDENTITY <= phase < Plan.DRIVERS && i < Plan.Count(config, phase)
    ensures StillSupplied(w.core, RunItem(w, config, phase, i).w.core)
  {
    ItemTouches(w, config, phase, i);
    if phase == Plan.SERVICES {
      ServiceAdds(w, config, i);
    } else if phase == Plan.PROFILES {
      assert RunItem(w, config, phase, i) == ApplyProfile(w, i, config.wifi[i]);
    }
  }

  lemma ItemLeavesNets(config: NetplanConfig, origin: Core, nets0: seq<Net>, w: World, phase: nat, i: nat)
    requires During(config, origin, nets0, w, phase, i)
    requires Plan.IDENTITY <= phase < Plan.DRIVERS && phase != Plan.ADAPTERS && i < Plan.Count(config, phase)
    ensures RunItem(w, config, phase, i).w.nets == w.nets
  {
    if phase == Plan.SHARES {
      ShareShape(w, i, config, config.shares[i]);
    } else {
      OtherItemKeeps(config, origin, w, phase, i);
    }
  }

  lemma FitsRanged(config: NetplanConfig, hw: Hardware, phase: nat, i: nat, u: Undo)
    requires Plan.IDENTITY <= phase < Plan.DRIVERS && i < Plan.Count(config, phase) && Fits(config, hw, phase, i, u)
    ensures Ranged(u, |hw.adapters|) && (phase <= Plan.PROFILES ==> !u.UndoConnection?) && (phase > Plan.PROFILES ==> !u.UndoProfile?)
  {
  }

  lemma ItemRunnable(config: NetplanConfig, origin: Core, nets0: seq<Net>, w: World, phase: nat, i: nat)
    requires During(config, origin, nets0, w, phase, i) && RunnableIn(w, phase)
    requires Plan.IDENTITY <= phase < Plan.DRIVERS && i < Plan.Count(config, phase)
    ensures RunnableIn(RunItem(w, config, phase, i).w, phase)
  {
    var after := RunItem(w, config, phase, i).w;
    ItemAdds(w, config, phase, i);
    ItemSupplies(w, config, phase, i);
    if phase != Plan.ADAPTERS {
      ItemLeavesNets(config, origin, nets0, w, phase, i);
    }
    ItemSizes(w, config, phase, i);
    forall x | |w.rollback| <= x < |after.rollback|
      ensures Ranged(after.rollback[x], |w.nets|)
      ensures phase <= Plan.PROFILES ==> !after.rollback[x].UndoConnection?
      ensures phase > Plan.PROFILES ==> !after.rollback[x].UndoProfile?
    {
      FitsRanged(config, w.hw, phase, i, after.rollback[x]);
    }
    if phase <= Plan.PROFILES {
      assert forall x :: 0 <= x < |w.rollback| ==> after.rollback[x] == w.rollback[x];
      assert NoConnections(after.rollback);
    }
    GrownRunnable(w, after);
  }

  lemma PhaseRunnable(config: NetplanConfig, origin: Core, nets0: seq<Net>, w: World, phase: nat)
    requires Plan.IDENTITY <= phase < Plan.DRIVERS
    requires During(config, origin, nets0, w, phase, 0) && SharesDistinct(config) && RunnableIn(w, phase)
    requires Protected(config, w.hw.adapters, w.hw.wifi)
    ensures RunnableIn(RunPhase(w, config, phase, 0).w, phase)
  {
    var inv := (v: World, j: nat) => During(config, origin, nets0, v, phase, j) && RunnableIn(v, phase);
    var halt := (v: World) => RunnableIn(v, phase);
    forall v: World, j: nat | v.hw == w.hw && j < Plan.Count(config, phase) && inv(v, j)
      ensures ItemStep(inv, halt, config, phase, v, j)
    {
      ItemKeeps(config, origin, nets0, v, phase, j);
      ItemRunnable(config, origin, nets0, v, phase, j);
    }
    PhaseInduction(inv, halt, w.hw, config, phase, w, 0);
  }

  lemma EnteredPhaseRunnable(config: NetplanConfig, origin: Core, nets0: seq<Net>, w: World, p: nat)
    requires Plan.IDENTITY <= p < Plan.DRIVERS
    requires Before(config, origin, nets0, w, p) && SharesDistinct(config) && RunnableIn(w, p)
    requires Protected(config, w.hw.adapters, w.hw.wifi)
    ensures PhaseStep((v: World, q: nat) => Before(config, origin, nets0, v, q) && RunnableIn(v, q), RunnableAt, config, w, p)
  {
    EnterKeeps(config, origin, nets0, w, p);
    var r1 := Enter(w, config, p);
    assert r1.w.core == w.core && r1.w.rollback == w.rollback && r1.w.nets == w.nets;
    if r1.Ok? {
      PhaseRunnable(config, origin, nets0, r1.w, p);
      PhaseKeeps(config, origin, nets0, r1.w, p);
      var r2 := RunPhase(r1.w, config, p, 0);
      if r2.Ok? {
        DuringIsBefore(config, origin, nets0, r2.w, p, Plan.Count(config, p));
      }
    }
  }

  lemma PhasesRunnable(config: NetplanConfig, origin: Core, nets0: seq<Net>, w: World)
    requires Before(config, origin, nets0, w, Plan.IDENTITY) && SharesDistinct(config) && RunnableIn(w, Plan.IDENTITY)
    requires Protected(config, w.hw.adapters, w.hw.wifi)
    ensures RunnableAt(RunPhases(w, config, Plan.IDENTITY, Plan.DRIVERS).w)
  {
    var inv := (v: World, q: nat) => Before(config, origin, nets0, v, q) && RunnableIn(v, q);
    forall v: World, p: nat | v.hw == w.hw && Plan.IDENTITY <= p < Plan.DRIVERS && inv(v, p)
      ensures PhaseStep(inv, RunnableAt, config, v, p)
    {
      EnteredPhaseRunnable(config, origin, nets0, v, p);
    }
    PhasesInduction(inv, RunnableAt, w.hw, config, w, Plan.IDENTITY, Plan.DRIVERS);
  }

  lemma SwitchedRunnable(w: World, after: World)
    requires RunnableAt(w) && OnlySwitched(w, after)
    ensures RunnableAt(after)
  {
  }

  /** Wherever a run fails, every record of its log can be executed. */
  lemma FailureRunnable(w: World, config: NetplanConfig)
    requires Ready(w) && SharesDistinct(config) && Protected(config, w.hw.adapters, w.hw.wifi) && Fails(w, config)
    ensures RunnableAt(FailedAt(w, config))
  {
    StageQuiet(w, config, Plan.BEFORE_HOOKS);
    var b := RunPhases(w, config, Plan.BEFORE_HOOKS, Plan.IDENTITY).w;
    ReadyIsBefore(config, b);
    PhasesRunnable(config, b.core, b.nets, b);
    if DriversReached(w, config) {
      LatePhasesSwitchOnly(ReversibleEnd(w, config), config);
      SwitchedRunnable(ReversibleEnd(w, config), FailedAt(w, config));
    }
  }

  /** Every IPv4 record of the log passes its comparison, each on the adapter as the run left it. */
  ghost predicate ComparisonsPass(failed: World) {
    forall r :: Records(failed.rollback, r) && r.adapter < |failed.nets| ==>
      VerifyRestored(r, Restored(failed.hw.network, r, failed.nets[r.adapter]))
  }

  lemma AllPassIff(w: World)
    ensures AllPass(w.hw.network, w.rollback, w.nets) <==> ComparisonsPass(w)
  {
    if ComparisonsPass(w) {
      forall x | 0 <= x < |w.rollback|
        ensures Passes(w.hw.network, w.rollback[x], w.nets)
      {
        if w.rollback[x].UndoIpv4? {
          assert Records(w.rollback, w.rollback[x].restore);
        }
      }
    }
  }

  /** With no fault ahead every after-rollback hook is started. */
  lemma FaultlessHooks(w: World, config: NetplanConfig)
    requires w.faults == []
    ensures var r := RunPhases(w, config, Plan.ROLLBACK_HOOKS, Plan.PHASES);
      r.Ok? && r.w.core == w.core && r.w.nets == w.nets && r.w.attempted == w.attempted + RollbackHooks(config)
  {
    StageQuiet(w, config, Plan.ROLLBACK_HOOKS);
    HooksRun(w, config, 0);
    var r := RunPhase(w, config, Plan.ROLLBACK_HOOKS, 0);
    assert RunPhases(w, config, Plan.ROLLBACK_HOOKS, Plan.PHASES) == r;
    var started :| HooksStarted([], RollbackHooks(config), started) && r.w.attempted == w.attempted + started;
    AllHooksStarted([], RollbackHooks(config), started);
  }

  /**
   A run that fails with no fault left ahead, whatever it had installed: every record is undone, each
   recorded adapter ends where its recovery leads, every after-rollback hook is started, and the report
   is `rolled_back` if and only if there were records, the comparisons pass, and nothing was installed.
   */
  lemma FaultlessAftermath(w: World, config: NetplanConfig)
    requires Ready(w) && SharesDistinct(config) && Protected(config, w.hw.adapters, w.hw.wifi)
    requires Fails(w, config) && FailedAt(w, config).faults == []
    ensures var (final, report) := Apply(w, config);
      var failed := FailedAt(w, config);
      && final.core == Replay(failed.core, failed.rollback)
      && NetsUndone(w.hw.network, failed.rollback, failed.nets, final.nets)
      && final.attempted == failed.attempted + RollbackHooks(config)
      && (report.rolledBack <==>
            failed.rollback != [] && ComparisonsPass(failed) && !(DriversReached(w, config) && InstallsDriver(config)))
  {
    var failed := FailedAt(w, config);
    FailureRunnable(w, config);
    FailureIsUndoable(config, w);
    RollbackFaultless(failed, failed.rollback);
    AllPassIff(failed);
    FaultlessHooks(RollbackAll(failed, failed.rollback).0, config);
  }
}
