/** Why undo records are executed last first: an adapter that was enabled and then overridden. */
module UndoOrder {
  import opened Std
  import opened Text
  import opened Config
  import opened Model
  import opened Selectors
  import opened Ipv4Recovery
  import opened Machine
  import opened Transaction
  import opened Restoration
  import opened AdapterUndo
  import opened DriverPhase
  import opened RunInvariant
  import opened Replaying
  import opened RollbackTheorem
  import opened Switches
  import Plan

  /** The record is about an adapter's switch or address override. */
  predicate OfSwitch(u: Undo) {
    u.UndoAdapterState? || u.UndoMac?
  }

  /** No record that would switch an adapter off comes after one that restarts it. */
  ghost predicate Ordered(log: seq<Undo>) {
    forall x, y :: 0 <= x < y < |log| && log[x].UndoMac? && log[x].restart ==> log[y] != UndoAdapterState(log[x].adapter, false)
  }

  /** Switches are recorded as they were. */
  ghost predicate Truthful(origin: Core, log: seq<Undo>) {
    forall u :: u in log && u.UndoAdapterState? && u.adapter < |origin.enabled| ==> u.enabled == origin.enabled[u.adapter]
  }

  ghost predicate InOrder(origin: Core, log: seq<Undo>) {
    Ordered(log) && Truthful(origin, log)
  }

  lemma PushInOrder(origin: Core, log: seq<Undo>, u: Undo)
    requires InOrder(origin, log)
    requires u.UndoAdapterState? && u.adapter < |origin.enabled| ==> u.enabled == origin.enabled[u.adapter]
    requires u.UndoAdapterState? && !u.enabled ==> forall x :: x in log && x.UndoMac? ==> x.adapter != u.adapter
    ensures InOrder(origin, log + [u])
  {
    var all := log + [u];
    forall x, y | 0 <= x < y < |all| && all[x].UndoMac? && all[x].restart
      ensures all[y] != UndoAdapterState(all[x].adapter, false)
    {
      if y == |log| {
        assert log[x] in log;
      }
    }
    assert forall x :: x in all <==> x in log || x == u;
  }

  // One entry.

  /** The inventory speaks of the switches as they were at the start. */
  ghost predicate Inventoried(origin: Core, w: World) {
    Sized(w) && w.inventory.enabled == origin.enabled
  }

  ghost predicate EnteredInOrder(origin: Core, w: World, b: nat) {
    Inventoried(origin, w) && b < |w.hw.adapters| && InOrder(origin, w.rollback)
  }

  lemma EnableInOrder(origin: Core, w: World, i: nat, entry: AdapterConfig, b: nat)
    requires EnteredInOrder(origin, w, b) && forall x :: x in w.rollback && x.UndoMac? ==> x.adapter != b
    ensures var r := EnableStep(w, i, entry, b).w; EnteredInOrder(origin, r, b)
  {
    if !w.inventory.enabled[b] {
      PushInOrder(origin, w.rollback, UndoAdapterState(b, false));
    }
  }

  lemma MacInOrder(origin: Core, w: World, i: nat, entry: AdapterConfig, b: nat)
    requires EnteredInOrder(origin, w, b)
    ensures EnteredInOrder(origin, MacStep(w, i, entry, b).w, b)
  {
    MacFacts(w, i, entry, b);
    PushInOrder(origin, w.rollback, UndoMac(b, w.core.macs[b], entry.enabled == Some(true) || w.inventory.enabled[b]));
  }

  lemma Ipv4InOrder(origin: Core, w: World, i: nat, entry: AdapterConfig, b: nat)
    requires EnteredInOrder(origin, w, b)
    ensures EnteredInOrder(origin, Ipv4Step(w, i, entry, b).w, b)
  {
    Ipv4StepFrame(w, i, entry, b);
    Ipv4Shape(w, i, entry, b);
    if entry.ipv4.Some? {
      PushInOrder(origin, w.rollback, UndoIpv4(Capture(b, w.inventory.nets[b], w.nets[b], entry.ipv4.value)));
    } else {
      assert Ipv4Step(w, i, entry, b).w == w;
    }
  }

  lemma DisableInOrder(origin: Core, w: World, i: nat, entry: AdapterConfig, b: nat)
    requires EnteredInOrder(origin, w, b)
    ensures InOrder(origin, DisableStep(w, i, entry, b).w.rollback)
  {
    if w.inventory.enabled[b] {
      PushInOrder(origin, w.rollback, UndoAdapterState(b, true));
    }
  }

  lemma EntryInOrder(origin: Core, w: World, i: nat, entry: AdapterConfig, b: nat)
    requires EnteredInOrder(origin, w, b) && forall x :: x in w.rollback && x.UndoMac? ==> x.adapter != b
    ensures InOrder(origin, ApplyAdapterAt(w, i, entry, b).w.rollback)
  {
    EnableInOrder(origin, w, i, entry, b);
    var r1 := EnableStep(w, i, entry, b);
    if r1.Ok? {
      MacInOrder(origin, r1.w, i, entry, b);
      var r2 := MacStep(r1.w, i, entry, b);
      if r2.Ok? {
        Ipv4InOrder(origin, r2.w, i, entry, b);
        Ipv4StepFrame(r2.w, i, entry, b);
        var r3 := Ipv4Step(r2.w, i, entry, b);
        if r3.Ok? {
          DisableInOrder(origin, r3.w, i, entry, b);
        }
      }
    }
  }

  // Whole runs.

  /** Before declaration `i` of a phase: the log is in order, and only entries already applied have switch records. */
  ghost predicate Arranged(config: NetplanConfig, origin: Core, w: World, phase: nat, i: nat) {
    && InOrder(origin, w.rollback)
    && (phase < Plan.ADAPTERS ==> forall u :: u in w.rollback ==> !OfSwitch(u))
    && (phase == Plan.ADAPTERS ==>
          && i <= |config.adapters|
          && forall u :: u in w.rollback && OfSwitch(u) ==> u.adapter in Used(config, w.hw.adapters, i))
  }

  lemma SidewaysArranged(config: NetplanConfig, origin: Core, w: World, after: World, share: Option<string>, phase: nat, i: nat)
    requires Arranged(config, origin, w, phase, i) && phase != Plan.ADAPTERS && Sideways(w, after, share)
    ensures Arranged(config, origin, after, phase, i + 1)
  {
    if after.rollback != w.rollback {
      PushInOrder(origin, w.rollback, Last(after));
      assert forall x :: x in after.rollback <==> x in w.rollback || x == Last(after);
    }
  }

  lemma AdapterArranged(config: NetplanConfig, origin: Core, nets0: seq<Net>, w: World, i: nat)
    requires During(config, origin, nets0, w, Plan.ADAPTERS, i) && i < |config.adapters|
    requires Protected(config, w.hw.adapters, w.hw.wifi) && Arranged(config, origin, w, Plan.ADAPTERS, i)
    ensures Arranged(config, origin, ApplyAdapter(w, i, config.adapters[i]).w, Plan.ADAPTERS, i + 1)
  {
    EntryIsFresh(config, origin, nets0, w, i);
    var b := ResolveAdapter(w.hw.adapters, config.adapters[i].selector).value;
    EntryInOrder(origin, w, i, config.adapters[i], b);
    EntrySwitchesOnly(w, i, config.adapters[i], b);
    var used, next := Used(config, w.hw.adapters, i), Used(config, w.hw.adapters, i + 1);
    assert b in next && used <= next;
  }

  lemma ItemArranged(config: NetplanConfig, origin: Core, nets0: seq<Net>, w: World, phase: nat, i: nat)
    requires During(config, origin, nets0, w, phase, i) && SharesDistinct(config) && Arranged(config, origin, w, phase, i)
    requires Protected(config, w.hw.adapters, w.hw.wifi)
    requires Plan.IDENTITY <= phase < Plan.DRIVERS && i < Plan.Count(config, phase)
    ensures Arranged(config, origin, RunItem(w, config, phase, i).w, phase, i + 1)
  {
    if phase == Plan.ADAPTERS {
      AdapterArranged(config, origin, nets0, w, i);
    } else if phase == Plan.SHARES {
      ShareShape(w, i, config, config.shares[i]);
      SidewaysArranged(config, origin, w, RunItem(w, config, phase, i).w, Some(Fold(config.shares[i].name)), phase, i);
    } else {
      OtherItemKeeps(config, origin, w, phase, i);
      SidewaysArranged(config, origin, w, RunItem(w, config, phase, i).w, None, phase, i);
    }
  }

  lemma PhaseArranged(config: NetplanConfig, origin: Core, nets0: seq<Net>, w: World, phase: nat)
    requires Plan.IDENTITY <= phase < Plan.DRIVERS
    requires During(config, origin, nets0, w, phase, 0) && SharesDistinct(config) && Arranged(config, origin, w, phase, 0)
    requires Protected(config, w.hw.adapters, w.hw.wifi)
    ensures var r := RunPhase(w, config, phase, 0);
      if r.Ok? then Arranged(config, origin, r.w, phase, Plan.Count(config, phase)) else InOrder(origin, r.w.rollback)
  {
    var inv := (v: World, j: nat) => During(config, origin, nets0, v, phase, j) && Arranged(config, origin, v, phase, j);
    var halt := (v: World) => InOrder(origin, v.rollback);
    forall v: World, j: nat | v.hw == w.hw && j < Plan.Count(config, phase) && inv(v, j)
      ensures ItemStep(inv, halt, config, phase, v, j)
    {
      ItemKeeps(config, origin, nets0, v, phase, j);
      ItemArranged(config, origin, nets0, v, phase, j);
    }
    PhaseInduction(inv, halt, w.hw, config, phase, w, 0);
  }

  /** Before a phase. */
  ghost predicate Sorted(origin: Core, w: World, phase: nat) {
    InOrder(origin, w.rollback) && (phase <= Plan.ADAPTERS ==> forall u :: u in w.rollback ==> !OfSwitch(u))
  }

  lemma EnterArranged(config: NetplanConfig, origin: Core, w: World, p: nat)
    requires Sorted(origin, w, p)
    ensures Arranged(config, origin, Enter(w, config, p).w, p, 0)
  {
  }

  lemma ArrangedIsSorted(config: NetplanConfig, origin: Core, w: World, p: nat, i: nat)
    requires Arranged(config, origin, w, p, i)
    ensures Sorted(origin, w, p + 1)
  {
  }

  lemma EnteredPhaseSorted(config: NetplanConfig, origin: Core, nets0: seq<Net>, w: World, p: nat)
    requires Plan.IDENTITY <= p < Plan.DRIVERS
    requires Before(config, origin, nets0, w, p) && SharesDistinct(config) && Sorted(origin, w, p)
    requires Protected(config, w.hw.adapters, w.hw.wifi)
    ensures PhaseStep((v: World, q: nat) => Before(config, origin, nets0, v, q) && Sorted(origin, v, q), (v: World) => InOrder(origin, v.rollback), config, w, p)
  {
    EnterKeeps(config, origin, nets0, w, p);
    var r1 := Enter(w, config, p);
    if r1.Ok? {
      EnterArranged(config, origin, w, p);
      PhaseArranged(config, origin, nets0, r1.w, p);
      PhaseKeeps(config, origin, nets0, r1.w, p);
      var r2 := RunPhase(r1.w, config, p, 0);
      if r2.Ok? {
        DuringIsBefore(config, origin, nets0, r2.w, p, Plan.Count(config, p));
        ArrangedIsSorted(config, origin, r2.w, p, Plan.Count(config, p));
      }
    }
  }

  lemma PhasesSorted(config: NetplanConfig, origin: Core, nets0: seq<Net>, w: World, phase: nat, last: nat)
    requires Plan.IDENTITY <= phase <= last <= Plan.DRIVERS
    requires Before(config, origin, nets0, w, phase) && SharesDistinct(config) && Sorted(origin, w, phase)
    requires Protected(config, w.hw.adapters, w.hw.wifi)
    ensures InOrder(origin, RunPhases(w, config, phase, last).w.rollback)
  {
    var inv := (v: World, q: nat) => Before(config, origin, nets0, v, q) && Sorted(origin, v, q);
    var halt := (v: World) => InOrder(origin, v.rollback);
    forall v: World, p: nat | v.hw == w.hw && phase <= p < last && inv(v, p)
      ensures PhaseStep(inv, halt, config, v, p)
    {
      EnteredPhaseSorted(config, origin, nets0, v, p);
    }
    PhasesInduction(inv, halt, w.hw, config, w, phase, last);
  }

  /** The log of every failed run is in order. */
  lemma FailedInOrder(w: World, config: NetplanConfig)
    requires Ready(w) && SharesDistinct(config) && Protected(config, w.hw.adapters, w.hw.wifi) && Fails(w, config)
    ensures InOrder(w.core, FailedAt(w, config).rollback)
  {
    StageQuiet(w, config, Plan.BEFORE_HOOKS);
    var b := RunPhases(w, config, Plan.BEFORE_HOOKS, Plan.IDENTITY).w;
    ReadyIsBefore(config, b);
    PhasesSorted(config, b.core, b.nets, b, Plan.IDENTITY, Plan.DRIVERS);
    FailureIsUndoable(config, w);
  }

  // The wrong order.

  /** The state after undoing a log first record first. */
  function ReplayForward(core: Core, log: seq<Undo>): Core
    decreases |log|
  {
    if log == [] then core else ReplayForward(UndoCore(core, log[0]), log[1..])
  }

  lemma {:induction false} ForwardStaysOn(core: Core, log: seq<Undo>, a: nat)
    requires a < |core.enabled| && core.enabled[a] && UndoAdapterState(a, false) !in log
    ensures a < |ReplayForward(core, log).enabled| && ReplayForward(core, log).enabled[a]
    decreases |log|
  {
    if log != [] {
      UndoSizes(core, log[0]);
      assert log[0] in log;
      ForwardStaysOn(UndoCore(core, log[0]), log[1..], a);
    }
  }

  lemma {:induction false} ForwardEndsOn(core: Core, log: seq<Undo>, a: nat, x: nat)
    requires a < |core.enabled| == |core.macs| && Ordered(log)
    requires x < |log| && log[x].UndoMac? && log[x].adapter == a && log[x].restart
    ensures a < |ReplayForward(core, log).enabled| && ReplayForward(core, log).enabled[a]
    decreases |log|
  {
    var next := UndoCore(core, log[0]);
    UndoSizes(core, log[0]);
    if x == 0 {
      forall y | 0 <= y < |log[1..]|
        ensures log[1..][y] != UndoAdapterState(a, false)
      {
        assert log[1..][y] == log[y + 1];
      }
      ForwardStaysOn(next, log[1..], a);
    } else {
      assert forall y :: 0 <= y < |log[1..]| ==> log[1..][y] == log[y + 1];
      ForwardEndsOn(next, log[1..], a, x - 1);
    }
  }

  /**
   In every failed run in which one adapter was both enabled and overridden with a restart,
   executing its records last first leaves the adapter off, as it was; first to last they leave it on.
   */
  lemma OrderMatters(w: World, config: NetplanConfig, a: nat, previous: Option<string>)
    requires Ready(w) && SharesDistinct(config) && Protected(config, w.hw.adapters, w.hw.wifi) && Fails(w, config)
    requires a < |w.core.enabled|
    requires var log := FailedAt(w, config).rollback;
      UndoAdapterState(a, false) in log && UndoMac(a, previous, true) in log
    ensures var failed := FailedAt(w, config);
      var last, first := Replay(failed.core, failed.rollback).enabled, ReplayForward(failed.core, failed.rollback).enabled;
      |last| == |first| == |w.core.enabled| && !w.core.enabled[a] && !last[a] && first[a]
  {
    var v, failed := ReversibleEnd(w, config), FailedAt(w, config);
    var log := failed.rollback;
    FailureIsUndoable(config, w);
    FailedInOrder(w, config);
    assert Writes(UndoAdapterState(a, false), a) && Switched(log, a);
    ReplaySizes(v.core, log);
    ReplaySizes(failed.core, log);
    ReplaySwitches(v.core, failed.core, log);
    ForwardSizes(failed.core, log);
    var x :| 0 <= x < |log| && log[x] == UndoMac(a, previous, true);
    ForwardEndsOn(failed.core, log, a, x);
  }

  lemma {:induction false} ForwardSizes(core: Core, log: seq<Undo>)
    ensures |ReplayForward(core, log).enabled| == |core.enabled|
    decreases |log|
  {
    if log != [] {
      UndoSizes(core, log[0]);
      ForwardSizes(UndoCore(core, log[0]), log[1..]);
    }
  }
}
