/** Executing undo records: what a rollback without errors achieves, and when it is exact. */
module Replaying {
  import opened Std
  import opened Text
  import opened Config
  import opened Selectors
  import opened Ipv4Recovery
  import opened Machine
  import opened Transaction
  import opened Restoration
  import opened AdapterUndo
  import opened DriverPhase
  import opened RunInvariant
  import Plan

  // The rollback itself.

  predicate Switched(log: seq<Undo>, a: nat) {
    exists u :: u in log && Writes(u, a)
  }

  /** A record executed after record `x` switches the adapter of `x`. */
  predicate SwitchedLater(log: seq<Undo>, x: nat)
    requires x < |log| && log[x].UndoIpv4?
  {
    Switched(log[..x], log[x].restore.adapter)
  }

  /**
   Adapters no record speaks of are as they were. One with an IPv4 record was compared with it
   unless it is switched later, and is where the recovery model says unless it is switched at all.
   */
  ghost predicate NetsVerified(env: Environment, before: seq<Net>, log: seq<Undo>, after: seq<Net>) {
    && |after| == |before|
    && (forall a :: 0 <= a < |before| && a !in Restoration.Adapters(log) && !Switched(log, a) ==> after[a] == before[a])
    && (forall x :: 0 <= x < |log| && log[x].UndoIpv4? && log[x].restore.adapter < |before| ==>
          var r := log[x].restore;
          && (!SwitchedLater(log, x) ==> VerifyRestored(r, after[r.adapter]))
          && (!Switched(log, r.adapter) ==> after[r.adapter] == Restored(env, r, before[r.adapter])))
  }

  lemma SwitchedBy(log: seq<Undo>, u: Undo, a: nat)
    ensures Switched(log + [u], a) <==> Switched(log, a) || Writes(u, a)
  {
    assert forall x :: x in log + [u] <==> x in log || x == u;
  }

  /** What executing the last record contributes. */
  lemma NetsVerifiedStep(w: World, rest: seq<Undo>, last: Undo, run: Run, after: seq<Net>)
    requires Ipv4Once(rest + [last]) && run == Execute(w, last) && run.Ok?
    requires NetsVerified(w.hw.network, run.w.nets, rest, after)
    ensures NetsVerified(w.hw.network, w.nets, rest + [last], after)
  {
    var log := rest + [last];
    UndoOutcome(w, last);
    RecordedAfter(rest, last);
    forall a
      ensures Switched(log, a) <==> Switched(rest, a) || Writes(last, a)
    {
      SwitchedBy(rest, last, a);
    }
    if last.UndoIpv4? {
      LastOnce(rest, last);
      assert log[..|rest|] == rest;
    }
    forall x | 0 <= x < |rest| && log[x].UndoIpv4? && log[x].restore.adapter < |w.nets|
      ensures var r := log[x].restore;
        && (!SwitchedLater(log, x) ==> VerifyRestored(r, after[r.adapter]))
        && (!Switched(log, r.adapter) ==> after[r.adapter] == Restored(w.hw.network, r, w.nets[r.adapter]))
    {
      assert log[..x] == rest[..x] && log[x] == rest[x];
      assert last.UndoIpv4? ==> log[x].restore.adapter != log[|rest|].restore.adapter;
    }
  }

  lemma LastOnce(rest: seq<Undo>, last: Undo)
    requires Ipv4Once(rest + [last]) && last.UndoIpv4?
    ensures last.restore.adapter !in Restoration.Adapters(rest)
  {
    var log := rest + [last];
    forall u | u in rest && u.UndoIpv4?
      ensures u.restore.adapter != last.restore.adapter
    {
      var x :| 0 <= x < |rest| && rest[x] == u;
      assert log[x] == u && log[|rest|] == last;
    }
  }

  /** A rollback without errors has undone every record, last first. */
  lemma {:induction false} RollbackOutcome(w: World, log: seq<Undo>)
    requires Ipv4Once(log)
    ensures var (after, errors) := RollbackAll(w, log);
      && (forall s :: s in w.switches ==> s in after.switches)
      && (errors == 0 ==>
            && after.core == Replay(w.core, log) && NetsVerified(w.hw.network, w.nets, log, after.nets)
            && forall a :: Switched(log, a) ==> Issued(after, a))
    decreases |log|
  {
    if log != [] {
      var last, rest := log[|log| - 1], log[..|log| - 1];
      assert log == rest + [last];
      var run := Execute(w, last);
      UndoOutcome(w, last);
      assert Ipv4Once(rest);
      RollbackOutcome(run.w, rest);
      var (after, errors) := RollbackAll(w, log);
      if errors == 0 {
        NetsVerifiedStep(w, rest, last, run, after.nets);
        forall a | Switched(log, a)
          ensures Issued(after, a)
        {
          SwitchedBy(rest, last, a);
        }
      }
    }
  }

  // What undo records can and cannot bring back.

  /**
   Everything the log speaks of can be undone exactly: no share was left as declared by an update
   that failed and could not be taken back, no recorded service was between running and stopped, and no recorded connection without a drive
   letter existed already.
   */
  ghost predicate Reproducible(origin: Core, failed: World) {
    && failed.unrepaired == {}
    && (forall n :: n in Services(failed.rollback) ==> LookUp(origin.services, n) != Some(Transitional))
    && (forall p :: p in Remotes(failed.rollback) ==> p !in origin.remotes)
  }

  /** An adapter whose switch the log does not speak of is as it was, whatever driver operations did. */
  ghost predicate SwitchesKept(origin: Core, failed: World) {
    forall a :: 0 <= a < |origin.enabled| && a < |failed.core.enabled| && !Switched(failed.rollback, a) ==>
      failed.core.enabled[a] == origin.enabled[a]
  }

  lemma UndoShareElsewhere(core: Core, u: Undo, n: string)
    requires u.UndoShare? ==> u.share != n
    ensures LookUp(UndoCore(core, u).shares, n) == LookUp(core.shares, n)
  {
    assert !u.UndoShare? ==> UndoCore(core, u).shares == core.shares;
  }

  lemma {:induction false} ReplayedService(core: Core, log: seq<Undo>, n: string)
    requires n in Services(log) || LookUp(core.services, n) in {Some(RunningNow), Some(StoppedNow)}
    ensures LookUp(Replay(core, log).services, n) in {Some(RunningNow), Some(StoppedNow)}
    decreases |log|
  {
    if log != [] {
      var last, rest := log[|log| - 1], log[..|log| - 1];
      assert log == rest + [last];
      RecordedAfter(rest, last);
      ReplayedService(UndoCore(core, last), rest, n);
    }
  }

  lemma {:induction false} ReplayedRemote(core: Core, log: seq<Undo>, p: string)
    requires p in Remotes(log) || p !in core.remotes
    ensures p !in Replay(core, log).remotes
    decreases |log|
  {
    if log != [] {
      var last, rest := log[|log| - 1], log[..|log| - 1];
      assert log == rest + [last];
      RecordedAfter(rest, last);
      ReplayedRemote(UndoCore(core, last), rest, p);
    }
  }

  lemma {:induction false} ReplayedShare(core: Core, log: seq<Undo>, n: string)
    requires n !in Shares(log)
    ensures LookUp(Replay(core, log).shares, n) == LookUp(core.shares, n)
    decreases |log|
  {
    if log != [] {
      var last, rest := log[|log| - 1], log[..|log| - 1];
      assert log == rest + [last];
      RecordedAfter(rest, last);
      UndoShareElsewhere(core, last, n);
      ReplayedShare(UndoCore(core, last), rest, n);
    }
  }

  /** Remote connections recorded but absent at the start come back to absent. */
  lemma RemotesComeBack(origin: Core, w: World)
    requires Undoable(origin, w)
    requires forall p :: p in Remotes(w.rollback) ==> p !in origin.remotes
    ensures Replay(w.core, w.rollback).remotes == origin.remotes
  {
    var d := Remotes(w.rollback);
    var end := Replay(w.core, w.rollback).remotes;
    forall p | p in d
      ensures p !in end
    {
      ReplayedRemote(w.core, w.rollback, p);
    }
    assert end - d == end && origin.remotes - d == origin.remotes;
  }

  /** Undoing the whole log is exact if and only if what it speaks of can be reproduced. */
  lemma ReplayExactIff(config: NetplanConfig, origin: Core, w: World)
    requires UndoableStop(config, origin, w)
    ensures Replay(w.core, w.rollback) == origin <==> Reproducible(origin, w)
  {
    var end := Replay(w.core, w.rollback);
    if Reproducible(origin, w) {
      RemotesComeBack(origin, w);
      var d := DriftOf(origin, w);
      assert d.services == {} && d.shares == {};
      assert end.services - {} == end.services && origin.services - {} == origin.services;
      assert end.shares - {} == end.shares && origin.shares - {} == origin.shares;
    } else if end == origin {
      if w.unrepaired != {} {
        var n :| n in w.unrepaired;
        ReplayedShare(w.core, w.rollback, n);
      } else if exists n :: n in Services(w.rollback) && LookUp(origin.services, n) == Some(Transitional) {
        var n :| n in Services(w.rollback) && LookUp(origin.services, n) == Some(Transitional);
        ReplayedService(w.core, w.rollback, n);
      } else {
        var p :| p in Remotes(w.rollback) && p in origin.remotes;
        ReplayedRemote(w.core, w.rollback, p);
      }
    }
  }

  // Switches that no record speaks of.

  lemma UndoSizes(c: Core, u: Undo)
    ensures |UndoCore(c, u).enabled| == |c.enabled| && |UndoCore(c, u).macs| == |c.macs|
    ensures !u.UndoAdapterState? && !u.UndoMac? ==> UndoCore(c, u).enabled == c.enabled
  {
  }

  lemma UndoSmbSame(c: Core, d: Core, u: Undo)
    requires SameButSwitches(c, d) && (u.UndoService? || u.UndoAccount? || u.UndoShare? || u.UndoMapping?)
    ensures SameButSwitches(UndoCore(c, u), UndoCore(d, u))
  {
  }

  lemma UndoOtherSame(c: Core, d: Core, u: Undo)
    requires SameButSwitches(c, d)
    requires u.UndoComputerName? || u.UndoWorkgroup? || u.UndoDnsSuffix? || u.UndoIpv4? || u.UndoFirewall?
    ensures SameButSwitches(UndoCore(c, u), UndoCore(d, u))
  {
  }

  lemma UndoWifiSame(c: Core, d: Core, u: Undo)
    requires SameButSwitches(c, d) && (u.UndoProfile? || u.UndoConnection?)
    ensures SameButSwitches(UndoCore(c, u), UndoCore(d, u))
  {
  }

  lemma UndoStateSame(c: Core, d: Core, u: Undo)
    requires SameButSwitches(c, d) && |c.enabled| == |c.macs| && u.UndoAdapterState?
    ensures SameButSwitches(UndoCore(c, u), UndoCore(d, u))
    ensures forall a :: 0 <= a < |c.enabled| ==>
      if Writes(u, a) then UndoCore(c, u).enabled[a] == UndoCore(d, u).enabled[a]
      else UndoCore(c, u).enabled[a] == c.enabled[a] && UndoCore(d, u).enabled[a] == d.enabled[a]
  {
  }

  lemma UndoMacSame(c: Core, d: Core, u: Undo)
    requires SameButSwitches(c, d) && |c.enabled| == |c.macs| && u.UndoMac?
    ensures SameButSwitches(UndoCore(c, u), UndoCore(d, u))
    ensures forall a :: 0 <= a < |c.enabled| ==>
      if Writes(u, a) then UndoCore(c, u).enabled[a] == UndoCore(d, u).enabled[a]
      else UndoCore(c, u).enabled[a] == c.enabled[a] && UndoCore(d, u).enabled[a] == d.enabled[a]
  {
  }

  lemma UndoSwitch(c: Core, d: Core, u: Undo)
    requires SameButSwitches(c, d) && |c.enabled| == |c.macs|
    ensures SameButSwitches(UndoCore(c, u), UndoCore(d, u))
    ensures |UndoCore(c, u).enabled| == |c.enabled| == |UndoCore(c, u).macs|
    ensures forall a :: 0 <= a < |c.enabled| ==>
      if Writes(u, a) then UndoCore(c, u).enabled[a] == UndoCore(d, u).enabled[a]
      else UndoCore(c, u).enabled[a] == c.enabled[a] && UndoCore(d, u).enabled[a] == d.enabled[a]
  {
    UndoSizes(c, u);
    UndoSizes(d, u);
    if u.UndoAdapterState? {
      UndoStateSame(c, d, u);
    } else if u.UndoMac? {
      UndoMacSame(c, d, u);
    } else if u.UndoProfile? || u.UndoConnection? {
      UndoWifiSame(c, d, u);
    } else if u.UndoService? || u.UndoAccount? || u.UndoShare? || u.UndoMapping? {
      UndoSmbSame(c, d, u);
    } else {
      UndoOtherSame(c, d, u);
    }
  }

  /** A log decides the switches it speaks of and leaves the others alone. */
  lemma {:induction false} ReplaySwitches(c: Core, d: Core, log: seq<Undo>)
    requires SameButSwitches(c, d) && |c.enabled| == |c.macs|
    ensures SameButSwitches(Replay(c, log), Replay(d, log))
    ensures |Replay(c, log).enabled| == |c.enabled|
    ensures forall a :: 0 <= a < |c.enabled| ==>
      if Switched(log, a) then Replay(c, log).enabled[a] == Replay(d, log).enabled[a]
      else Replay(c, log).enabled[a] == c.enabled[a] && Replay(d, log).enabled[a] == d.enabled[a]
    decreases |log|
  {
    if log != [] {
      var last, rest := log[|log| - 1], log[..|log| - 1];
      assert forall u :: u in log <==> u in rest || u == last;
      UndoSwitch(c, d, last);
      ReplaySwitches(UndoCore(c, last), UndoCore(d, last), rest);
    }
  }

  lemma {:induction false} ReplaySizes(core: Core, log: seq<Undo>)
    ensures |Replay(core, log).enabled| == |core.enabled| && |Replay(core, log).macs| == |core.macs|
    decreases |log|
  {
    if log != [] {
      UndoSizes(core, log[|log| - 1]);
      ReplaySizes(UndoCore(core, log[|log| - 1]), log[..|log| - 1]);
    }
  }

  /** A failed run and the point it reached before the driver operations, which only switch adapters. */
  ghost predicate StoppedFrom(config: NetplanConfig, origin: Core, nets0: seq<Net>, v: World, failed: World) {
    Halted(config, origin, nets0, v) && OnlySwitched(v, failed)
  }

  /** Undoing a failed run's log is exact if and only if its records can be reproduced and no other switch moved. */
  lemma ReplayedExactIff(config: NetplanConfig, origin: Core, nets0: seq<Net>, v: World, failed: World)
    requires StoppedFrom(config, origin, nets0, v, failed) && |origin.enabled| == |origin.macs|
    ensures Replay(failed.core, failed.rollback) == origin <==> Reproducible(origin, failed) && SwitchesKept(origin, failed)
  {
    var log := v.rollback;
    var there, here := Replay(v.core, log), Replay(failed.core, log);
    ReplaySizes(v.core, log);
    ReplaySwitches(v.core, failed.core, log);
    ReplayExactIff(config, origin, v);
    assert there.enabled == origin.enabled;
    assert Reproducible(origin, v) <==> Reproducible(origin, failed);
    assert here == origin <==> there == origin && here.enabled == origin.enabled;
    if SwitchesKept(origin, failed) {
      assert here.enabled == origin.enabled;
    } else {
      var a :| 0 <= a < |origin.enabled| && !Switched(log, a) && failed.core.enabled[a] != origin.enabled[a];
      assert here.enabled[a] != origin.enabled[a];
    }
  }

  /** Until driver operations are reached, every switch no record speaks of is as it was. */
  lemma SwitchesKeptWithoutDrivers(config: NetplanConfig, origin: Core, nets0: seq<Net>, v: World)
    requires Halted(config, origin, nets0, v) && |origin.enabled| == |origin.macs|
    ensures SwitchesKept(origin, v) && |v.core.enabled| == |origin.enabled|
  {
    ReplaySizes(v.core, v.rollback);
    ReplaySwitches(v.core, v.core, v.rollback);
  }
}
