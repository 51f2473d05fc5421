/**
 An override restarts its adapter, and a restart may change what the code looked at before: a run that
 reports a rollback although the adapter is no longer as it was compared, and one that reports success
 although the target is not there.
 */
module OverrideGaps {
  import opened Std
  import opened Text
  import opened Config
  import opened Model
  import opened Selectors
  import opened Ipv4Recovery
  import opened Ipv4Interruption
  import opened Machine
  import opened Transaction
  import opened Restoration
  import opened AdapterUndo
  import opened RunInvariant
  import opened RollbackTheorem
  import opened Settlement
  import opened RollbackGaps
  import Plan

  // Undoing the records.

  lemma ThreeReads(w: World)
    requires |w.faults| >= 3 && w.faults[0] == w.faults[1] == w.faults[2] == Good
    ensures ReadNet(w) == Ok(w.(faults := w.faults[3..]))
  {
    assert w.faults[1..][1..] == w.faults[2..] && w.faults[2..][1..] == w.faults[3..];
  }

  /** Undoing an IPv4 record when nothing has to be done: the adapter is read and compared. */
  lemma RestoreNothing(w: World, r: NetRestore)
    requires r.adapter < |w.nets| && |w.faults| >= 7 && forall i :: 0 <= i < 7 ==> w.faults[i] == Good
    requires Repair(r, w.nets[r.adapter]) == [] && Cleanup(r, w.nets[r.adapter]) == [] && VerifyRestored(r, w.nets[r.adapter])
    ensures Execute(w, UndoIpv4(r)) == Ok(w.(faults := w.faults[7..]))
  {
    var w3, w4 := w.(faults := w.faults[3..]), w.(faults := w.faults[4..]);
    ThreeReads(w);
    assert RepairNet(w, r) == Ok(w3);
    assert w.faults[3..][1..] == w.faults[4..] && w3.faults[0] == w.faults[3];
    assert CleanNet(w3, r) == Ok(w4);
    assert w4.faults[0] == w.faults[4] && w4.faults[1] == w.faults[5] && w4.faults[2] == w.faults[6];
    ThreeReads(w4);
    assert w.faults[4..][3..] == w.faults[7..];
    assert Execute(w, UndoIpv4(r)) == RestoreNet(w, r);
  }

  lemma {:induction false} NothingToDelete(addresses: seq<Ipv4>, gateways: seq<Ipv4>, net: Net)
    requires (forall a :: a in addresses ==> !net.HasAddress(a)) && forall g :: g in gateways ==> g !in net.gateways
    ensures DeleteAddresses(addresses, net) == [] && DeleteGateways(gateways, net) == []
    decreases |addresses| + |gateways|
  {
    if addresses != [] {
      NothingToDelete(addresses[1..], gateways, net);
    } else if gateways != [] {
      NothingToDelete(addresses, gateways[1..], net);
    }
  }

  /** The record of an adapter that is as it was. */
  predicate NothingToDo(r: NetRestore) {
    r.adapter == 0 && Repair(r, r.snapshot) == [] && Cleanup(r, r.snapshot) == [] && VerifyRestored(r, r.snapshot)
  }

  lemma UntouchedNothingToDo(net: Net, target: Ipv4Config)
    requires net.manual != [] && net.leased == []
    ensures NothingToDo(Capture(0, net, net, target))
  {
    var r := Capture(0, net, net, target);
    assert net.manual + net.leased == net.manual;
    NothingToDelete(r.appliedAddresses, r.appliedGateways, net);
  }

  lemma RestartShifts(w: World, previous: Option<string>, other: Net)
    requires |w.nets| == |w.core.enabled| == |w.core.macs| == 1 && w.faults == [Good, Good, Shifted(other)]
    ensures var run := Execute(w, UndoMac(0, previous, true));
      run.Ok? && run.w.nets == [other.(dnsStatic := w.nets[0].dnsStatic, winsStatic := w.nets[0].winsStatic)]
  {
    var w1 := Tick(w).(core := w.core.(macs := w.core.macs[0 := previous]));
    assert w1.faults == [Good, Shifted(other)];
    var w2 := SetEnabled(w1, 0, false);
    assert w2.Ok? && w2.w.faults == [Shifted(other)] && w2.w.nets == w.nets;
    assert Execute(w, UndoMac(0, previous, true)) == Machine.RestartAdapter(w1, 0);
  }

  /**
   An adapter that is as it was when its records are undone: the comparison passes, the restart that
   follows it changes the adapter, and no error is counted.
   */
  lemma RestartAfterComparison(w: World, target: Ipv4Config, previous: Option<string>, other: Net)
    requires |w.nets| == |w.core.enabled| == |w.core.macs| == 1 && w.nets[0].manual != [] && w.nets[0].leased == []
    requires w.rollback == [UndoMac(0, previous, true), UndoIpv4(Capture(0, w.nets[0], w.nets[0], target))]
    requires w.faults == [Good, Good, Good, Good, Good, Good, Good, Good, Good, Shifted(other)]
    ensures RollbackAll(w, w.rollback).1 == 0
    ensures RollbackAll(w, w.rollback).0.nets == [other.(dnsStatic := w.nets[0].dnsStatic, winsStatic := w.nets[0].winsStatic)]
  {
    var r := Capture(0, w.nets[0], w.nets[0], target);
    UntouchedNothingToDo(w.nets[0], target);
    RestoreNothing(w, r);
    assert w.faults[7..] == [Good, Good, Shifted(other)];
    RestartShifts(w.(faults := w.faults[7..]), previous, other);
    TwoRecords(w, w.rollback[0], w.rollback[1]);
  }

  lemma TwoRecords(w: World, first: Undo, last: Undo)
    ensures var run := Execute(w, last);
      var next := Execute(run.w, first);
      RollbackAll(w, [first, last]) == (next.w, (if next.Err? then 1 else 0) + if run.Err? then 1 else 0)
  {
    var log := [first, last];
    assert log[..|log| - 1] == [first] && log[|log| - 1] == last;
    var run := Execute(w, last);
    OneRecord(run.w, first, Execute(run.w, first));
  }

  // Entries that override the address of the one adapter of a machine, which is on.

  /** An entry for the one adapter that overrides its address and declares a static target. */
  predicate Overrides(hw: Hardware, entry: AdapterConfig) {
    && |hw.adapters| == 1 && hw.adapters[0].guid.Some? && ResolveAdapter(hw.adapters, entry.selector) == Success(0)
    && entry.enabled.None? && entry.mac.Some? && entry.ipv4.Some? && ToStatic(entry.ipv4.value)
  }

  /** The adapter is on, not yet overridden, and as the inventory says. */
  predicate Listed(w: World) {
    Sized(w) && w.inventory == Inventory([true], w.nets) && w.core.enabled == [true] && w.core.macs == [None]
  }

  /** The world in which the restart of an override begins. */
  function Override(w: World, entry: AdapterConfig): World
    requires entry.mac.Some? && |w.faults| >= 3
  {
    w.(attempted := w.attempted + [Plan.AdapterMac(0)], core := w.core.(macs := [Some(CanonicalMac(entry.mac.value))]),
       rollback := w.rollback + [UndoMac(0, None, true)], faults := w.faults[3..])
  }

  lemma OverrideRestarts(w: World, entry: AdapterConfig)
    requires Overrides(w.hw, entry) && Listed(w)
    requires |w.faults| >= 3 && w.faults[0] == w.faults[1] == w.faults[2] == Good
    ensures EnableStep(w, 0, entry, 0) == Ok(w) && MacStep(w, 0, entry, 0) == Machine.RestartAdapter(Override(w, entry), 0)
  {
    assert w.faults[1..][1..][1..] == w.faults[3..];
    assert [None][0 := Some(CanonicalMac(entry.mac.value))] == [Some(CanonicalMac(entry.mac.value))];
  }

  /** What a restart leaves that succeeds: the adapter on, and possibly in another IPv4 state. */
  function Restarted(w: World, nets: seq<Net>): World
    requires |w.faults| >= 2
  {
    w.(faults := w.faults[2..], switches := w.switches + [(0, false)] + [(0, true)], nets := nets)
  }

  lemma RestartedSame(w: World)
    requires w.core.enabled == [true] && |w.faults| >= 2 && w.faults[0] == w.faults[1] == Good
    ensures Machine.RestartAdapter(w, 0) == Ok(Restarted(w, w.nets))
  {
    assert [true][0 := true] == [true];
    RestartedWell(w, 0);
  }

  lemma RestartedInto(w: World, net: Net)
    requires w.core.enabled == [true] && |w.nets| == 1 && |w.faults| >= 2 && w.faults[0] == Good && w.faults[1] == Shifted(net)
    ensures Machine.RestartAdapter(w, 0)
         == Ok(Restarted(w, [net.(dnsStatic := w.nets[0].dnsStatic, winsStatic := w.nets[0].winsStatic)]))
  {
    assert [true][0 := false][0 := true] == [true];
    assert w.faults[1..][1..] == w.faults[2..];
  }

  // A rollback that was compared too early.

  /** The world in which the first command of a static target has failed and changed nothing. */
  function Refused(w: World, target: Ipv4Config): World
    requires |w.nets| == 1 && |w.faults| >= 3
  {
    w.(attempted := w.attempted + [Plan.AdapterIpv4(0)], faults := w.faults[3..],
       rollback := w.rollback + [UndoIpv4(Capture(0, w.nets[0], w.nets[0], target))])
  }

  lemma FirstCommandFails(w: World, entry: AdapterConfig)
    requires Overrides(w.hw, entry) && w.hw.network.failsClean && Sized(w) && w.inventory.nets == w.nets
    requires !Unchanged(w.nets[0], entry.ipv4.value)
    requires |w.faults| >= 3 && w.faults[0] == w.faults[1] == Good && w.faults[2].Bad?
    ensures Ipv4Step(w, 0, entry, 0) == Err(Refused(w, entry.ipv4.value))
  {
    var target := entry.ipv4.value;
    var w3 := Tick(Tick(Attempt(w, Plan.AdapterIpv4(0))));
    assert w3.faults == w.faults[2..] && w3.faults[0] == w.faults[2] && w3.faults[1..] == w.faults[3..];
    assert StaticCommands(target) != [];
  }

  /** Where the entry stops whose override succeeds and whose first IPv4 command fails. */
  function Stopped(w: World, entry: AdapterConfig): World
    requires entry.mac.Some? && entry.ipv4.Some? && |w.faults| >= 8 && |w.nets| == 1
  {
    Refused(Restarted(Override(w, entry), w.nets), entry.ipv4.value)
  }

  lemma EntryStops(w: World, entry: AdapterConfig)
    requires Overrides(w.hw, entry) && w.hw.network.failsClean && Listed(w) && !Unchanged(w.nets[0], entry.ipv4.value)
    requires |w.faults| >= 8 && (forall i :: 0 <= i < 7 ==> w.faults[i] == Good) && w.faults[7].Bad?
    ensures ApplyAdapter(w, 0, entry) == Err(Stopped(w, entry))
  {
    OverrideRestarts(w, entry);
    var w5 := Override(w, entry);
    assert w5.faults[0] == w.faults[3] && w5.faults[1] == w.faults[4];
    RestartedSame(w5);
    var w6 := Restarted(w5, w.nets);
    assert w6.faults[0] == w.faults[5] && w6.faults[1] == w.faults[6] && w6.faults[2] == w.faults[7];
    FirstCommandFails(w6, entry);
    assert ApplyAdapterAt(w, 0, entry, 0) == Err(Stopped(w, entry));
  }

  /** A document with one adapter entry and nothing else. */
  predicate OnlyEntry(config: NetplanConfig, entry: AdapterConfig) {
    config == EMPTY_CONFIG.(adapters := [entry])
  }

  lemma OnlyEntryIdle(config: NetplanConfig, entry: AdapterConfig)
    requires OnlyEntry(config, entry)
    ensures forall p :: 0 <= p < Plan.PHASES && p != Plan.ADAPTERS ==> Idle(config, p)
    ensures Plan.Count(config, Plan.ADAPTERS) == 1 && config.adapters[0] == entry && SharesDistinct(config)
  {
  }

  /** The world after the inventory of the adapter phase is taken. */
  function Entered(w: World): World
    requires |w.faults| >= 1
  {
    w.(faults := w.faults[1..], inventory := Inventory(w.core.enabled, w.nets))
  }

  /** A run of such a document is its entry, on the machine as listed. */
  lemma EntryRun(w: World, config: NetplanConfig, entry: AdapterConfig, r: Run)
    requires OnlyEntry(config, entry) && |w.faults| >= 1 && w.faults[0] == Good && ApplyAdapter(Entered(w), 0, entry) == r
    ensures RunPhases(w, config, Plan.IDENTITY, Plan.DRIVERS) == r
  {
    var entered := Entered(w);
    OnlyEntryIdle(config, entry);
    AdapterItem(entered, config, 0);
    OnlyItem(entered, config, Plan.ADAPTERS, r);
    OnlyPhase(w, config, Plan.IDENTITY, Plan.ADAPTERS, Plan.DRIVERS, entered, r);
    if r.Ok? {
      IdlePhases(r.w, config, Plan.PROFILES, Plan.DRIVERS);
    }
  }

  lemma EntryProtected(w: World, config: NetplanConfig, entry: AdapterConfig)
    requires OnlyEntry(config, entry) && Overrides(w.hw, entry)
    ensures Protected(config, w.hw.adapters, w.hw.wifi)
  {
    forall t: Target | Declares(config, t)
      ensures TargetOf(config, w.hw.adapters, w.hw.wifi, t).Success?
    {
      assert t == AdapterTarget(0);
    }
  }

  /** The adapter is on and not overridden, and no call has been made. */
  ghost predicate Begins(w: World) {
    && Ready(w) && w.core.enabled == [true] && w.core.macs == [None] && |w.nets| == |w.hw.adapters| == 1
  }

  /** The inventory, the override and the captured state are fine; the first command fails; the last restart shifts. */
  predicate LateShift(faults: seq<Fault>, other: Net) {
    && |faults| == 19 && (forall i :: 0 <= i < 18 && i != 8 ==> faults[i] == Good)
    && faults[8].Bad? && faults[18] == Shifted(other)
  }

  /** Both records are written, the adapter is as it was, and the calls of the rollback are ahead. */
  predicate StoppedAt(w: World, entry: AdapterConfig, other: Net, stopped: World)
    requires |w.nets| == 1 && entry.ipv4.Some?
  {
    && |stopped.nets| == |stopped.core.enabled| == |stopped.core.macs| == 1 && stopped.nets == w.nets
    && stopped.rollback == [UndoMac(0, None, true), UndoIpv4(Capture(0, w.nets[0], w.nets[0], entry.ipv4.value))]
    && stopped.faults == [Good, Good, Good, Good, Good, Good, Good, Good, Good, Shifted(other)]
  }

  lemma StoppedFields(w: World, entry: AdapterConfig, other: Net)
    requires Overrides(w.hw, entry) && Listed(w) && |w.nets| == 1 && w.rollback == []
    requires |w.faults| == 18 && w.faults[8..] == [Good, Good, Good, Good, Good, Good, Good, Good, Good, Shifted(other)]
    ensures StoppedAt(w, entry, other, Stopped(w, entry))
  {
    assert w.faults[3..][2..][3..] == w.faults[8..];
  }

  lemma LateCalls(faults: seq<Fault>, other: Net)
    requires LateShift(faults, other)
    ensures faults[1..][8..] == [Good, Good, Good, Good, Good, Good, Good, Good, Good, Shifted(other)]
    ensures (forall i :: 0 <= i < 7 ==> faults[1..][i] == Good) && faults[1..][7].Bad?
  {
    assert faults[1..][8..] == faults[9..];
    assert forall i :: 0 <= i < 7 ==> faults[1..][i] == faults[i + 1];
  }

  lemma StoppedRun(w: World, config: NetplanConfig, entry: AdapterConfig, other: Net)
    requires Begins(w) && OnlyEntry(config, entry) && Overrides(w.hw, entry) && w.hw.network.failsClean
    requires !Unchanged(w.nets[0], entry.ipv4.value) && LateShift(w.faults, other)
    ensures var stopped := Stopped(Entered(w), entry);
      RunPhases(w, config, Plan.IDENTITY, Plan.DRIVERS) == Err(stopped) && StoppedAt(w, entry, other, stopped)
  {
    LateCalls(w.faults, other);
    EntryStops(Entered(w), entry);
    EntryRun(w, config, entry, Err(Stopped(Entered(w), entry)));
    StoppedFields(Entered(w), entry, other);
  }

  /**
   Whatever manual state the adapter was in and whatever the last restart leaves: the run reports a
   rollback, the comparison passed, and the adapter is where the restart left it.
   */
  lemma ComparisonOutlived(w: World, config: NetplanConfig, entry: AdapterConfig, other: Net)
    requires Begins(w) && OnlyEntry(config, entry) && Overrides(w.hw, entry) && w.hw.network.failsClean
    requires !Unchanged(w.nets[0], entry.ipv4.value) && LateShift(w.faults, other)
    requires w.nets[0].manual != [] && w.nets[0].leased == []
    ensures RolledBackRun(w, config)
    ensures Apply(w, config).0.nets == [other.(dnsStatic := w.nets[0].dnsStatic, winsStatic := w.nets[0].winsStatic)]
  {
    StoppedRun(w, config, entry, other);
    var stopped := Stopped(Entered(w), entry);
    EntryProtected(w, config, entry);
    OnlyEntryIdle(config, entry);
    RestartAfterComparison(stopped, entry.ipv4.value, None, other);
    ApplyFails(w, config, stopped, false);
  }

  // A target that is not there.

  /** The inventory, the override and the first half of its restart are fine; the second half shifts. */
  predicate EarlyShift(faults: seq<Fault>, other: Net) {
    |faults| == 6 && (forall i :: 0 <= i < 5 ==> faults[i] == Good) && faults[5] == Shifted(other)
  }

  /** An adapter said to be on its target by the inventory is left alone, wherever it is now. */
  lemma TakenAsPresent(w: World, entry: AdapterConfig, net: Net)
    requires Overrides(w.hw, entry) && Sized(w) && w.faults == [] && w.inventory.nets == [net] && Unchanged(net, entry.ipv4.value)
    requires w.nets[0].dnsStatic == net.dnsStatic && w.nets[0].winsStatic == net.winsStatic
    ensures Ipv4Step(w, 0, entry, 0) == Ok(Attempt(w, Plan.AdapterIpv4(0)))
  {
    var r := Capture(0, net, w.nets[0], entry.ipv4.value);
    assert StaticMatches(r, entry.ipv4.value);
    assert (w.rollback + [UndoIpv4(r)])[..|w.rollback|] == w.rollback;
  }

  /** The restart of the override shifts the adapter. */
  lemma OverrideShifts(w: World, entry: AdapterConfig, other: Net)
    requires Overrides(w.hw, entry) && Listed(w) && w.faults == [Good, Good, Good, Good, Shifted(other)]
    ensures EnableStep(w, 0, entry, 0) == Ok(w) && Override(w, entry).faults == [Good, Shifted(other)]
    ensures MacStep(w, 0, entry, 0)
         == Ok(Restarted(Override(w, entry), [other.(dnsStatic := w.nets[0].dnsStatic, winsStatic := w.nets[0].winsStatic)]))
  {
    OverrideRestarts(w, entry);
    assert w.faults[3..] == [Good, Shifted(other)];
    RestartedInto(Override(w, entry), other);
  }

  lemma EntryFinishes(w: World, entry: AdapterConfig, other: Net)
    requires Overrides(w.hw, entry) && Listed(w) && Unchanged(w.nets[0], entry.ipv4.value)
    requires w.faults == [Good, Good, Good, Good, Shifted(other)]
    ensures var r := ApplyAdapter(w, 0, entry);
      r.Ok? && r.w.nets == [other.(dnsStatic := w.nets[0].dnsStatic, winsStatic := w.nets[0].winsStatic)]
  {
    OverrideShifts(w, entry, other);
    var w6 := Restarted(Override(w, entry), [other.(dnsStatic := w.nets[0].dnsStatic, winsStatic := w.nets[0].winsStatic)]);
    TakenAsPresent(w6, entry, w.nets[0]);
    assert ApplyAdapterAt(w, 0, entry, 0) == Ok(Attempt(w6, Plan.AdapterIpv4(0)));
  }

  /**
   Whatever the restart of an override leaves of an adapter that was on its target: the run reports
   success, no IPv4 command was issued, and the adapter is where the restart left it.
   */
  lemma TargetLost(w: World, config: NetplanConfig, entry: AdapterConfig, other: Net)
    requires Begins(w) && OnlyEntry(config, entry) && Overrides(w.hw, entry)
    requires Unchanged(w.nets[0], entry.ipv4.value) && EarlyShift(w.faults, other)
    ensures SharesDistinct(config) && Protected(config, w.hw.adapters, w.hw.wifi) && Apply(w, config).1.ok
    ensures Apply(w, config).0.nets == [other.(dnsStatic := w.nets[0].dnsStatic, winsStatic := w.nets[0].winsStatic)]
  {
    var entered := Entered(w);
    assert entered.faults == [Good, Good, Good, Good, Shifted(other)];
    EntryProtected(w, config, entry);
    OnlyEntryIdle(config, entry);
    EntryFinishes(entered, entry, other);
    var r := ApplyAdapter(entered, 0, entry);
    EntryRun(w, config, entry, r);
    IdlePhases(w, config, Plan.BEFORE_HOOKS, Plan.IDENTITY);
    IdlePhases(r.w, config, Plan.DRIVERS, Plan.ROLLBACK_HOOKS);
  }

  // One machine for each.

  const OVERRIDE: AdapterConfig := AdapterConfig(FIRST_ADAPTER, None, Some("02:00:00:00:00:01"), Some(TARGET))
  const OVERRIDE_ONLY: NetplanConfig := EMPTY_CONFIG.(adapters := [OVERRIDE])
  const MANUAL: Net := Net(false, [OTHER_HOST], [], [1], [V4(3)], true, [4], true)
  const BLANK: Net := Net(false, [], [], [], [V4(3)], true, [4], true)
  const MANUALLY: World :=
    Start(ONE_ADAPTER, BARE.(enabled := [true], macs := [None]), [MANUAL],
          [Good, Good, Good, Good, Good, Good, Good, Good, Bad(JUNK), Good, Good, Good, Good, Good, Good, Good, Good, Good, Shifted(BLANK)])

  /** A reported rollback after which a manually configured adapter has no address. */
  lemma AddressGone()
    ensures RolledBackRun(MANUALLY, OVERRIDE_ONLY)
    ensures MANUALLY.nets == [MANUAL] && Apply(MANUALLY, OVERRIDE_ONLY).0.nets == [BLANK]
  {
    FirstAdapterResolves();
    assert MANUALLY.faults[8].Bad?;
    ComparisonOutlived(MANUALLY, OVERRIDE_ONLY, OVERRIDE, BLANK);
  }

  const ON_TARGET: Net := Net(false, [HOST], [], [1], [V4(2)], true, [4], true)
  const AGAIN: AdapterConfig := OVERRIDE.(ipv4 := Some(Static([HOST], [1], [V4(2)], [4])))
  const AGAIN_ONLY: NetplanConfig := EMPTY_CONFIG.(adapters := [AGAIN])
  const TARGETED: World :=
    Start(ONE_ADAPTER, BARE.(enabled := [true], macs := [None]), [ON_TARGET], [Good, Good, Good, Good, Good, Shifted(BLANK)])

  /** A reported success after which an adapter whose target was declared has no address. */
  lemma TargetGone()
    ensures Apply(TARGETED, AGAIN_ONLY).1.ok && TARGETED.nets[0].manual == AGAIN.ipv4.value.addresses
    ensures |Apply(TARGETED, AGAIN_ONLY).0.nets| == 1 && Apply(TARGETED, AGAIN_ONLY).0.nets[0].manual == []
  {
    FirstAdapterResolves();
    TargetLost(TARGETED, AGAIN_ONLY, AGAIN, BLANK);
  }
}
