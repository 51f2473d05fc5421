/** Adapter entries: enable, address override, IPv4 and disable undo correctly in reverse order. */
module AdapterUndo {
  import opened Std
  import opened Text
  import opened Config
  import opened Model
  import opened Selectors
  import opened Ipv4Recovery
  import opened Ipv4Interruption
  import opened Machine
  import opened Transaction
  import opened Restoration
  import Plan

  /** The record is the one entry `i` makes of an adapter in state `net`. */
  ghost predicate CapturedBy(config: NetplanConfig, inventory: seq<AdapterInfo>, i: nat, r: NetRestore, net: Net) {
    && i < |config.adapters| && config.adapters[i].ipv4.Some?
    && ResolveAdapter(inventory, config.adapters[i].selector) == Success(r.adapter)
    && r == Capture(r.adapter, net, net, config.adapters[i].ipv4.value)
  }

  /** The record was made by an entry for its adapter, which was in state `net`. */
  ghost predicate Captured(config: NetplanConfig, inventory: seq<AdapterInfo>, r: NetRestore, net: Net) {
    exists i: nat :: CapturedBy(config, inventory, i, r, net)
  }

  /**
   IPv4 state changes only on adapters that were switched or have a record of the original state,
   and one adapter has one record.
   */
  ghost predicate NetsTracked(config: NetplanConfig, nets0: seq<Net>, w: World) {
    && |w.nets| == |nets0|
    && (forall a :: 0 <= a < |nets0| && a !in Restoration.Adapters(w.rollback) ==> SameUnlessSwitched(nets0[a], w, a))
    && (forall u :: u in w.rollback && u.UndoIpv4? ==>
          u.restore.adapter < |nets0| && Captured(config, w.hw.adapters, u.restore, nets0[u.restore.adapter]))
    && Ipv4Once(w.rollback)
  }

  predicate SameUnlessSwitched(net0: Net, w: World, a: nat)
    requires a < |w.nets|
  {
    (w.nets[a] == net0 || Issued(w, a)) && w.nets[a].dnsStatic == net0.dnsStatic && w.nets[a].winsStatic == net0.winsStatic
  }

  ghost predicate Ipv4Once(log: seq<Undo>) {
    forall x, y :: 0 <= x < y < |log| && log[x].UndoIpv4? && log[y].UndoIpv4? ==> log[x].restore.adapter != log[y].restore.adapter
  }

  /** Only adapter `a` may have been touched. */
  ghost predicate OnlyAdapter(w: World, after: World, a: nat) {
    && after.hw == w.hw && after.inventory == w.inventory && (Sized(w) ==> Sized(after))
    && |after.core.enabled| == |w.core.enabled|
    && (forall b :: 0 <= b < |w.core.enabled| && b != a ==> after.core.enabled[b] == w.core.enabled[b])
    && |after.nets| == |w.nets| && (forall b :: 0 <= b < |w.nets| && b != a ==> after.nets[b] == w.nets[b])
    && Restoration.Adapters(after.rollback) <= Restoration.Adapters(w.rollback) + {a}
    && Shares(after.rollback) == Shares(w.rollback)
  }

  /** A record about the adapter's switch or address; its IPv4 state changes only by being switched. */
  ghost predicate SwitchShape(w: World, r: Run, a: nat) {
    && r.w.hw == w.hw && r.w.inventory == w.inventory && NetsShifted(w, r.w) && (Sized(w) ==> Sized(r.w))
    && (forall b :: 0 <= b < |w.nets| && b != a ==> r.w.nets[b] == w.nets[b])
    && |r.w.core.enabled| == |w.core.enabled|
    && (forall b :: 0 <= b < |w.core.enabled| && b != a ==> r.w.core.enabled[b] == w.core.enabled[b])
    && (Quiet(w, r.w) || (r.w.rollback != [] && (Last(r.w).UndoAdapterState? || Last(r.w).UndoMac?) && Logged(w, r.w, Last(r.w))))
  }

  lemma EnableShape(w: World, i: nat, entry: AdapterConfig, a: nat)
    requires Sized(w) && a < |w.hw.adapters| && w.core.enabled[a] == w.inventory.enabled[a]
    ensures var r := EnableStep(w, i, entry, a);
      SwitchShape(w, r, a) && (r.Ok? ==> r.w.core.enabled[a] == (entry.enabled == Some(true) || w.inventory.enabled[a]))
  {
    var r := EnableStep(w, i, entry, a);
    if r.w.rollback != w.rollback {
      assert Last(r.w) == UndoAdapterState(a, false);
      assert r.w.core.enabled[a := false] == w.core.enabled;
    }
  }

  lemma MacUndone(before: Core, after: Core, a: nat, previous: Option<string>)
    requires a < |before.enabled| == |before.macs| == |after.enabled| == |after.macs| && previous == before.macs[a]
    requires after == before.(macs := after.macs, enabled := after.enabled)
    requires forall b :: 0 <= b < |before.macs| && b != a ==> after.macs[b] == before.macs[b] && after.enabled[b] == before.enabled[b]
    requires !before.enabled[a] ==> !after.enabled[a]
    ensures UndoCore(after, UndoMac(a, previous, before.enabled[a])) == before
  {
    assert after.macs[a := previous] == before.macs;
    if before.enabled[a] {
      assert after.enabled[a := true] == before.enabled;
    } else {
      assert after.enabled == before.enabled;
    }
  }

  lemma MacFacts(w: World, i: nat, entry: AdapterConfig, a: nat)
    requires Sized(w) && a < |w.hw.adapters|
    ensures var r, restart := MacStep(w, i, entry, a), entry.enabled == Some(true) || w.inventory.enabled[a];
      && r.w.hw == w.hw && r.w.inventory == w.inventory && r.w.unrepaired == w.unrepaired && NetsShifted(w, r.w)
      && (forall b :: 0 <= b < |w.nets| && b != a ==> r.w.nets[b] == w.nets[b])
      && ((r.w.rollback == w.rollback && r.w.core == w.core)
          || (&& r.w.rollback == w.rollback + [UndoMac(a, w.core.macs[a], restart)]
              && r.w.core == w.core.(macs := r.w.core.macs, enabled := r.w.core.enabled)
              && |r.w.core.macs| == |w.core.macs| && |r.w.core.enabled| == |w.core.enabled|
              && (forall b :: 0 <= b < |w.core.macs| && b != a ==> r.w.core.macs[b] == w.core.macs[b] && r.w.core.enabled[b] == w.core.enabled[b])
              && (!restart ==> r.w.core.enabled == w.core.enabled)
              && (r.Ok? && restart ==> r.w.core.enabled[a])))
  {
    var w1 := Attempt(w, Plan.AdapterMac(i));
    if entry.mac.Some? && w.hw.adapters[a].guid.Some? && Healthy(w1) && Healthy(Tick(w1)) && Healthy(Tick(Tick(w1))) {
      var restart := entry.enabled == Some(true) || w.inventory.enabled[a];
      var changed := w.core.(macs := w.core.macs[a := Some(CanonicalMac(entry.mac.value))]);
      var w5 := Push(Tick(Tick(Tick(w1))).(core := changed), UndoMac(a, w.core.macs[a], restart));
      assert MacStep(w, i, entry, a) == if restart then Machine.RestartAdapter(w5, a) else Ok(w5);
    }
  }

  /** A restart on the way leaves the switch as it was, or on record to be turned on again. */
  lemma MacShape(w: World, i: nat, entry: AdapterConfig, a: nat)
    requires Sized(w) && a < |w.hw.adapters|
    requires w.core.enabled[a] == (entry.enabled == Some(true) || w.inventory.enabled[a])
    ensures var r := MacStep(w, i, entry, a);
      SwitchShape(w, r, a) && (r.Ok? ==> r.w.core.enabled[a] == w.core.enabled[a])
  {
    MacFacts(w, i, entry, a);
    var r := MacStep(w, i, entry, a);
    if r.w.rollback != w.rollback {
      MacUndone(w.core, r.w.core, a, w.core.macs[a]);
      assert Last(r.w) == UndoMac(a, w.core.macs[a], w.core.enabled[a]);
    }
  }

  lemma DisableShape(w: World, i: nat, entry: AdapterConfig, a: nat)
    requires Sized(w) && a < |w.hw.adapters|
    requires entry.enabled == Some(false) ==> w.core.enabled[a] == w.inventory.enabled[a]
    ensures SwitchShape(w, DisableStep(w, i, entry, a), a)
  {
    var r := DisableStep(w, i, entry, a);
    if r.w.rollback != w.rollback {
      assert Last(r.w) == UndoAdapterState(a, true);
      assert r.w.core.enabled[a := true] == w.core.enabled;
    }
  }

  lemma OnceMore(log: seq<Undo>, u: Undo)
    requires Ipv4Once(log) && (u.UndoIpv4? ==> u.restore.adapter !in Restoration.Adapters(log))
    ensures Ipv4Once(log + [u])
  {
    forall x, y | 0 <= x < y < |log| + 1 && (log + [u])[x].UndoIpv4? && (log + [u])[y].UndoIpv4?
      ensures (log + [u])[x].restore.adapter != (log + [u])[y].restore.adapter
    {
      if y == |log| {
        assert log[x] in log && log[x].restore.adapter in Restoration.Adapters(log);
      }
    }
  }

  lemma TrackOther(config: NetplanConfig, nets0: seq<Net>, w: World, after: World, u: Undo)
    requires NetsTracked(config, nets0, w) && !u.UndoIpv4? && after.rollback == w.rollback + [u]
    requires NetsShifted(w, after) && after.hw == w.hw
    ensures NetsTracked(config, nets0, after)
  {
    RecordedAfter(w.rollback, u);
    OnceMore(w.rollback, u);
    assert forall x :: x in after.rollback <==> x in w.rollback || x == u;
  }

  lemma TrackQuiet(config: NetplanConfig, nets0: seq<Net>, w: World, after: World)
    requires NetsTracked(config, nets0, w) && after.rollback == w.rollback && NetsShifted(w, after) && after.hw == w.hw
    ensures NetsTracked(config, nets0, after)
  {
  }

  lemma SwitchKeeps(config: NetplanConfig, origin: Core, nets0: seq<Net>, w: World, r: Run, a: nat)
    requires Steady(config, origin, w) && NetsTracked(config, nets0, w) && SwitchShape(w, r, a)
    ensures Keeps(config, origin, r) && NetsTracked(config, nets0, r.w) && OnlyAdapter(w, r.w, a)
    ensures Restoration.Adapters(r.w.rollback) == Restoration.Adapters(w.rollback)
  {
    if Quiet(w, r.w) {
      QuietKeeps(config, origin, w, r);
      TrackQuiet(config, nets0, w, r.w);
    } else {
      var u := Last(r.w);
      LoggedKeeps(config, origin, w, r, u);
      RecordedAfter(w.rollback, u);
      TrackOther(config, nets0, w, r.w, u);
    }
  }

  /** IPv4 work appends one record of what the inventory says the adapter had, or it changes nothing. */
  lemma Ipv4Shape(w: World, i: nat, entry: AdapterConfig, a: nat)
    requires Sized(w) && a < |w.hw.adapters|
    ensures var r := Ipv4Step(w, i, entry, a).w;
      && r.core == w.core && r.unrepaired == w.unrepaired
      && ((r.rollback == w.rollback && r.nets == w.nets)
          || (entry.ipv4.Some? && r.rollback == w.rollback + [UndoIpv4(Capture(a, w.inventory.nets[a], w.nets[a], entry.ipv4.value))]))
  {
    if entry.ipv4.Some? && w.hw.adapters[a].guid.Some? && Healthy(w) && Healthy(Tick(w)) {
      var w3 := Tick(Tick(Attempt(w, Plan.AdapterIpv4(i))));
      ReconfigureFrame(w3, Capture(a, w3.inventory.nets[a], w3.nets[a], entry.ipv4.value), entry.ipv4.value);
    }
  }

  lemma RecordUndoable(config: NetplanConfig, origin: Core, w: World, run: Run, r: NetRestore)
    requires Steady(config, origin, w)
    requires run.w.core == w.core && run.w.unrepaired == w.unrepaired && run.w.rollback == w.rollback + [UndoIpv4(r)]
    ensures Keeps(config, origin, run)
  {
    LoggedKeeps(config, origin, w, run, UndoIpv4(r));
  }

  lemma RecordKeeps(config: NetplanConfig, origin: Core, nets0: seq<Net>, w: World, run: Run, r: NetRestore)
    requires Steady(config, origin, w) && NetsTracked(config, nets0, w) && r.adapter < |nets0| && run.w.hw == w.hw
    requires r.adapter !in Restoration.Adapters(w.rollback) && Captured(config, w.hw.adapters, r, nets0[r.adapter])
    requires run.w.core == w.core && run.w.unrepaired == w.unrepaired && run.w.rollback == w.rollback + [UndoIpv4(r)]
    requires run.w.switches == w.switches
    requires |run.w.nets| == |w.nets| && forall b :: 0 <= b < |w.nets| && b != r.adapter ==> run.w.nets[b] == w.nets[b]
    ensures Keeps(config, origin, run) && NetsTracked(config, nets0, run.w)
    ensures Restoration.Adapters(run.w.rollback) == Restoration.Adapters(w.rollback) + {r.adapter} && Shares(run.w.rollback) == Shares(w.rollback)
  {
    RecordUndoable(config, origin, w, run, r);
    RecordedAfter(w.rollback, UndoIpv4(r));
    TrackRecord(config, nets0, w, run.w, r);
  }

  /** IPv4 work changes one adapter's addresses under one record of what the adapter had. */
  lemma Ipv4Keeps(config: NetplanConfig, origin: Core, nets0: seq<Net>, w: World, i: nat, a: nat)
    requires Steady(config, origin, w) && NetsTracked(config, nets0, w) && Sized(w) && a < |w.hw.adapters|
    requires i < |config.adapters| && ResolveAdapter(w.hw.adapters, config.adapters[i].selector) == Success(a)
    requires a !in Restoration.Adapters(w.rollback) && w.inventory.nets == nets0
    ensures var r := Ipv4Step(w, i, config.adapters[i], a);
      Keeps(config, origin, r) && NetsTracked(config, nets0, r.w) && OnlyAdapter(w, r.w, a) && r.w.core == w.core
  {
    var entry := config.adapters[i];
    var r := Ipv4Step(w, i, entry, a);
    Ipv4StepFrame(w, i, entry, a);
    Ipv4Shape(w, i, entry, a);
    if r.w.rollback == w.rollback {
      QuietKeeps(config, origin, w, r);
      TrackQuiet(config, nets0, w, r.w);
    } else {
      var record := Capture(a, nets0[a], w.nets[a], entry.ipv4.value);
      assert CapturedBy(config, w.hw.adapters, i, record, nets0[a]);
      RecordKeeps(config, origin, nets0, w, r, record);
    }
  }

  lemma TrackRecord(config: NetplanConfig, nets0: seq<Net>, w: World, after: World, r: NetRestore)
    requires NetsTracked(config, nets0, w) && r.adapter < |nets0| && Captured(config, w.hw.adapters, r, nets0[r.adapter])
    requires r.adapter !in Restoration.Adapters(w.rollback) && after.hw == w.hw && after.switches == w.switches
    requires after.rollback == w.rollback + [UndoIpv4(r)] && |after.nets| == |w.nets|
    requires forall b :: 0 <= b < |w.nets| && b != r.adapter ==> after.nets[b] == w.nets[b]
    ensures NetsTracked(config, nets0, after)
  {
    var u := UndoIpv4(r);
    RecordedAfter(w.rollback, u);
    OnceMore(w.rollback, u);
    assert forall x :: x in after.rollback <==> x in w.rollback || x == u;
  }

  /** Before an entry, its adapter is as the inventory says and as it was at the start. */
  ghost predicate Fresh(origin: Core, nets0: seq<Net>, w: World, a: nat) {
    && Sized(w) && a < |w.hw.adapters|
    && w.inventory == Inventory(origin.enabled, nets0)
    && |origin.enabled| == |w.core.enabled| && w.core.enabled[a] == origin.enabled[a]
    && |nets0| == |w.nets| && w.nets[a] == nets0[a]
    && a !in Restoration.Adapters(w.rollback)
  }

  lemma OnlyAdapterThen(w: World, mid: World, after: World, a: nat)
    requires OnlyAdapter(w, mid, a) && OnlyAdapter(mid, after, a)
    ensures OnlyAdapter(w, after, a)
  {
  }

  lemma EntryKeeps(config: NetplanConfig, origin: Core, nets0: seq<Net>, w: World, i: nat, a: nat)
    requires Steady(config, origin, w) && NetsTracked(config, nets0, w) && Fresh(origin, nets0, w, a)
    requires i < |config.adapters| && ResolveAdapter(w.hw.adapters, config.adapters[i].selector) == Success(a)
    ensures var r := ApplyAdapterAt(w, i, config.adapters[i], a);
      Keeps(config, origin, r) && NetsTracked(config, nets0, r.w) && OnlyAdapter(w, r.w, a)
  {
    var entry := config.adapters[i];
    EnableShape(w, i, entry, a);
    var r1 := EnableStep(w, i, entry, a);
    SwitchKeeps(config, origin, nets0, w, r1, a);
    if r1.Ok? {
      MacShape(r1.w, i, entry, a);
      var r2 := MacStep(r1.w, i, entry, a);
      SwitchKeeps(config, origin, nets0, r1.w, r2, a);
      OnlyAdapterThen(w, r1.w, r2.w, a);
      if r2.Ok? {
        Ipv4Keeps(config, origin, nets0, r2.w, i, a);
        var r3 := Ipv4Step(r2.w, i, entry, a);
        OnlyAdapterThen(w, r2.w, r3.w, a);
        if r3.Ok? {
          var r4 := DisableStep(r3.w, i, entry, a);
          DisableShape(r3.w, i, entry, a);
          SwitchKeeps(config, origin, nets0, r3.w, r4, a);
          OnlyAdapterThen(w, r3.w, r4.w, a);
        }
      }
    }
  }

  /** The positions the entries before `i` resolve to. */
  ghost function Used(config: NetplanConfig, inventory: seq<AdapterInfo>, i: nat): set<nat>
    requires i <= |config.adapters|
  {
    set j | 0 <= j < i && ResolveAdapter(inventory, config.adapters[j].selector).Success? :: ResolveAdapter(inventory, config.adapters[j].selector).value
  }

  /** The adapters no entry before `i` names are untouched, their switch and their IPv4 state both. */
  ghost predicate Untouched(config: NetplanConfig, origin: Core, nets0: seq<Net>, w: World, i: nat) {
    && i <= |config.adapters| && Sized(w) && |origin.enabled| == |w.core.enabled| && |nets0| == |w.nets|
    && (config.adapters != [] ==> w.inventory == Inventory(origin.enabled, nets0))
    && (forall a :: 0 <= a < |origin.enabled| && a !in Used(config, w.hw.adapters, i) ==>
          w.core.enabled[a] == origin.enabled[a] && w.nets[a] == nets0[a] && a !in Restoration.Adapters(w.rollback))
  }

  /** Runtime protection makes the one inventory accurate for every entry's turn. */
  lemma EntryIsFresh(config: NetplanConfig, origin: Core, nets0: seq<Net>, w: World, i: nat)
    requires Protected(config, w.hw.adapters, w.hw.wifi)
    requires Untouched(config, origin, nets0, w, i) && i < |config.adapters|
    ensures var resolved := ResolveAdapter(w.hw.adapters, config.adapters[i].selector);
      resolved.Success? && resolved.value !in Used(config, w.hw.adapters, i) && Fresh(origin, nets0, w, resolved.value)
  {
    assert Declares(config, AdapterTarget(i));
    var resolved := ResolveAdapter(w.hw.adapters, config.adapters[i].selector);
    forall j | 0 <= j < i
      ensures ResolveAdapter(w.hw.adapters, config.adapters[j].selector) != Success(resolved.value)
    {
      EntriesOnDistinctAdapters(config, w.hw.adapters, w.hw.wifi, j, i);
    }
  }

  lemma AdapterKeeps(config: NetplanConfig, origin: Core, nets0: seq<Net>, w: World, i: nat)
    requires Steady(config, origin, w) && NetsTracked(config, nets0, w)
    requires Protected(config, w.hw.adapters, w.hw.wifi)
    requires Untouched(config, origin, nets0, w, i) && i < |config.adapters|
    ensures var r := ApplyAdapter(w, i, config.adapters[i]);
      && Keeps(config, origin, r) && NetsTracked(config, nets0, r.w) && r.w.hw == w.hw
      && Shares(r.w.rollback) == Shares(w.rollback)
      && Untouched(config, origin, nets0, r.w, i + 1)
  {
    EntryIsFresh(config, origin, nets0, w, i);
    var a := ResolveAdapter(w.hw.adapters, config.adapters[i].selector).value;
    EntryKeeps(config, origin, nets0, w, i, a);
    UntouchedNext(config, origin, nets0, w, ApplyAdapter(w, i, config.adapters[i]).w, i, a);
  }

  lemma UntouchedNext(config: NetplanConfig, origin: Core, nets0: seq<Net>, w: World, after: World, i: nat, a: nat)
    requires Untouched(config, origin, nets0, w, i) && i < |config.adapters| && OnlyAdapter(w, after, a)
    requires ResolveAdapter(w.hw.adapters, config.adapters[i].selector) == Success(a)
    ensures Untouched(config, origin, nets0, after, i + 1)
  {
    var used, next := Used(config, w.hw.adapters, i), Used(config, w.hw.adapters, i + 1);
    assert a in next;
    assert used <= next;
  }

  /** Executing an IPv4 record with no faults ahead. */
  lemma ExecuteIpv4WithoutFaults(w: World, r: NetRestore)
    requires r.adapter < |w.nets| && w.faults == []
    ensures var net := Restored(w.hw.network, r, w.nets[r.adapter]);
      var after := w.(nets := w.nets[r.adapter := net]);
      Execute(w, UndoIpv4(r)) == if VerifyRestored(r, net) then Ok(after) else Err(after)
  {
    RestoreNetWithoutFaults(w, r);
    assert Execute(w, UndoIpv4(r)) == RestoreNet(w, r);
  }

  /**
   An IPv4 step cut off after any number of its commands, then undone without further faults: the
   undo ends where the recovery model says, succeeds exactly when the comparison can hold, and has
   the adapter back exactly when its addresses, DNS and WINS servers come back.
   */
  lemma UndoAfterInterruption(w: World, before: Net, target: Ipv4Config, adapter: nat, k: nat)
    requires w.faults == [] && adapter < |w.nets|
    requires ToStatic(target) && k <= |StaticCommands(target)|
    requires w.nets[adapter] == CutOff(w.hw.network, target, before, k)
    ensures var r, env := Capture(adapter, before, before, target), w.hw.network;
      var run := Execute(w, UndoIpv4(r));
      && run.w == w.(nets := w.nets[adapter := Restored(env, r, w.nets[adapter])])
      && (run.Ok? <==> && (before.dhcp && before.manual != [] ==> k == 0)
                       && (before.dnsStatic && k > AddressSteps(target) ==> V4s(before.dns) != [] && V4First(before.dns))
                       && (before.winsStatic && k > ServerSteps(target) ==> before.wins != []))
      && (run.w.nets[adapter] == before <==>
            AddressBack(env, before, target, k) && DnsBack(env, before, target, k) && WinsBack(env, before, target, k))
  {
    ExecuteIpv4WithoutFaults(w, Capture(adapter, before, before, target));
    RecoveryFromEveryInterruption(w.hw.network, before, target, adapter, k);
    RestoredExactlyIff(w.hw.network, before, target, adapter, k);
  }
}
