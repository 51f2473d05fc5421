/**
 Where a run leaves the IPv4 state of the adapters its document names: the entries it has carried
 out, and, when a failed command changes nothing, the one it stopped in.
 */
module Settlement {
  import opened Std
  import opened Text
  import opened Config
  import opened Model
  import opened Selectors
  import opened Ipv4Recovery
  import opened Ipv4Restoration
  import opened Ipv4Interruption
  import opened Ipv4Dhcp
  import opened Machine
  import opened Transaction
  import opened Restoration
  import opened AdapterUndo
  import opened DriverPhase
  import opened RunInvariant
  import opened Replaying
  import opened Switches
  import opened UndoOrder
  import Plan

  // What an entry asks for, given whether its adapter is on.

  /** The entry switches its adapter before the IPv4 step: to enable it or to make an override effective. */
  predicate SwitchedFirst(entry: AdapterConfig, on: bool) {
    (entry.enabled == Some(true) && !on) || (entry.mac.Some? && (entry.enabled == Some(true) || on))
  }

  /** The entry switches its adapter off at the end. */
  predicate SwitchedLast(entry: AdapterConfig, on: bool) {
    entry.enabled == Some(false) && on
  }

  predicate NotSwitched(entry: AdapterConfig, on: bool) {
    !SwitchedFirst(entry, on) && !SwitchedLast(entry, on)
  }

  /** The target is what the adapter has already, so no command is issued and no record kept. */
  predicate Unchanged(net: Net, target: Ipv4Config) {
    match target
    case Static(_, _, _, _) => StaticMatches(Capture(0, net, net, target), target)
    case Dhcp(dnsFromDhcp) => DhcpUnchanged(Capture(0, net, net, target), dnsFromDhcp)
  }

  // What has become of an entry's adapter, which was in state `before`.

  /** The entry has been carried out. */
  ghost predicate SettledAt(entry: AdapterConfig, on: bool, before: Net, w: World, a: nat)
    requires entry.ipv4.Some? && a < |w.nets|
  {
    var target := entry.ipv4.value;
    && (NotSwitched(entry, on) ==> !Switched(w.rollback, a))
    && (if Unchanged(before, target) then
          a !in Restoration.Adapters(w.rollback) && (NotSwitched(entry, on) ==> w.nets[a] == before)
        else
          && a in Restoration.Adapters(w.rollback) && (target.Static? ==> ToStatic(target))
          && (target.Static? && !SwitchedLast(entry, on) ==> w.nets[a] == Installed(target))
          && (target.Dhcp? && NotSwitched(entry, on) ==> w.nets[a] == SwitchedToDhcp(w.hw.network, before, target.dnsFromDhcp)))
  }

  /** The adapter is where some number of the entry's commands lead. */
  ghost predicate CutSomewhere(env: Environment, target: Ipv4Config, before: Net, net: Net)
    requires ToStatic(target)
  {
    exists k: nat :: k <= |StaticCommands(target)| && net == CutOff(env, target, before, k)
  }

  /**
   The entry has been carried out, cut off or not begun. When a failed command changes nothing, the
   adapter is where some number of commands lead, and as it was unless it has a record.
   */
  ghost predicate CutAt(entry: AdapterConfig, on: bool, before: Net, w: World, a: nat)
    requires entry.ipv4.Some? && a < |w.nets|
  {
    w.hw.network.failsClean && ToStatic(entry.ipv4.value) && NotSwitched(entry, on) ==>
      && !Switched(w.rollback, a)
      && CutSomewhere(w.hw.network, entry.ipv4.value, before, w.nets[a])
      && (a !in Restoration.Adapters(w.rollback) ==> w.nets[a] == before)
  }

  /** Entry `i` configures the IPv4 state of adapter `a`. */
  ghost predicate Names(config: NetplanConfig, origin: Core, nets0: seq<Net>, w: World, i: nat, a: nat) {
    && i < |config.adapters| && config.adapters[i].ipv4.Some?
    && ResolveAdapter(w.hw.adapters, config.adapters[i].selector) == Success(a)
    && a < |origin.enabled| && a < |nets0| == |w.nets|
  }

  ghost predicate Settled(config: NetplanConfig, origin: Core, nets0: seq<Net>, w: World, i: nat) {
    forall a: nat :: Names(config, origin, nets0, w, i, a) ==> SettledAt(config.adapters[i], origin.enabled[a], nets0[a], w, a)
  }

  ghost predicate Cut(config: NetplanConfig, origin: Core, nets0: seq<Net>, w: World, i: nat) {
    forall a: nat :: Names(config, origin, nets0, w, i, a) ==> CutAt(config.adapters[i], origin.enabled[a], nets0[a], w, a)
  }

  // The steps of one entry.

  lemma {:induction false} NetshStops(w: World, a: nat, commands: seq<Command>)
    requires a < |w.nets| && w.hw.network.failsClean
    ensures exists k: nat :: k <= |commands| && Netsh(w, a, commands).w.nets == w.nets[a := RunAll(w.hw.network, commands[..k], w.nets[a])]
    decreases |commands|
  {
    assert w.nets[a := w.nets[a]] == w.nets;
    if commands == [] || !Healthy(w) {
      assert commands[..0] == [];
      assert Netsh(w, a, commands).w.nets == w.nets[a := RunAll(w.hw.network, commands[..0], w.nets[a])];
    } else {
      var next := Tick(w).(nets := w.nets[a := Effect(w.hw.network, commands[0], w.nets[a])]);
      NetshStops(next, a, commands[1..]);
      var k: nat :| k <= |commands| - 1 && Netsh(next, a, commands[1..]).w.nets == next.nets[a := RunAll(w.hw.network, commands[1..][..k], next.nets[a])];
      assert commands[..k + 1][0] == commands[0] && commands[..k + 1][1..] == commands[1..][..k];
      assert Netsh(w, a, commands).w.nets == w.nets[a := RunAll(w.hw.network, commands[..k + 1], w.nets[a])];
    }
  }

  lemma RemoveCapturedOk(w: World, r: NetRestore)
    requires r.adapter < |w.nets|
    ensures var run := RemoveCaptured(w, r);
      run.Ok? ==> run.w.nets == w.nets[r.adapter := var net := w.nets[r.adapter];
        RunAll(w.hw.network, DeleteAddresses(Addresses(r.snapshot.manual), net) + DeleteGateways(r.snapshot.gateways, net), net)]
  {
    var net := w.nets[r.adapter];
    NetshOk(Tick(w), r.adapter, DeleteAddresses(Addresses(r.snapshot.manual), net) + DeleteGateways(r.snapshot.gateways, net));
  }

  /** A switch to DHCP that succeeds, of an adapter still as captured, ends where the closed form says. */
  lemma DhcpSwitchOk(w: World, r: NetRestore, dnsFromDhcp: bool)
    requires r.adapter < |w.nets| && r.snapshot == w.nets[r.adapter]
    requires r.dnsFromDhcp == !r.snapshot.dnsStatic && r.winsFromDhcp == !r.snapshot.winsStatic
    ensures var run := DhcpSwitch(w, r, dnsFromDhcp);
      run.Ok? ==> |run.w.nets| == |w.nets| && run.w.nets[r.adapter] == SwitchedToDhcp(w.hw.network, r.snapshot, dnsFromDhcp)
  {
    var env, a, net := w.hw.network, r.adapter, r.snapshot;
    var first := if net.dhcp then [] else [AddressFromDhcp];
    NetshOk(w, a, first);
    NetshFrame(w, a, first);
    var r1 := Netsh(w, a, first);
    if r1.Ok? {
      RunOne(env, AddressFromDhcp, net);
      var asked := r1.w.nets[a];
      var r2 := if net.manual == [] then Ok(r1.w) else RemoveCaptured(r1.w, r);
      if net.manual != [] {
        RemoveCapturedOk(r1.w, r);
        DropEffect(env, net, asked);
        NetshFrame(Tick(r1.w), a, DeleteAddresses(Addresses(net.manual), asked) + DeleteGateways(net.gateways, asked));
      }
      if r2.Ok? {
        assert r2.w.nets[a] == AddressesDropped(env, net);
        NetshOk(r2.w, a, ServerCommands(net, dnsFromDhcp));
        RunServerCommands(env, net, r2.w.nets[a], dnsFromDhcp);
      }
    }
  }

  lemma DropEffect(env: Environment, net: Net, asked: Net)
    ensures RunAll(env, DeleteAddresses(Addresses(net.manual), asked) + DeleteGateways(net.gateways, asked), asked)
         == asked.(manual := Unclaimed(asked.manual, Addresses(net.manual)), leased := Unclaimed(asked.leased, Addresses(net.manual)),
                   gateways := OtherHops(asked.gateways, net.gateways))
  {
    var d, g := DeleteAddresses(Addresses(net.manual), asked), DeleteGateways(net.gateways, asked);
    RunAllSum(env, d, g, asked);
    RunDeleteAddresses(env, Addresses(net.manual), asked, asked);
    RunDeleteGateways(env, net.gateways, asked, RunAll(env, d, asked));
  }

  /** The state an IPv4 step leaves, as far as it was carried out; `before` is what the inventory says. */
  ghost predicate Reconfigured(w: World, r: Run, target: Ipv4Config, before: Net, a: nat)
    requires a < |w.nets|
  {
    && |r.w.nets| == |w.nets|
    && (r.Ok? ==>
          if Unchanged(before, target) then r.w.rollback == w.rollback && r.w.nets == w.nets
          else
            && r.w.rollback == w.rollback + [UndoIpv4(Capture(a, before, before, target))]
            && (target.Static? ==> ToStatic(target) && r.w.nets[a] == Installed(target))
            && (target.Dhcp? && w.nets[a] == before ==> r.w.nets[a] == SwitchedToDhcp(w.hw.network, before, target.dnsFromDhcp)))
    && (w.hw.network.failsClean && ToStatic(target) && w.nets[a] == before ==>
          CutSomewhere(w.hw.network, target, before, r.w.nets[a]))
  }

  lemma StaticReconfigured(w: World, target: Ipv4Config, before: Net, a: nat)
    requires a < |w.nets| && ToStatic(target) && !Unchanged(before, target)
    ensures Reconfigured(w, Reconfigure(w, Capture(a, before, before, target), target), target, before, a)
  {
    var r, commands := Capture(a, before, before, target), StaticCommands(target);
    var w1 := Push(w, UndoIpv4(r));
    NetshFrame(w1, a, commands);
    NetshOk(w1, a, commands);
    StaticInstalled(w.hw.network, target, w.nets[a]);
    if w.hw.network.failsClean && w.nets[a] == before {
      NetshStops(w1, a, commands);
      var k: nat :| k <= |commands| && Netsh(w1, a, commands).w.nets == w1.nets[a := RunAll(w.hw.network, commands[..k], before)];
      assert Netsh(w1, a, commands).w.nets[a] == CutOff(w.hw.network, target, before, k);
    }
  }

  lemma NothingReconfigured(w: World, target: Ipv4Config, before: Net, a: nat)
    requires a < |w.nets| && Unchanged(before, target)
    ensures Reconfigured(w, Reconfigure(w, Capture(a, before, before, target), target), target, before, a)
  {
    var r := Reconfigure(w, Capture(a, before, before, target), target);
    assert r == Ok(w);
    NotBegun(w.hw.network, target, before);
  }

  /** An adapter that is as it was is where none of the commands lead. */
  lemma NotBegun(env: Environment, target: Ipv4Config, before: Net)
    ensures ToStatic(target) ==> CutSomewhere(env, target, before, before)
  {
    if ToStatic(target) {
      assert StaticCommands(target)[..0] == [];
      assert CutOff(env, target, before, 0) == before;
    }
  }

  lemma DhcpReconfigured(w: World, target: Ipv4Config, before: Net, a: nat)
    requires a < |w.nets| && target.Dhcp? && !Unchanged(before, target)
    ensures Reconfigured(w, Reconfigure(w, Capture(a, before, before, target), target), target, before, a)
  {
    var r := Capture(a, before, before, target);
    var w1 := Push(w, UndoIpv4(r));
    ReconfigureFrame(w, r, target);
    DhcpSwitchFrame(w1, r, target.dnsFromDhcp);
    if w.nets[a] == before {
      DhcpSwitchOk(w1, r, target.dnsFromDhcp);
    }
  }

  lemma ReconfigureOutcome(w: World, target: Ipv4Config, before: Net, a: nat)
    requires a < |w.nets|
    ensures Reconfigured(w, Reconfigure(w, Capture(a, before, before, target), target), target, before, a)
  {
    if Unchanged(before, target) {
      NothingReconfigured(w, target, before, a);
    } else if target.Dhcp? {
      DhcpReconfigured(w, target, before, a);
    } else if target.addresses != [] {
      StaticReconfigured(w, target, before, a);
    }
  }

  lemma Ipv4StepOutcome(w: World, i: nat, entry: AdapterConfig, a: nat, before: Net)
    requires Sized(w) && a < |w.hw.adapters| && entry.ipv4.Some? && w.inventory.nets[a] == before
    requires w.nets[a].dnsStatic == before.dnsStatic && w.nets[a].winsStatic == before.winsStatic
    ensures Reconfigured(w, Ipv4Step(w, i, entry, a), entry.ipv4.value, before, a)
  {
    var target, w1 := entry.ipv4.value, Attempt(w, Plan.AdapterIpv4(i));
    NotBegun(w.hw.network, target, before);
    if w.hw.adapters[a].guid.Some? && Healthy(w1) && Healthy(Tick(w1)) {
      var w3 := Tick(Tick(w1));
      assert Capture(a, w3.inventory.nets[a], w3.nets[a], target) == Capture(a, before, before, target);
      ReconfigureOutcome(w3, target, before, a);
    }
  }

  /** Switch work on adapter `a`: IPv4 is as it was unless the adapter was switched, and IPv4 records stay. */
  ghost predicate Prepared(w: World, after: World, switched: bool, a: nat) {
    && after.hw == w.hw && after.inventory == w.inventory && Sized(w) && Sized(after) && a < |w.nets|
    && after.nets[a].dnsStatic == w.nets[a].dnsStatic && after.nets[a].winsStatic == w.nets[a].winsStatic
    && Restoration.Adapters(after.rollback) == Restoration.Adapters(w.rollback)
    && (!switched ==> after.nets == w.nets && (Switched(after.rollback, a) ==> Switched(w.rollback, a)))
  }

  lemma PreparedThen(w: World, mid: World, after: World, first: bool, second: bool, a: nat)
    requires Prepared(w, mid, first, a) && Prepared(mid, after, second, a)
    ensures Prepared(w, after, first || second, a)
  {
  }

  lemma EnablePrepares(w: World, i: nat, entry: AdapterConfig, a: nat)
    requires Sized(w) && a < |w.hw.adapters|
    ensures Prepared(w, EnableStep(w, i, entry, a).w, entry.enabled == Some(true) && !w.inventory.enabled[a], a)
  {
    RecordedAfter(w.rollback, UndoAdapterState(a, false));
  }

  lemma MacPrepares(w: World, i: nat, entry: AdapterConfig, a: nat)
    requires Sized(w) && a < |w.hw.adapters|
    ensures Prepared(w, MacStep(w, i, entry, a).w, entry.mac.Some? && (entry.enabled == Some(true) || w.inventory.enabled[a]), a)
  {
    var restart := entry.enabled == Some(true) || w.inventory.enabled[a];
    var u := UndoMac(a, w.core.macs[a], restart);
    MacFacts(w, i, entry, a);
    RecordedAfter(w.rollback, u);
    SwitchedBy(w.rollback, u, a);
  }

  lemma DisablePrepares(w: World, i: nat, entry: AdapterConfig, a: nat)
    requires Sized(w) && a < |w.hw.adapters|
    ensures Prepared(w, DisableStep(w, i, entry, a).w, SwitchedLast(entry, w.inventory.enabled[a]), a)
  {
    RecordedAfter(w.rollback, UndoAdapterState(a, true));
  }

  /** Enabling and overriding, whether they succeed or not. */
  lemma FirstHalf(w: World, i: nat, entry: AdapterConfig, a: nat)
    requires Sized(w) && a < |w.hw.adapters|
    ensures var r1 := EnableStep(w, i, entry, a);
      var r2 := if r1.Ok? then MacStep(r1.w, i, entry, a) else r1;
      Prepared(w, r2.w, SwitchedFirst(entry, w.inventory.enabled[a]), a)
  {
    EnablePrepares(w, i, entry, a);
    var r1 := EnableStep(w, i, entry, a);
    if r1.Ok? {
      MacPrepares(r1.w, i, entry, a);
      PreparedThen(w, r1.w, MacStep(r1.w, i, entry, a).w, entry.enabled == Some(true) && !w.inventory.enabled[a],
                   entry.mac.Some? && (entry.enabled == Some(true) || w.inventory.enabled[a]), a);
    }
  }

  /** The adapter is as the inventory says and no record speaks of it. */
  ghost predicate AtItsTurn(w: World, a: nat, on: bool, before: Net) {
    && Sized(w) && a < |w.hw.adapters|
    && w.inventory.enabled[a] == on && w.inventory.nets[a] == w.nets[a] == before
    && a !in Restoration.Adapters(w.rollback) && !Switched(w.rollback, a)
  }

  /** The adapter after its IPv4 step, and before it is switched off if the entry asks for that. */
  ghost predicate Ipv4Done(entry: AdapterConfig, on: bool, before: Net, r: Run, a: nat)
    requires entry.ipv4.Some? && a < |r.w.nets|
  {
    && (r.Ok? && !SwitchedLast(entry, on) ==> SettledAt(entry, on, before, r.w, a))
    && (r.Ok? ==> (a in Restoration.Adapters(r.w.rollback) <==> !Unchanged(before, entry.ipv4.value)))
    && (r.Ok? && entry.ipv4.value.Static? && !Unchanged(before, entry.ipv4.value) ==> ToStatic(entry.ipv4.value))
    && CutAt(entry, on, before, r.w, a)
  }

  /** What IPv4 work adds to what was prepared. */
  lemma SecondHalf(w: World, w2: World, i: nat, entry: AdapterConfig, a: nat, on: bool, before: Net)
    requires AtItsTurn(w, a, on, before) && entry.ipv4.Some? && Prepared(w, w2, SwitchedFirst(entry, on), a)
    ensures |Ipv4Step(w2, i, entry, a).w.nets| == |w2.nets| && Ipv4Done(entry, on, before, Ipv4Step(w2, i, entry, a), a)
  {
    var r, target := Ipv4Step(w2, i, entry, a), entry.ipv4.value;
    var u := UndoIpv4(Capture(a, before, before, target));
    Ipv4StepOutcome(w2, i, entry, a, before);
    Ipv4StepFrame(w2, i, entry, a);
    Ipv4Shape(w2, i, entry, a);
    RecordedAfter(w2.rollback, u);
    SwitchedBy(w2.rollback, u, a);
    SwitchedBy(w2.rollback, UndoIpv4(Capture(a, w2.inventory.nets[a], w2.nets[a], target)), a);
  }

  /** One entry on adapter `a`, carried out or cut off. */
  lemma EntryOutcome(w: World, i: nat, entry: AdapterConfig, a: nat, on: bool, before: Net)
    requires AtItsTurn(w, a, on, before) && entry.ipv4.Some?
    ensures var r := ApplyAdapterAt(w, i, entry, a);
      && |r.w.nets| == |w.nets|
      && (r.Ok? ==> SettledAt(entry, on, before, r.w, a))
      && CutAt(entry, on, before, r.w, a)
  {
    FirstHalf(w, i, entry, a);
    var r1 := EnableStep(w, i, entry, a);
    var r2 := if r1.Ok? then MacStep(r1.w, i, entry, a) else r1;
    NotBegun(w.hw.network, entry.ipv4.value, before);
    if r2.Ok? {
      SecondHalf(w, r2.w, i, entry, a, on, before);
      Ipv4StepFrame(r2.w, i, entry, a);
      var r3 := Ipv4Step(r2.w, i, entry, a);
      if r3.Ok? {
        DisablePrepares(r3.w, i, entry, a);
      }
    }
  }

  // All entries.

  ghost predicate AllSettled(config: NetplanConfig, origin: Core, nets0: seq<Net>, w: World, n: nat) {
    forall j: nat :: j < n ==> Settled(config, origin, nets0, w, j)
  }

  ghost predicate AllCut(config: NetplanConfig, origin: Core, nets0: seq<Net>, w: World) {
    forall j: nat :: Cut(config, origin, nets0, w, j)
  }

  /** Everything said about an adapter is as it was. */
  ghost predicate SameFor(w: World, after: World, a: nat) {
    && after.hw == w.hw && a < |w.nets| == |after.nets| && after.nets[a] == w.nets[a]
    && (a in Restoration.Adapters(after.rollback) <==> a in Restoration.Adapters(w.rollback))
    && (Switched(after.rollback, a) <==> Switched(w.rollback, a))
  }

  lemma SameSettled(config: NetplanConfig, origin: Core, nets0: seq<Net>, w: World, after: World, j: nat)
    requires after.hw == w.hw && |after.nets| == |w.nets|
    requires forall a: nat :: Names(config, origin, nets0, w, j, a) ==> SameFor(w, after, a)
    ensures Settled(config, origin, nets0, w, j) ==> Settled(config, origin, nets0, after, j)
    ensures Cut(config, origin, nets0, w, j) ==> Cut(config, origin, nets0, after, j)
  {
    forall a: nat | Names(config, origin, nets0, after, j, a)
      ensures Names(config, origin, nets0, w, j, a)
    {
    }
  }

  ghost predicate AtEntry(config: NetplanConfig, origin: Core, nets0: seq<Net>, w: World, i: nat) {
    && i <= |config.adapters| && config.adapters != []
    && During(config, origin, nets0, w, Plan.ADAPTERS, i) && Arranged(config, origin, w, Plan.ADAPTERS, i)
    && Protected(config, w.hw.adapters, w.hw.wifi)
  }

  /** The entry whose turn it is. */
  lemma EntrySettles(config: NetplanConfig, origin: Core, nets0: seq<Net>, w: World, i: nat)
    requires AtEntry(config, origin, nets0, w, i) && i < |config.adapters|
    ensures var r := ApplyAdapter(w, i, config.adapters[i]);
      (r.Ok? ==> Settled(config, origin, nets0, r.w, i)) && Cut(config, origin, nets0, r.w, i)
  {
    EntryIsFresh(config, origin, nets0, w, i);
    AdapterKeeps(config, origin, nets0, w, i);
    var entry, a := config.adapters[i], ResolveAdapter(w.hw.adapters, config.adapters[i].selector).value;
    assert !Switched(w.rollback, a);
    if entry.ipv4.Some? {
      EntryOutcome(w, i, entry, a, origin.enabled[a], nets0[a]);
    }
  }

  /** The adapters of the other entries. */
  lemma OtherEntriesStay(config: NetplanConfig, origin: Core, nets0: seq<Net>, w: World, i: nat, j: nat)
    requires AtEntry(config, origin, nets0, w, i) && i < |config.adapters| && j != i
    ensures var after := ApplyAdapter(w, i, config.adapters[i]).w;
      && (Settled(config, origin, nets0, w, j) ==> Settled(config, origin, nets0, after, j))
      && (Cut(config, origin, nets0, w, j) ==> Cut(config, origin, nets0, after, j))
  {
    var entry, after := config.adapters[i], ApplyAdapter(w, i, config.adapters[i]).w;
    EntryIsFresh(config, origin, nets0, w, i);
    var b := ResolveAdapter(w.hw.adapters, entry.selector).value;
    EntryKeeps(config, origin, nets0, w, i, b);
    forall a: nat | Names(config, origin, nets0, w, j, a)
      ensures SameFor(w, after, a)
    {
      if i < j {
        EntriesOnDistinctAdapters(config, w.hw.adapters, w.hw.wifi, i, j);
      } else {
        EntriesOnDistinctAdapters(config, w.hw.adapters, w.hw.wifi, j, i);
      }
      EntryLeavesOthers(w, i, entry, b, a);
    }
    SameSettled(config, origin, nets0, w, after, j);
  }

  lemma EntryLeavesOthers(w: World, i: nat, entry: AdapterConfig, b: nat, a: nat)
    requires Sized(w) && b < |w.hw.adapters| && a < |w.nets| && a != b
    requires OnlyAdapter(w, ApplyAdapterAt(w, i, entry, b).w, b)
    ensures SameFor(w, ApplyAdapterAt(w, i, entry, b).w, a)
  {
    EntrySwitchesOnly(w, i, entry, b);
    EntryLogGrows(w, i, entry, b);
  }

  /** Records are never dropped by an entry. */
  lemma EntryLogGrows(w: World, i: nat, entry: AdapterConfig, b: nat)
    requires Sized(w) && b < |w.hw.adapters|
    ensures forall u :: u in w.rollback ==> u in ApplyAdapterAt(w, i, entry, b).w.rollback
  {
    var r1 := EnableStep(w, i, entry, b);
    if r1.Ok? {
      MacFacts(r1.w, i, entry, b);
      var r2 := MacStep(r1.w, i, entry, b);
      if r2.Ok? {
        Ipv4StepFrame(r2.w, i, entry, b);
        Ipv4Shape(r2.w, i, entry, b);
      }
    }
  }

  /** Entries whose turn has not come leave their adapters as they were. */
  lemma ToComeIsCut(config: NetplanConfig, origin: Core, nets0: seq<Net>, w: World, i: nat, j: nat)
    requires Untouched(config, origin, nets0, w, i) && Arranged(config, origin, w, Plan.ADAPTERS, i) && i <= j
    requires Protected(config, w.hw.adapters, w.hw.wifi)
    ensures Cut(config, origin, nets0, w, j)
  {
    forall a: nat | Names(config, origin, nets0, w, j, a)
      ensures CutAt(config.adapters[j], origin.enabled[a], nets0[a], w, a)
    {
      forall k | 0 <= k < i
        ensures ResolveAdapter(w.hw.adapters, config.adapters[k].selector) != Success(a)
      {
        EntriesOnDistinctAdapters(config, w.hw.adapters, w.hw.wifi, k, j);
      }
      assert a !in Used(config, w.hw.adapters, i);
      NotBegun(w.hw.network, config.adapters[j].ipv4.value, nets0[a]);
    }
  }

  /** How many entries, from the `i`-th on, are carried out. */
  ghost function EntriesOk(w: World, config: NetplanConfig, i: nat): (n: nat)
    requires i <= |config.adapters|
    ensures i <= n <= |config.adapters|
    decreases |config.adapters| - i
  {
    if i == |config.adapters| then i
    else
      var r := ApplyAdapter(w, i, config.adapters[i]);
      if r.Ok? then EntriesOk(r.w, config, i + 1) else i
  }

  lemma EntryStep(config: NetplanConfig, origin: Core, nets0: seq<Net>, w: World, i: nat)
    requires AtEntry(config, origin, nets0, w, i) && i < |config.adapters| && AllSettled(config, origin, nets0, w, i)
    requires AllCut(config, origin, nets0, w)
    ensures var r := ApplyAdapter(w, i, config.adapters[i]);
      && (r.Ok? ==> AtEntry(config, origin, nets0, r.w, i + 1))
      && AllSettled(config, origin, nets0, r.w, if r.Ok? then i + 1 else i) && AllCut(config, origin, nets0, r.w)
  {
    var r := ApplyAdapter(w, i, config.adapters[i]);
    AdapterItemKeeps(config, origin, nets0, w, i);
    AdapterArranged(config, origin, nets0, w, i);
    EntrySettles(config, origin, nets0, w, i);
    forall j: nat | j != i
      ensures Settled(config, origin, nets0, w, j) ==> Settled(config, origin, nets0, r.w, j)
      ensures Cut(config, origin, nets0, w, j) ==> Cut(config, origin, nets0, r.w, j)
    {
      OtherEntriesStay(config, origin, nets0, w, i, j);
    }
  }

  lemma {:induction false} EntriesSettle(config: NetplanConfig, origin: Core, nets0: seq<Net>, w: World, i: nat)
    requires AtEntry(config, origin, nets0, w, i) && AllSettled(config, origin, nets0, w, i) && AllCut(config, origin, nets0, w)
    ensures var r, n := RunPhase(w, config, Plan.ADAPTERS, i), EntriesOk(w, config, i);
      && (r.Ok? <==> n == |config.adapters|)
      && AllSettled(config, origin, nets0, r.w, n) && AllCut(config, origin, nets0, r.w)
    decreases |config.adapters| - i
  {
    if i < |config.adapters| {
      EntryStep(config, origin, nets0, w, i);
      EntriesUnfold(w, config, i);
      var r := ApplyAdapter(w, i, config.adapters[i]);
      if r.Ok? {
        EntriesSettle(config, origin, nets0, r.w, i + 1);
      }
    }
  }
}
