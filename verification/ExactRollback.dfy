/**
 When a rollback brings IPv4 back exactly: a condition on the captured state, the target and what the
 network offers, for every run that reports a rollback.
 */
module ExactRollback {
  import opened Std
  import opened Text
  import opened Config
  import opened Model
  import opened Selectors
  import opened Ipv4Recovery
  import opened Ipv4Interruption
  import opened Ipv4Dhcp
  import opened Machine
  import opened Transaction
  import opened Restoration
  import opened AdapterUndo
  import opened DriverPhase
  import opened RunInvariant
  import opened Replaying
  import opened RollbackTheorem
  import opened Switches
  import opened UndoOrder
  import opened Settlement
  import opened SafeStart
  import Plan

  // Phases that leave the adapters alone.

  /** IPv4, and the records about adapters, are as they were. */
  ghost predicate Aside(w: World, after: World) {
    && after.hw == w.hw && after.nets == w.nets
    && forall u :: OfAdapter(u) ==> (u in after.rollback <==> u in w.rollback)
  }

  lemma SidewaysAside(w0: World, w: World, after: World, share: Option<string>)
    requires Aside(w0, w) && Sideways(w, after, share)
    ensures Aside(w0, after)
  {
    if after.rollback != w.rollback {
      assert forall u :: u in after.rollback <==> u in w.rollback || u == Last(after);
    }
  }

  lemma ItemAside(config: NetplanConfig, origin: Core, nets0: seq<Net>, w0: World, w: World, phase: nat, i: nat)
    requires During(config, origin, nets0, w, phase, i) && Aside(w0, w)
    requires Plan.IDENTITY <= phase < Plan.DRIVERS && phase != Plan.ADAPTERS && i < Plan.Count(config, phase)
    ensures Aside(w0, RunItem(w, config, phase, i).w)
  {
    if phase == Plan.SHARES {
      ShareShape(w, i, config, config.shares[i]);
      SidewaysAside(w0, w, RunItem(w, config, phase, i).w, Some(Fold(config.shares[i].name)));
    } else {
      OtherItemKeeps(config, origin, w, phase, i);
      SidewaysAside(w0, w, RunItem(w, config, phase, i).w, None);
    }
  }

  lemma PhaseAside(config: NetplanConfig, origin: Core, nets0: seq<Net>, w0: World, w: World, phase: nat)
    requires Plan.IDENTITY <= phase < Plan.DRIVERS && phase != Plan.ADAPTERS
    requires During(config, origin, nets0, w, phase, 0) && SharesDistinct(config) && Aside(w0, w)
    requires Protected(config, w.hw.adapters, w.hw.wifi)
    ensures Aside(w0, RunPhase(w, config, phase, 0).w)
  {
    var inv := (v: World, j: nat) => During(config, origin, nets0, v, phase, j) && Aside(w0, v);
    var halt := (v: World) => Aside(w0, v);
    forall v: World, j: nat | v.hw == w.hw && j < Plan.Count(config, phase) && inv(v, j)
      ensures ItemStep(inv, halt, config, phase, v, j)
    {
      ItemKeeps(config, origin, nets0, v, phase, j);
      ItemAside(config, origin, nets0, w0, v, phase, j);
    }
    PhaseInduction(inv, halt, w.hw, config, phase, w, 0);
  }

  lemma EnteredPhaseAside(config: NetplanConfig, origin: Core, nets0: seq<Net>, w0: World, w: World, p: nat)
    requires Plan.IDENTITY <= p < Plan.DRIVERS && p != Plan.ADAPTERS
    requires Before(config, origin, nets0, w, p) && SharesDistinct(config) && Aside(w0, w)
    requires Protected(config, w.hw.adapters, w.hw.wifi)
    ensures PhaseStep((v: World, q: nat) => Before(config, origin, nets0, v, q) && Aside(w0, v), (v: World) => Aside(w0, v), config, w, p)
  {
    EnterKeeps(config, origin, nets0, w, p);
    var r1 := Enter(w, config, p);
    if r1.Ok? {
      PhaseAside(config, origin, nets0, w0, r1.w, p);
      PhaseKeeps(config, origin, nets0, r1.w, p);
      var r2 := RunPhase(r1.w, config, p, 0);
      if r2.Ok? {
        DuringIsBefore(config, origin, nets0, r2.w, p, Plan.Count(config, p));
      }
    }
  }

  lemma PhasesAside(config: NetplanConfig, origin: Core, nets0: seq<Net>, w: World, phase: nat, last: nat)
    requires Plan.IDENTITY <= phase <= last <= Plan.DRIVERS && (last <= Plan.ADAPTERS || phase > Plan.ADAPTERS)
    requires Before(config, origin, nets0, w, phase) && SharesDistinct(config)
    requires Protected(config, w.hw.adapters, w.hw.wifi)
    ensures Aside(w, RunPhases(w, config, phase, last).w)
  {
    var inv := (v: World, q: nat) => Before(config, origin, nets0, v, q) && Aside(w, v);
    var halt := (v: World) => Aside(w, v);
    forall v: World, p: nat | v.hw == w.hw && phase <= p < last && inv(v, p)
      ensures PhaseStep(inv, halt, config, v, p)
    {
      EnteredPhaseAside(config, origin, nets0, w, v, p);
    }
    PhasesInduction(inv, halt, w.hw, config, w, phase, last);
  }

  lemma AsideSame(w: World, after: World, a: nat)
    requires Aside(w, after) && a < |w.nets|
    ensures SameFor(w, after, a)
  {
    if Switched(after.rollback, a) {
      var u :| u in after.rollback && Writes(u, a);
    }
    if Switched(w.rollback, a) {
      var u :| u in w.rollback && Writes(u, a);
    }
  }

  lemma AsideSettled(config: NetplanConfig, origin: Core, nets0: seq<Net>, w: World, after: World, n: nat)
    requires Aside(w, after)
    ensures AllSettled(config, origin, nets0, w, n) ==> AllSettled(config, origin, nets0, after, n)
    ensures AllCut(config, origin, nets0, w) ==> AllCut(config, origin, nets0, after)
  {
    forall j: nat
      ensures Settled(config, origin, nets0, w, j) ==> Settled(config, origin, nets0, after, j)
      ensures Cut(config, origin, nets0, w, j) ==> Cut(config, origin, nets0, after, j)
    {
      forall a: nat | Names(config, origin, nets0, w, j, a)
        ensures SameFor(w, after, a)
      {
        AsideSame(w, after, a);
      }
      SameSettled(config, origin, nets0, w, after, j);
    }
  }

  // Whole runs, until driver operations.

  /** How many adapter entries a run carries out. */
  ghost function EntriesDone(w: World, config: NetplanConfig): nat {
    var b := RunPhases(w, config, Plan.BEFORE_HOOKS, Plan.IDENTITY);
    var first := RunPhases(b.w, config, Plan.IDENTITY, Plan.ADAPTERS);
    var entered := Enter(first.w, config, Plan.ADAPTERS);
    if first.Err? || entered.Err? then 0 else EntriesOk(entered.w, config, 0)
  }

  lemma NothingBegun(config: NetplanConfig, w: World)
    requires w.rollback == []
    ensures AllCut(config, w.core, w.nets, w)
  {
    forall j: nat, a: nat | Names(config, w.core, w.nets, w, j, a)
      ensures CutAt(config.adapters[j], w.core.enabled[a], w.nets[a], w, a)
    {
      NotBegun(w.hw.network, config.adapters[j].ipv4.value, w.nets[a]);
    }
  }

  /** The adapter phase, entered in `w`. */
  lemma AdapterPhaseSettles(config: NetplanConfig, origin: Core, nets0: seq<Net>, w: World)
    requires Before(config, origin, nets0, w, Plan.ADAPTERS) && Sorted(origin, w, Plan.ADAPTERS) && AllCut(config, origin, nets0, w)
    requires Protected(config, w.hw.adapters, w.hw.wifi)
    ensures var entered := Enter(w, config, Plan.ADAPTERS);
      entered.Ok? ==>
        var r, n := RunPhase(entered.w, config, Plan.ADAPTERS, 0), EntriesOk(entered.w, config, 0);
        && (r.Ok? <==> n == |config.adapters|)
        && AllSettled(config, origin, nets0, r.w, n) && AllCut(config, origin, nets0, r.w)
    ensures Aside(w, Enter(w, config, Plan.ADAPTERS).w)
  {
    var entered := Enter(w, config, Plan.ADAPTERS);
    EnterKeeps(config, origin, nets0, w, Plan.ADAPTERS);
    AsideSettled(config, origin, nets0, w, entered.w, 0);
    if entered.Ok? && config.adapters != [] {
      EnterArranged(config, origin, w, Plan.ADAPTERS);
      EntriesSettle(config, origin, nets0, entered.w, 0);
    }
  }

  /** The world in which the adapter phase begins is as the run found it. */
  lemma AdapterPhaseBegins(w: World, config: NetplanConfig)
    requires Ready(w) && SharesDistinct(config) && Protected(config, w.hw.adapters, w.hw.wifi)
    ensures var b := RunPhases(w, config, Plan.BEFORE_HOOKS, Plan.IDENTITY).w;
      var first := RunPhases(b, config, Plan.IDENTITY, Plan.ADAPTERS);
      && first.w.hw == w.hw && AllCut(config, w.core, w.nets, first.w)
      && (first.Ok? ==> Before(config, w.core, w.nets, first.w, Plan.ADAPTERS) && Sorted(w.core, first.w, Plan.ADAPTERS))
  {
    StageQuiet(w, config, Plan.BEFORE_HOOKS);
    var b := RunPhases(w, config, Plan.BEFORE_HOOKS, Plan.IDENTITY).w;
    ReadyIsBefore(config, b);
    PhasesAside(config, b.core, b.nets, b, Plan.IDENTITY, Plan.ADAPTERS);
    PhasesKeep(config, b.core, b.nets, b, Plan.IDENTITY, Plan.ADAPTERS);
    PhasesSorted(config, b.core, b.nets, b, Plan.IDENTITY, Plan.ADAPTERS);
    NothingBegun(config, b);
    AsideSettled(config, b.core, b.nets, b, RunPhases(b, config, Plan.IDENTITY, Plan.ADAPTERS).w, 0);
  }

  /** The phases after the adapters', entered in `w`. */
  lemma LaterPhasesSettled(config: NetplanConfig, origin: Core, nets0: seq<Net>, w: World, n: nat)
    requires Before(config, origin, nets0, w, Plan.PROFILES) && SharesDistinct(config) && Protected(config, w.hw.adapters, w.hw.wifi)
    requires AllSettled(config, origin, nets0, w, n) && AllCut(config, origin, nets0, w)
    ensures var v := RunPhases(w, config, Plan.PROFILES, Plan.DRIVERS).w;
      AllSettled(config, origin, nets0, v, n) && AllCut(config, origin, nets0, v)
  {
    PhasesAside(config, origin, nets0, w, Plan.PROFILES, Plan.DRIVERS);
    AsideSettled(config, origin, nets0, w, RunPhases(w, config, Plan.PROFILES, Plan.DRIVERS).w, n);
  }

  lemma AdapterPhaseUnfold(w: World, config: NetplanConfig)
    ensures RunPhases(w, config, Plan.ADAPTERS, Plan.DRIVERS)
         == var entered := Enter(w, config, Plan.ADAPTERS);
            if entered.Err? then entered
            else
              var r := RunPhase(entered.w, config, Plan.ADAPTERS, 0);
              if r.Err? then r else RunPhases(r.w, config, Plan.PROFILES, Plan.DRIVERS)
  {
  }

  /** From the adapter phase on. */
  lemma FromAdaptersSettled(config: NetplanConfig, origin: Core, nets0: seq<Net>, w: World)
    requires Before(config, origin, nets0, w, Plan.ADAPTERS) && Sorted(origin, w, Plan.ADAPTERS) && AllCut(config, origin, nets0, w)
    requires SharesDistinct(config) && Protected(config, w.hw.adapters, w.hw.wifi)
    ensures var entered, r := Enter(w, config, Plan.ADAPTERS), RunPhases(w, config, Plan.ADAPTERS, Plan.DRIVERS);
      var n := if entered.Ok? then EntriesOk(entered.w, config, 0) else 0;
      && AllSettled(config, origin, nets0, r.w, n) && AllCut(config, origin, nets0, r.w)
      && (r.Ok? ==> n == |config.adapters|)
  {
    AdapterPhaseSettles(config, origin, nets0, w);
    AdapterPhaseUnfold(w, config);
    var entered := Enter(w, config, Plan.ADAPTERS);
    AsideSettled(config, origin, nets0, w, entered.w, 0);
    if entered.Ok? {
      var r, n := RunPhase(entered.w, config, Plan.ADAPTERS, 0), EntriesOk(entered.w, config, 0);
      if r.Ok? {
        EnterKeeps(config, origin, nets0, w, Plan.ADAPTERS);
        PhaseKeeps(config, origin, nets0, entered.w, Plan.ADAPTERS);
        DuringIsBefore(config, origin, nets0, r.w, Plan.ADAPTERS, |config.adapters|);
        LaterPhasesSettled(config, origin, nets0, r.w, n);
      }
    }
  }

  /**
   Wherever the reversible part of a run ends or fails, the entries carried out have their adapters
   where their targets say, and, when a failed command changes nothing, every entry has its adapter
   where some number of its commands lead.
   */
  lemma ReversibleSettled(w: World, config: NetplanConfig)
    requires Ready(w) && SharesDistinct(config) && Protected(config, w.hw.adapters, w.hw.wifi)
    ensures var v := ReversibleEnd(w, config);
      AllSettled(config, w.core, w.nets, v, EntriesDone(w, config)) && AllCut(config, w.core, w.nets, v)
    ensures DriversReached(w, config) ==> EntriesDone(w, config) == |config.adapters|
  {
    AdapterPhaseBegins(w, config);
    var b := RunPhases(w, config, Plan.BEFORE_HOOKS, Plan.IDENTITY).w;
    var first := RunPhases(b, config, Plan.IDENTITY, Plan.ADAPTERS);
    RunPhasesSplit(b, config, Plan.IDENTITY, Plan.ADAPTERS, Plan.DRIVERS);
    if first.Ok? {
      FromAdaptersSettled(config, w.core, w.nets, first.w);
    }
  }

  // Driver operations.

  lemma OperationKeepsNet(w: World, i: nat, operation: DriverOperation, a: nat)
    requires a < |w.core.enabled| && a < |w.nets|
    requires !Restarts(w, operation, a) || RestartLeaves(Tick(w)).None?
    ensures var after := ApplyDriver(w, i, operation).w; |after.nets| == |w.nets| && after.nets[a] == w.nets[a]
  {
    match operation
    case Install(_, hardwareId, force, restart) =>
      InstallSwitchesNothing(Attempt(w, Plan.DriverInstall(i, force)), i, hardwareId, force, restart);
    case RestartAdapter(selector) =>
      var resolved, w1 := ResolveAdapter(w.hw.adapters, selector), Tick(Attempt(w, Plan.DriverRestart(i)));
      if Healthy(w) && resolved.Success? && resolved.value < |w.core.enabled| && resolved.value != a {
        assert OnlySwitch(Machine.RestartAdapter(w1, resolved.value).w, w1, resolved.value);
      }
  }

  /** Driver operations keep the IPv4 state of an adapter they do not switch. */
  lemma {:induction false} DriversKeepNet(w: World, config: NetplanConfig, i: nat, a: nat)
    requires i <= |config.drivers| && a < |w.core.enabled| && a < |w.nets| && LastLeft(w, config, i, a).None?
    ensures var after := RunPhase(w, config, Plan.DRIVERS, i).w; |after.nets| == |w.nets| && after.nets[a] == w.nets[a]
    decreases |config.drivers| - i
  {
    if i < |config.drivers| {
      OperationKeepsNet(w, i, config.drivers[i], a);
      OperationSwitch(w, i, config.drivers[i], a);
      DriversUnfold(w, config, i);
      var r := ApplyDriver(w, i, config.drivers[i]);
      if r.Ok? {
        DriversKeepNet(r.w, config, i + 1, a);
      }
    }
  }

  lemma {:induction false} AfterHooksKeepNets(w: World, config: NetplanConfig, i: nat)
    requires i <= |config.hooks|
    ensures RunPhase(w, config, Plan.AFTER_HOOKS, i).w.nets == w.nets
    decreases |config.hooks| - i
  {
    if i < |config.hooks| {
      var r := RunItem(w, config, Plan.AFTER_HOOKS, i);
      if r.Ok? {
        AfterHooksKeepNets(r.w, config, i + 1);
      }
    }
  }

  lemma LatePhasesKeepNet(w: World, config: NetplanConfig, a: nat)
    requires a < |w.core.enabled| && a < |w.nets| && LastLeft(w, config, 0, a).None?
    ensures var after := RunPhases(w, config, Plan.DRIVERS, Plan.ROLLBACK_HOOKS).w; |after.nets| == |w.nets| && after.nets[a] == w.nets[a]
  {
    DriversKeepNet(w, config, 0, a);
    var r := RunPhase(w, config, Plan.DRIVERS, 0);
    if r.Ok? {
      AfterHooksKeepNets(r.w, config, 0);
      var s := RunPhase(r.w, config, Plan.AFTER_HOOKS, 0);
      assert RunPhases(r.w, config, Plan.AFTER_HOOKS, Plan.ROLLBACK_HOOKS).w == s.w;
    }
  }

  /** Entry `i` of the document declares the IPv4 settings of adapter `a` of the machine. */
  ghost predicate Targets(w: World, config: NetplanConfig, i: nat, a: nat) {
    && About(config, w.hw.adapters, i, a) && config.adapters[i].ipv4.Some? && a < |w.nets| && a < |w.core.enabled|
  }

  /** And it does so without switching the adapter. */
  ghost predicate Configured(w: World, config: NetplanConfig, i: nat, a: nat) {
    Targets(w, config, i, a) && NotSwitched(config.adapters[i], w.core.enabled[a])
  }

  /** Where the run ended or failed, for an adapter no driver operation switched. */
  lemma EndOfAdapter(w: World, config: NetplanConfig, i: nat, a: nat)
    requires Ready(w) && SharesDistinct(config) && Protected(config, w.hw.adapters, w.hw.wifi)
    requires Targets(w, config, i, a) && LeftByDrivers(w, config, a).None?
    ensures var end, entry := FailedAt(w, config), config.adapters[i];
      && end.hw == w.hw && |end.nets| == |w.nets|
      && (i < EntriesDone(w, config) ==> SettledAt(entry, w.core.enabled[a], w.nets[a], end, a))
      && CutAt(entry, w.core.enabled[a], w.nets[a], end, a)
  {
    var v, end := ReversibleEnd(w, config), FailedAt(w, config);
    ReversibleSettled(w, config);
    ReversibleKeeps(w, config);
    if DriversReached(w, config) {
      LatePhasesKeepNet(v, config, a);
      LatePhasesSwitchOnly(v, config);
    }
    assert Names(config, w.core, w.nets, v, i, a);
    assert Settled(config, w.core, w.nets, v, i) || i >= EntriesDone(w, config);
    assert Cut(config, w.core, w.nets, v, i);
  }

  lemma ReversibleKeeps(w: World, config: NetplanConfig)
    requires Ready(w) && SharesDistinct(config) && Protected(config, w.hw.adapters, w.hw.wifi)
    ensures var v := ReversibleEnd(w, config); v.hw == w.hw && |v.nets| == |w.nets| && |v.core.enabled| == |w.core.enabled|
  {
    StageQuiet(w, config, Plan.BEFORE_HOOKS);
    var b := RunPhases(w, config, Plan.BEFORE_HOOKS, Plan.IDENTITY).w;
    ReadyIsBefore(config, b);
    PhasesKeep(config, b.core, b.nets, b, Plan.IDENTITY, Plan.DRIVERS);
    var r := RunPhases(b, config, Plan.IDENTITY, Plan.DRIVERS);
    if r.Ok? {
      SteadyIsStopped(config, w.core, r.w);
    }
    SwitchesKeptWithoutDrivers(config, w.core, w.nets, r.w);
  }

  // The theorems.

  /** What a rollback reported as such does to IPv4, record by record. */
  lemma RolledBackNets(w: World, config: NetplanConfig)
    requires Ready(w) && SharesDistinct(config) && Protected(config, w.hw.adapters, w.hw.wifi)
    requires Apply(w, config).1.rolledBack
    ensures var failed := FailedAt(w, config);
      NetsVerified(w.hw.network, failed.nets, failed.rollback, Apply(w, config).0.nets)
  {
    RolledBackMeans(w, config);
    FailureIsUndoable(config, w);
    var failed := FailedAt(w, config);
    RollbackOutcome(failed, failed.rollback);
    StageQuiet(RollbackAll(failed, failed.rollback).0, config, Plan.ROLLBACK_HOOKS);
  }

  /** An adapter with a record ends where the recovery leads, one without as the run left it. */
  lemma AdapterOutcome(w: World, config: NetplanConfig, i: nat, a: nat)
    requires Ready(w) && SharesDistinct(config) && Protected(config, w.hw.adapters, w.hw.wifi)
    requires Apply(w, config).1.rolledBack && Configured(w, config, i, a) && !Switched(FailedAt(w, config).rollback, a)
    ensures var failed, final := FailedAt(w, config), Apply(w, config).0;
      && |final.nets| == |failed.nets| == |w.nets|
      && final.nets[a] ==
           if a in Restoration.Adapters(failed.rollback)
           then Restored(w.hw.network, Capture(a, w.nets[a], w.nets[a], config.adapters[i].ipv4.value), failed.nets[a])
           else failed.nets[a]
  {
    var failed := FailedAt(w, config);
    RolledBackNets(w, config);
    RolledBackMeans(w, config);
    FailureIsUndoable(config, w);
    if a in Restoration.Adapters(failed.rollback) {
      RecordOfEntry(config, w, failed, i, a);
    }
  }

  /** The log of a failed run holds the record the adapter's entry made of its original state. */
  lemma RecordOfEntry(config: NetplanConfig, w: World, failed: World, i: nat, a: nat)
    requires NetsTracked(config, w.nets, failed) && failed.hw == w.hw && a in Restoration.Adapters(failed.rollback)
    requires Protected(config, w.hw.adapters, w.hw.wifi) && Configured(w, config, i, a)
    ensures exists x ::
      && 0 <= x < |failed.rollback|
      && failed.rollback[x] == UndoIpv4(Capture(a, w.nets[a], w.nets[a], config.adapters[i].ipv4.value))
  {
    var u :| u in failed.rollback && u.UndoIpv4? && u.restore.adapter == a;
    var x :| 0 <= x < |failed.rollback| && failed.rollback[x] == u;
    CapturedByItsEntry(config, w, u.restore, i);
  }

  /** An adapter is configured by one entry only, so its record is that entry's. */
  lemma CapturedByItsEntry(config: NetplanConfig, w: World, r: NetRestore, i: nat)
    requires Protected(config, w.hw.adapters, w.hw.wifi) && Configured(w, config, i, r.adapter)
    requires Captured(config, w.hw.adapters, r, w.nets[r.adapter])
    ensures r == Capture(r.adapter, w.nets[r.adapter], w.nets[r.adapter], config.adapters[i].ipv4.value)
  {
    var j: nat :| CapturedBy(config, w.hw.adapters, j, r, w.nets[r.adapter]);
    if j < i {
      EntriesOnDistinctAdapters(config, w.hw.adapters, w.hw.wifi, j, i);
    } else if i < j {
      EntriesOnDistinctAdapters(config, w.hw.adapters, w.hw.wifi, i, j);
    }
  }

  /** A static run cut off after `k` commands is undone exactly. */
  predicate StaticBack(env: Environment, before: Net, target: Ipv4Config, k: nat)
    requires ToStatic(target)
  {
    AddressBack(env, before, target, k) && DnsBack(env, before, target, k) && WinsBack(env, before, target, k)
  }

  /**
   A carried out entry is undone exactly: its target was there already, or the parts of a static
   target come back, or the adapter comes back from DHCP.
   */
  predicate Recoverable(env: Environment, before: Net, target: Ipv4Config) {
    Unchanged(before, target)
    || match target
       case Static(_, _, _, _) => ToStatic(target) && StaticBack(env, before, target, |StaticCommands(target)|)
       case Dhcp(dnsFromDhcp) => SwitchBack(before, dnsFromDhcp)
  }

  /** An installed static target, undone. */
  lemma InstalledExactIff(env: Environment, before: Net, target: Ipv4Config, adapter: nat)
    requires ToStatic(target)
    ensures Restored(env, Capture(adapter, before, before, target), Installed(target)) == before
      <==> StaticBack(env, before, target, |StaticCommands(target)|)
  {
    var k := |StaticCommands(target)|;
    assert StaticCommands(target)[..k] == StaticCommands(target);
    StaticInstalled(env, target, before);
    RestoredExactlyIff(env, before, target, adapter, k);
  }

  /**
   An adapter whose entry was carried out before the run failed, and that nothing switched: after a
   rollback reported as such its IPv4 state is exactly as it was if and only if it was recoverable,
   a condition on its state before the run, the target and what the network offers.
   */
  lemma CompletedAdapterExactIff(w: World, config: NetplanConfig, i: nat, a: nat)
    requires Ready(w) && SharesDistinct(config) && Protected(config, w.hw.adapters, w.hw.wifi)
    requires Apply(w, config).1.rolledBack
    requires Configured(w, config, i, a) && LeftByDrivers(w, config, a).None? && i < EntriesDone(w, config)
    ensures var final, target := Apply(w, config).0, config.adapters[i].ipv4.value;
      |final.nets| == |w.nets| && (final.nets[a] == w.nets[a] <==> Recoverable(w.hw.network, w.nets[a], target))
  {
    var target := config.adapters[i].ipv4.value;
    EndOfAdapter(w, config, i, a);
    AdapterOutcome(w, config, i, a);
    if !Unchanged(w.nets[a], target) {
      match target
      case Static(_, _, _, _) =>
        InstalledExactIff(w.hw.network, w.nets[a], target, a);
      case Dhcp(dnsFromDhcp) =>
        SwitchRestoredIff(w.hw.network, w.nets[a], dnsFromDhcp, a);
    }
  }

  /**
   The adapter of any entry with a static target, wherever the run failed, when a failed command
   changes nothing: some number of commands had been issued, and the adapter is exactly as it was if
   and only if it has no record or what those commands touched comes back.
   */
  lemma InterruptedAdapterExactIff(w: World, config: NetplanConfig, i: nat, a: nat)
    requires Ready(w) && SharesDistinct(config) && Protected(config, w.hw.adapters, w.hw.wifi)
    requires Apply(w, config).1.rolledBack && w.hw.network.failsClean
    requires Configured(w, config, i, a) && LeftByDrivers(w, config, a).None? && ToStatic(config.adapters[i].ipv4.value)
    ensures var final, failed, target := Apply(w, config).0, FailedAt(w, config), config.adapters[i].ipv4.value;
      |final.nets| == |failed.nets| == |w.nets|
      && CutSomewhere(w.hw.network, target, w.nets[a], failed.nets[a])
      && forall k: nat :: k <= |StaticCommands(target)| && failed.nets[a] == CutOff(w.hw.network, target, w.nets[a], k) ==>
           (final.nets[a] == w.nets[a] <==>
              (a in Restoration.Adapters(failed.rollback) ==> StaticBack(w.hw.network, w.nets[a], target, k)))
  {
    var failed, target, env, before := FailedAt(w, config), config.adapters[i].ipv4.value, w.hw.network, w.nets[a];
    EndOfAdapter(w, config, i, a);
    AdapterOutcome(w, config, i, a);
    forall k: nat | k <= |StaticCommands(target)| && failed.nets[a] == CutOff(env, target, before, k)
      ensures Restored(env, Capture(a, before, before, target), failed.nets[a]) == before <==> StaticBack(env, before, target, k)
    {
      RestoredExactlyIff(env, before, target, a, k);
    }
  }

  /** Every declared IPv4 target can be undone exactly from where its adapter was. */
  ghost predicate AllRecoverable(w: World, config: NetplanConfig) {
    forall i: nat, a: nat :: Configured(w, config, i, a) ==> Recoverable(w.hw.network, w.nets[a], config.adapters[i].ipv4.value)
  }

  lemma RecordedIsConfigured(w: World, config: NetplanConfig, a: nat)
    requires Ready(w) && SharesDistinct(config) && Protected(config, w.hw.adapters, w.hw.wifi) && Fails(w, config)
    requires SwitchesNothing(config, w.hw.adapters, w.core.enabled) && a in Restoration.Adapters(FailedAt(w, config).rollback)
    ensures exists i: nat :: Configured(w, config, i, a)
  {
    FailureIsUndoable(config, w);
    var u :| u in FailedAt(w, config).rollback && u.UndoIpv4? && u.restore.adapter == a;
    var i: nat :| CapturedBy(config, w.hw.adapters, i, u.restore, w.nets[a]);
    assert About(config, w.hw.adapters, i, a);
    assert Configured(w, config, i, a);
  }

  /** An adapter that no entry configures. */
  lemma UnconfiguredKept(w: World, config: NetplanConfig, a: nat)
    requires Ready(w) && SharesDistinct(config) && Protected(config, w.hw.adapters, w.hw.wifi)
    requires Apply(w, config).1.rolledBack && Apply(w, config).0.switches == [] && a < |w.nets|
    requires SwitchesNothing(config, w.hw.adapters, w.core.enabled)
    requires forall i: nat :: !Configured(w, config, i, a)
    ensures |Apply(w, config).0.nets| == |w.nets| && Apply(w, config).0.nets[a] == w.nets[a]
  {
    RolledBackRestores(w, config);
    if a in Restoration.Adapters(FailedAt(w, config).rollback) {
      RecordedIsConfigured(w, config, a);
    }
  }

  /** IPv4 is as it was if and only if it is for every adapter an entry configures. */
  lemma NetsKeptIff(w: World, config: NetplanConfig)
    requires Ready(w) && SharesDistinct(config) && Protected(config, w.hw.adapters, w.hw.wifi)
    requires Apply(w, config).1.rolledBack && Apply(w, config).0.switches == []
    requires SwitchesNothing(config, w.hw.adapters, w.core.enabled)
    ensures var final := Apply(w, config).0;
      && |final.nets| == |w.nets|
      && (final.nets == w.nets <==> forall i: nat, a: nat :: Configured(w, config, i, a) ==> final.nets[a] == w.nets[a])
  {
    var final := Apply(w, config).0;
    RolledBackRestores(w, config);
    forall a: nat | a < |w.nets| && forall i: nat :: !Configured(w, config, i, a)
      ensures final.nets[a] == w.nets[a]
    {
      UnconfiguredKept(w, config, a);
    }
    if forall i: nat, a: nat :: Configured(w, config, i, a) ==> final.nets[a] == w.nets[a] {
      forall a | 0 <= a < |w.nets|
        ensures final.nets[a] == w.nets[a]
      {
        if exists i: nat :: Configured(w, config, i, a) {
          var i: nat :| Configured(w, config, i, a);
        }
      }
    }
  }

  /**
   The whole machine, IPv4 included: for a document that has no adapter switched, a job that failed
   after its adapter entries and is reported as rolled back left everything exactly as it was if and
   only if the run was faithful and every declared IPv4 target was recoverable.
   */
  lemma RolledBackExactIff(w: World, config: NetplanConfig)
    requires Ready(w) && SharesDistinct(config) && Protected(config, w.hw.adapters, w.hw.wifi)
    requires Apply(w, config).1.rolledBack && SwitchesNothing(config, w.hw.adapters, w.core.enabled)
    requires EntriesDone(w, config) == |config.adapters|
    ensures var final := Apply(w, config).0;
      final.core == w.core && final.nets == w.nets <==> Faithful(w, config) && AllRecoverable(w, config)
  {
    NothingSwitched(w, config);
    NothingRestarted(w, config);
    NetsKeptIff(w, config);
    RolledBackRestores(w, config);
    forall i: nat, a: nat | Configured(w, config, i, a)
      ensures Apply(w, config).0.nets[a] == w.nets[a] <==> Recoverable(w.hw.network, w.nets[a], config.adapters[i].ipv4.value)
    {
      CompletedAdapterExactIff(w, config, i, a);
    }
  }

  /** The entry's commands were cut off, or not begun, at a point from which its adapter comes back. */
  ghost predicate CutRecoverably(w: World, config: NetplanConfig, i: nat, a: nat)
    requires Configured(w, config, i, a) && ToStatic(config.adapters[i].ipv4.value)
  {
    var failed, target := FailedAt(w, config), config.adapters[i].ipv4.value;
    exists k: nat ::
      && k <= |StaticCommands(target)| && a < |failed.nets| && failed.nets[a] == CutOff(w.hw.network, target, w.nets[a], k)
      && (a in Restoration.Adapters(failed.rollback) ==> StaticBack(w.hw.network, w.nets[a], target, k))
  }

  lemma CutAdapterExactIff(w: World, config: NetplanConfig, i: nat, a: nat)
    requires Ready(w) && SharesDistinct(config) && Protected(config, w.hw.adapters, w.hw.wifi)
    requires Apply(w, config).1.rolledBack && w.hw.network.failsClean
    requires Configured(w, config, i, a) && LeftByDrivers(w, config, a).None? && ToStatic(config.adapters[i].ipv4.value)
    ensures |Apply(w, config).0.nets| == |w.nets|
    ensures Apply(w, config).0.nets[a] == w.nets[a] <==> CutRecoverably(w, config, i, a)
  {
    InterruptedAdapterExactIff(w, config, i, a);
  }

  /**
   The same wherever the job failed, for static targets, when a failed command changes nothing: everything
   is exactly as it was if and only if the run was faithful and every adapter comes back from the point
   its commands had reached.
   */
  lemma RolledBackAnywhereExactIff(w: World, config: NetplanConfig)
    requires Ready(w) && SharesDistinct(config) && Protected(config, w.hw.adapters, w.hw.wifi)
    requires Apply(w, config).1.rolledBack && SwitchesNothing(config, w.hw.adapters, w.core.enabled) && w.hw.network.failsClean
    requires forall i: nat, a: nat :: Configured(w, config, i, a) ==> ToStatic(config.adapters[i].ipv4.value)
    ensures var final := Apply(w, config).0;
      final.core == w.core && final.nets == w.nets
      <==> Faithful(w, config) && forall i: nat, a: nat :: Configured(w, config, i, a) ==> CutRecoverably(w, config, i, a)
  {
    NothingSwitched(w, config);
    NothingRestarted(w, config);
    NetsKeptIff(w, config);
    RolledBackRestores(w, config);
    forall i: nat, a: nat | Configured(w, config, i, a)
      ensures Apply(w, config).0.nets[a] == w.nets[a] <==> CutRecoverably(w, config, i, a)
    {
      CutAdapterExactIff(w, config, i, a);
    }
  }
}
