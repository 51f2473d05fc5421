/** A live run attempts the operations of the plan, in the order of the plan. */
module Conformance {
  import opened Std
  import opened Config
  import opened Selectors
  import opened Ipv4Recovery
  import opened Machine
  import opened Transaction
  import Plan

  /** A step whose planned operations are `ops` attempts a prefix of them, and all if it succeeds. */
  predicate Tracks(w: World, r: Run, ops: seq<Plan.Operation>) {
    && IsPrefix(w.attempted, r.w.attempted)
    && IsPrefix(r.w.attempted, w.attempted + ops)
    && (r.Ok? ==> r.w.attempted == w.attempted + ops)
  }

  lemma TracksNothing(w: World, r: Run)
    requires r.w.attempted == w.attempted
    ensures Tracks(w, r, [])
  {
    assert w.attempted + [] == w.attempted;
  }

  lemma TracksOne(w: World, r: Run, op: Plan.Operation)
    requires r.w.attempted == w.attempted + [op]
    ensures Tracks(w, r, [op])
  {
  }

  /** Steps in sequence attempt their operations in sequence. */
  lemma TracksThen(w: World, first: Run, a: seq<Plan.Operation>, second: Run, b: seq<Plan.Operation>)
    requires Tracks(w, first, a)
    requires first.Ok? ==> Tracks(first.w, second, b)
    requires first.Err? ==> second == first
    ensures Tracks(w, second, a + b)
  {
    assert w.attempted + (a + b) == (w.attempted + a) + b;
    if first.Err? {
      PrefixOfSum(second.w.attempted, w.attempted + a, b);
    }
  }

  lemma EnableTracks(w: World, i: nat, entry: AdapterConfig, a: nat)
    requires Sized(w) && a < |w.hw.adapters|
    ensures Tracks(w, EnableStep(w, i, entry, a), if entry.enabled == Some(true) then [Plan.AdapterState(i, true)] else [])
  {
    if entry.enabled == Some(true) {
      TracksOne(w, EnableStep(w, i, entry, a), Plan.AdapterState(i, true));
    } else {
      TracksNothing(w, EnableStep(w, i, entry, a));
    }
  }

  lemma MacTracks(w: World, i: nat, entry: AdapterConfig, a: nat)
    requires Sized(w) && a < |w.hw.adapters|
    ensures Tracks(w, MacStep(w, i, entry, a), if entry.mac.Some? then [Plan.AdapterMac(i)] else [])
  {
    if entry.mac.Some? {
      TracksOne(w, MacStep(w, i, entry, a), Plan.AdapterMac(i));
    } else {
      TracksNothing(w, MacStep(w, i, entry, a));
    }
  }

  lemma Ipv4Tracks(w: World, i: nat, entry: AdapterConfig, a: nat)
    requires Sized(w) && a < |w.hw.adapters|
    ensures Tracks(w, Ipv4Step(w, i, entry, a), if entry.ipv4.Some? then [Plan.AdapterIpv4(i)] else [])
  {
    if entry.ipv4.Some? {
      var w3 := Tick(Tick(Attempt(w, Plan.AdapterIpv4(i))));
      ReconfigureFrame(w3, Capture(a, w3.inventory.nets[a], w3.nets[a], entry.ipv4.value), entry.ipv4.value);
      TracksOne(w, Ipv4Step(w, i, entry, a), Plan.AdapterIpv4(i));
    } else {
      TracksNothing(w, Ipv4Step(w, i, entry, a));
    }
  }

  lemma DisableTracks(w: World, i: nat, entry: AdapterConfig, a: nat)
    requires Sized(w) && a < |w.hw.adapters|
    ensures Tracks(w, DisableStep(w, i, entry, a), if entry.enabled == Some(false) then [Plan.AdapterState(i, false)] else [])
  {
    if entry.enabled == Some(false) {
      TracksOne(w, DisableStep(w, i, entry, a), Plan.AdapterState(i, false));
    } else {
      TracksNothing(w, DisableStep(w, i, entry, a));
    }
  }

  lemma EntryTracks(w: World, i: nat, entry: AdapterConfig, a: nat)
    requires Sized(w) && a < |w.hw.adapters|
    ensures Tracks(w, ApplyAdapterAt(w, i, entry, a), Plan.AdapterItem(i, entry))
  {
    var e := if entry.enabled == Some(true) then [Plan.AdapterState(i, true)] else [];
    var m := if entry.mac.Some? then [Plan.AdapterMac(i)] else [];
    var n := if entry.ipv4.Some? then [Plan.AdapterIpv4(i)] else [];
    var d := if entry.enabled == Some(false) then [Plan.AdapterState(i, false)] else [];
    EnableTracks(w, i, entry, a);
    var r1 := EnableStep(w, i, entry, a);
    var r2 := if r1.Ok? then MacStep(r1.w, i, entry, a) else r1;
    if r1.Ok? {
      MacTracks(r1.w, i, entry, a);
    }
    TracksThen(w, r1, e, r2, m);
    var r3 := if r2.Ok? then Ipv4Step(r2.w, i, entry, a) else r2;
    if r2.Ok? {
      Ipv4Tracks(r2.w, i, entry, a);
      Ipv4StepFrame(r2.w, i, entry, a);
    }
    TracksThen(w, r2, e + m, r3, n);
    var r4 := if r3.Ok? then DisableStep(r3.w, i, entry, a) else r3;
    if r3.Ok? {
      DisableTracks(r3.w, i, entry, a);
    }
    TracksThen(w, r3, e + m + n, r4, d);
  }

  lemma AdapterTracks(w: World, i: nat, entry: AdapterConfig)
    ensures Tracks(w, ApplyAdapter(w, i, entry), Plan.AdapterItem(i, entry))
  {
    var resolved := ResolveAdapter(w.hw.adapters, entry.selector);
    if resolved.Success? && Sized(w) {
      EntryTracks(w, i, entry, resolved.value);
    } else {
      TracksNothing(w, ApplyAdapter(w, i, entry));
      PrefixOfSum(w.attempted, w.attempted, Plan.AdapterItem(i, entry));
    }
  }

  lemma ProfileTracks(w: World, i: nat, profile: WifiProfile)
    ensures Tracks(w, ApplyProfile(w, i, profile), [Plan.WifiInstall(i)])
  {
    TracksOne(w, ApplyProfile(w, i, profile), Plan.WifiInstall(i));
  }

  lemma ActionTracks(w: World, i: nat, action: WifiAction)
    ensures Tracks(w, ApplyAction(w, i, action), [Plan.WifiRun(i, Plan.KindOf(action))])
  {
    TracksOne(w, ApplyAction(w, i, action), Plan.WifiRun(i, Plan.KindOf(action)));
  }

  lemma ShareTracks(w: World, i: nat, config: NetplanConfig, share: SmbShare)
    ensures Tracks(w, ApplyShare(w, i, config, share), [Plan.ShareApply(i)])
  {
    TracksOne(w, ApplyShare(w, i, config, share), Plan.ShareApply(i));
  }

  lemma MappingTracks(w: World, i: nat, config: NetplanConfig, mapping: SmbMapping)
    ensures Tracks(w, ApplyMapping(w, i, config, mapping), [Plan.MappingApply(i)])
  {
    TracksOne(w, ApplyMapping(w, i, config, mapping), Plan.MappingApply(i));
  }

  lemma IdentityTracks(w: World, config: NetplanConfig, i: nat)
    ensures Tracks(w, ApplyIdentity(w, config, i), Plan.IdentityItem(config, i))
  {
    if Plan.IdentityItem(config, i) == [] {
      TracksNothing(w, ApplyIdentity(w, config, i));
    } else {
      TracksOne(w, ApplyIdentity(w, config, i), Plan.SetIdentity(Plan.FieldAt(i)));
    }
  }

  lemma SystemTracks(w: World, config: NetplanConfig, phase: nat, i: nat)
    requires phase in {Plan.SERVICES, Plan.ACCOUNTS, Plan.FIREWALL} && i < Plan.Count(config, phase)
    ensures Tracks(w, RunItem(w, config, phase, i), Plan.Item(config, phase, i))
  {
    var r := RunItem(w, config, phase, i);
    if Plan.Item(config, phase, i) == [] {
      TracksNothing(w, r);
    } else {
      TracksOne(w, r, Plan.Item(config, phase, i)[0]);
    }
  }

  lemma HookTracks(w: World, config: NetplanConfig, stage: HookStage, i: nat)
    requires i < |config.hooks|
    ensures Tracks(w, RunHookItem(w, config, stage, i), Plan.HookItem(config, stage, i))
  {
    if config.hooks[i].stage == stage {
      TracksOne(w, RunHookItem(w, config, stage, i), Plan.HookRun(i, stage));
    } else {
      TracksNothing(w, RunHookItem(w, config, stage, i));
    }
  }

  lemma DriverTracks(w: World, i: nat, operation: DriverOperation)
    ensures Tracks(w, ApplyDriver(w, i, operation), Plan.DriverItem(i, operation))
  {
    TracksOne(w, ApplyDriver(w, i, operation), Plan.DriverItem(i, operation)[0]);
  }

  lemma ItemTracks(w: World, config: NetplanConfig, phase: nat, i: nat)
    requires phase < Plan.PHASES && i < Plan.Count(config, phase)
    ensures Tracks(w, RunItem(w, config, phase, i), Plan.Item(config, phase, i))
  {
    match phase
    case 0 => HookTracks(w, config, BeforeApply, i);
    case 1 => IdentityTracks(w, config, i);
    case 2 => AdapterTracks(w, i, config.adapters[i]);
    case 3 => ProfileTracks(w, i, config.wifi[i]);
    case 4 => ActionTracks(w, i, config.wifiActions[i]);
    case 7 => ShareTracks(w, i, config, config.shares[i]);
    case 8 => MappingTracks(w, i, config, config.mappings[i]);
    case 10 => DriverTracks(w, i, config.drivers[i]);
    case 11 => HookTracks(w, config, AfterApply, i);
    case 12 => HookTracks(w, config, AfterRollback, i);
    case _ => SystemTracks(w, config, phase, i);
  }

  lemma {:induction false} PhaseTracks(w: World, config: NetplanConfig, phase: nat, i: nat)
    requires phase < Plan.PHASES && i <= Plan.Count(config, phase)
    ensures Tracks(w, RunPhase(w, config, phase, i), Plan.PhaseFrom(config, phase, i))
    decreases Plan.Count(config, phase) - i
  {
    if i == Plan.Count(config, phase) {
      TracksNothing(w, Ok(w));
    } else {
      ItemTracks(w, config, phase, i);
      var r := RunItem(w, config, phase, i);
      if r.Ok? {
        PhaseTracks(r.w, config, phase, i + 1);
      }
      TracksThen(w, r, Plan.Item(config, phase, i), RunPhase(w, config, phase, i), Plan.PhaseFrom(config, phase, i + 1));
    }
  }

  lemma {:induction false} PhasesTrack(w: World, config: NetplanConfig, phase: nat, last: nat)
    requires phase <= last <= Plan.PHASES
    ensures Tracks(w, RunPhases(w, config, phase, last), Plan.Phases(config, phase, last))
    decreases last - phase
  {
    if phase == last {
      TracksNothing(w, Ok(w));
    } else {
      var r0 := Enter(w, config, phase);
      assert r0.w.attempted == w.attempted;
      TracksNothing(w, r0);
      var r1 := if r0.Ok? then RunPhase(r0.w, config, phase, 0) else r0;
      if r0.Ok? {
        PhaseTracks(r0.w, config, phase, 0);
      }
      TracksThen(w, r0, [], r1, Plan.PhaseFrom(config, phase, 0));
      var r2 := if r1.Ok? then RunPhases(r1.w, config, phase + 1, last) else r1;
      if r1.Ok? {
        PhasesTrack(r1.w, config, phase + 1, last);
      }
      TracksThen(w, r1, [] + Plan.PhaseFrom(config, phase, 0), r2, Plan.Phases(config, phase + 1, last));
      assert [] + Plan.PhaseFrom(config, phase, 0) == Plan.PhaseFrom(config, phase, 0);
    }
  }

  lemma ForwardTracks(w: World, config: NetplanConfig)
    ensures Tracks(w, Forward(w, config).0, Plan.Phases(config, Plan.IDENTITY, Plan.ROLLBACK_HOOKS))
  {
    RunPhasesSplit(w, config, Plan.IDENTITY, Plan.DRIVERS, Plan.ROLLBACK_HOOKS);
    PhasesTrack(w, config, Plan.IDENTITY, Plan.ROLLBACK_HOOKS);
  }

  /** The plan without its after-rollback hooks. */
  function ForwardPlan(config: NetplanConfig): seq<Plan.Operation> {
    Plan.Phases(config, 0, Plan.ROLLBACK_HOOKS)
  }

  function RollbackHooks(config: NetplanConfig): seq<Plan.Operation> {
    Plan.PhaseFrom(config, Plan.ROLLBACK_HOOKS, 0)
  }

  // The after-rollback hooks.

  /** Call number `j` from here on goes well. */
  predicate Goes(faults: seq<Fault>, j: nat) {
    j >= |faults| || !faults[j].Bad?
  }

  /** The hooks started: all of them, or those up to and including the first that fails. */
  ghost predicate HooksStarted(faults: seq<Fault>, hooks: seq<Plan.Operation>, started: seq<Plan.Operation>) {
    && IsPrefix(started, hooks)
    && (forall j: nat :: j + 1 < |started| ==> Goes(faults, j))
    && (started == hooks || (started != [] && !Goes(faults, |started| - 1)))
  }

  ghost predicate AllGo(faults: seq<Fault>, n: nat) {
    forall j: nat :: j < n ==> Goes(faults, j)
  }

  /** Nothing but the faults and the attempts has changed. */
  ghost predicate OnlyTried(w: World, after: World) {
    after == w.(faults := after.faults, attempted := after.attempted)
  }

  ghost predicate HooksFrom(w: World, r: Run, hooks: seq<Plan.Operation>) {
    && OnlyTried(w, r.w) && (r.Ok? <==> AllGo(w.faults, |hooks|))
    && exists started :: HooksStarted(w.faults, hooks, started) && r.w.attempted == w.attempted + started
  }

  lemma NoHookStarted(w: World)
    ensures HooksFrom(w, Ok(w), [])
  {
    assert HooksStarted(w.faults, [], []) && w.attempted == w.attempted + [];
  }

  /** After one call that goes well. */
  lemma NextGoes(faults: seq<Fault>, j: nat)
    ensures Goes(if faults == [] then [] else faults[1..], j) <==> Goes(faults, j + 1)
  {
  }

  lemma MoreStarted(faults: seq<Fault>, hook: Plan.Operation, rest: seq<Plan.Operation>, later: seq<Plan.Operation>)
    requires Goes(faults, 0) && HooksStarted(if faults == [] then [] else faults[1..], rest, later)
    ensures HooksStarted(faults, [hook] + rest, [hook] + later)
  {
    forall j: nat | j + 1 < |later| + 1
      ensures Goes(faults, j)
    {
      if j > 0 {
        NextGoes(faults, j - 1);
      }
    }
    assert ([hook] + rest)[..|later| + 1] == [hook] + rest[..|later|];
  }

  lemma AllGoNext(faults: seq<Fault>, n: nat)
    requires Goes(faults, 0)
    ensures AllGo(faults, n + 1) <==> AllGo(if faults == [] then [] else faults[1..], n)
  {
    var next := if faults == [] then [] else faults[1..];
    if AllGo(faults, n + 1) {
      forall j: nat | j < n
        ensures Goes(next, j)
      {
        NextGoes(faults, j);
      }
    }
    if AllGo(next, n) {
      forall j: nat | j < n + 1
        ensures Goes(faults, j)
      {
        if j > 0 {
          NextGoes(faults, j - 1);
        }
      }
    }
  }

  /** One hook, and then the others. */
  lemma HookStarted(w: World, hook: Plan.Operation, r: Run, rest: seq<Plan.Operation>)
    requires Goes(w.faults, 0) ==> HooksFrom(RunHook(w, hook).w, r, rest)
    requires !Goes(w.faults, 0) ==> r == RunHook(w, hook)
    ensures HooksFrom(w, r, [hook] + rest)
  {
    var v := RunHook(w, hook).w;
    if Goes(w.faults, 0) {
      var later :| HooksStarted(v.faults, rest, later) && r.w.attempted == v.attempted + later;
      MoreStarted(w.faults, hook, rest, later);
      AllGoNext(w.faults, |rest|);
      assert r.w.attempted == w.attempted + ([hook] + later);
    } else {
      assert HooksStarted(w.faults, [hook] + rest, [hook]) && r.w.attempted == w.attempted + [hook];
    }
  }

  lemma {:induction false} HooksRun(w: World, config: NetplanConfig, i: nat)
    requires i <= |config.hooks|
    ensures HooksFrom(w, RunPhase(w, config, Plan.ROLLBACK_HOOKS, i), Plan.PhaseFrom(config, Plan.ROLLBACK_HOOKS, i))
    decreases |config.hooks| - i
  {
    var r := RunPhase(w, config, Plan.ROLLBACK_HOOKS, i);
    if i == |config.hooks| {
      NoHookStarted(w);
    } else {
      var item := RunHookItem(w, config, AfterRollback, i);
      assert RunItem(w, config, Plan.ROLLBACK_HOOKS, i) == item;
      if item.Ok? {
        HooksRun(item.w, config, i + 1);
      }
      var rest := Plan.PhaseFrom(config, Plan.ROLLBACK_HOOKS, i + 1);
      if config.hooks[i].stage == AfterRollback {
        HookStarted(w, Plan.HookRun(i, AfterRollback), r, rest);
      } else {
        assert [] + rest == rest;
      }
    }
  }

  /** The hooks of this stage are those the document declares for it. */
  lemma {:induction false} HooksDeclared(config: NetplanConfig, i: nat)
    requires i <= |config.hooks|
    ensures forall op :: op in Plan.PhaseFrom(config, Plan.ROLLBACK_HOOKS, i) <==>
      op.HookRun? && op.stage == AfterRollback && i <= op.hook < |config.hooks| && config.hooks[op.hook].stage == AfterRollback
    decreases |config.hooks| - i
  {
    if i < |config.hooks| {
      HooksDeclared(config, i + 1);
    }
  }

  /** When no after-rollback hook fails, every one of them is started, in order. */
  lemma AllHooksStarted(faults: seq<Fault>, hooks: seq<Plan.Operation>, started: seq<Plan.Operation>)
    requires HooksStarted(faults, hooks, started) && AllGo(faults, |hooks|)
    ensures started == hooks
  {
  }

  /** The operations attempted, in order, compared with the plan. */
  ghost predicate PlanFollowed(w: World, config: NetplanConfig) {
    var (final, report) := Apply(w, config);
    var before := RunPhases(w, config, Plan.BEFORE_HOOKS, Plan.IDENTITY);
    if before.Err? then
      !report.ok && IsPrefix(final.attempted, Plan.PhaseFrom(config, Plan.BEFORE_HOOKS, 0))
    else
      var failed := Forward(before.w, config).0.w;
      && IsPrefix(Plan.PhaseFrom(config, Plan.BEFORE_HOOKS, 0), failed.attempted)
      && IsPrefix(failed.attempted, ForwardPlan(config))
      && (if report.ok then final.attempted == ForwardPlan(config)
          else exists started ::
            && HooksStarted(RollbackAll(failed, failed.rollback).0.faults, RollbackHooks(config), started)
            && final.attempted == failed.attempted + started)
  }

  /**
   A live run attempts a prefix of the plan without its after-rollback hooks, all of it on
   success. A failing before-apply hook ends the run; after any later failure come the after-rollback
   hooks, all of them or those up to the first that fails, and nothing else.
   */
  lemma ApplyFollowsPlan(w: World, config: NetplanConfig)
    requires w.attempted == []
    ensures Plan.PlanOf(config) == ForwardPlan(config) + RollbackHooks(config)
    ensures PlanFollowed(w, config)
  {
    Plan.PhasesSplit(config, 0, Plan.ROLLBACK_HOOKS, Plan.PHASES);
    assert Plan.Phases(config, Plan.ROLLBACK_HOOKS, Plan.PHASES) == RollbackHooks(config);
    Plan.PhasesSplit(config, 0, Plan.IDENTITY, Plan.ROLLBACK_HOOKS);
    assert Plan.Phases(config, Plan.BEFORE_HOOKS, Plan.IDENTITY) == Plan.PhaseFrom(config, Plan.BEFORE_HOOKS, 0);
    PhasesTrack(w, config, Plan.BEFORE_HOOKS, Plan.IDENTITY);
    var before := RunPhases(w, config, Plan.BEFORE_HOOKS, Plan.IDENTITY);
    assert w.attempted + Plan.PhaseFrom(config, Plan.BEFORE_HOOKS, 0) == Plan.PhaseFrom(config, Plan.BEFORE_HOOKS, 0);
    if before.Ok? {
      ForwardTracks(before.w, config);
      var run := Forward(before.w, config).0;
      if run.Err? {
        HooksRun(RollbackAll(run.w, run.w.rollback).0, config, 0);
      }
    }
  }
}
