/**
 Runs that report `rolled_back` although the machine differs: one for each thing the exact
 condition of the restoration theorem names, and one for what the IPv4 comparison misses.
 */
module RollbackGaps {
  import opened Std
  import opened Text
  import opened Config
  import opened Model
  import opened Selectors
  import opened Ipv4Recovery
  import opened Ipv4Interruption
  import opened Machine
  import opened Transaction
  import opened Restoration
  import opened AdapterUndo
  import opened DriverPhase
  import opened RunInvariant
  import opened RollbackTheorem
  import Plan

  // Phases with nothing to do.

  ghost predicate Idle(config: NetplanConfig, phase: nat) {
    match phase
    case 0 => forall h :: h in config.hooks ==> h.stage != BeforeApply
    case 1 => config.identity.None?
    case 2 => config.adapters == []
    case 3 => config.wifi == [] && config.wifiActions == []
    case 4 => config.wifiActions == []
    case 5 => config.services == []
    case 6 => config.accounts == []
    case 7 => config.shares == []
    case 8 => config.mappings == []
    case 9 => config.firewall.None?
    case 10 => config.drivers == []
    case 11 => forall h :: h in config.hooks ==> h.stage != AfterApply
    case 12 => forall h :: h in config.hooks ==> h.stage != AfterRollback
    case _ => false
  }

  lemma {:induction false} NothingIterated(item: (World, nat) -> Run, n: nat, w: World, i: nat)
    requires i <= n && forall j :: i <= j < n ==> item(w, j) == Ok(w)
    ensures Iterate(item, n, w, i) == Ok(w)
    decreases n - i
  {
    if i < n {
      NothingIterated(item, n, w, i + 1);
    }
  }

  lemma NoOperation(w: World, config: NetplanConfig, phase: nat)
    requires phase < Plan.PHASES
    requires forall j :: 0 <= j < Plan.Count(config, phase) ==> RunItem(w, config, phase, j) == Ok(w)
    ensures RunPhase(w, config, phase, 0) == Ok(w)
  {
    PhaseIterates(w, config, phase, 0);
    NothingIterated(ItemOf(config, phase), Plan.Count(config, phase), w, 0);
  }

  lemma IdlePhase(w: World, config: NetplanConfig, phase: nat)
    requires phase < Plan.PHASES && Idle(config, phase)
    ensures Enter(w, config, phase) == Ok(w) && RunPhase(w, config, phase, 0) == Ok(w)
  {
    NoOperation(w, config, phase);
  }

  lemma {:induction false} IdlePhases(w: World, config: NetplanConfig, phase: nat, last: nat)
    requires phase <= last <= Plan.PHASES && forall p :: phase <= p < last ==> Idle(config, p)
    ensures RunPhases(w, config, phase, last) == Ok(w)
    decreases last - phase
  {
    if phase < last {
      IdlePhase(w, config, phase);
      IdlePhases(w, config, phase + 1, last);
    }
  }

  /** Nothing to do until phase `active`, which is entered in `entered` and ends in `r`. */
  lemma OnlyPhase(w: World, config: NetplanConfig, phase: nat, active: nat, last: nat, entered: World, r: Run)
    requires phase <= active < last <= Plan.PHASES && forall p :: phase <= p < active ==> Idle(config, p)
    requires Enter(w, config, active) == Ok(entered) && RunPhase(entered, config, active, 0) == r
    ensures RunPhases(w, config, phase, last) == if r.Err? then r else RunPhases(r.w, config, active + 1, last)
  {
    IdlePhases(w, config, phase, active);
    RunPhasesSplit(w, config, phase, active, last);
  }

  /** A run that gets no further than the second declaration of one reversible phase. */
  lemma SecondFails(w: World, config: NetplanConfig, phase: nat, first: World, second: World)
    requires Plan.IDENTITY <= phase < Plan.DRIVERS && Plan.Count(config, phase) >= 2 && Enter(w, config, phase) == Ok(w)
    requires forall p :: Plan.IDENTITY <= p < phase ==> Idle(config, p)
    requires RunItem(w, config, phase, 0) == Ok(first) && RunItem(first, config, phase, 1) == Err(second)
    ensures Forward(w, config) == (Err(second), false)
  {
    assert RunPhase(first, config, phase, 1) == Err(second);
    OnlyPhase(w, config, Plan.IDENTITY, phase, Plan.DRIVERS, w, Err(second));
  }

  lemma DriverItem(w: World, config: NetplanConfig, i: nat)
    requires i < |config.drivers|
    ensures RunItem(w, config, Plan.DRIVERS, i) == ApplyDriver(w, i, config.drivers[i])
  {
  }

  lemma OnlyItem(w: World, config: NetplanConfig, phase: nat, r: Run)
    requires phase < Plan.PHASES && Plan.Count(config, phase) == 1 && RunItem(w, config, phase, 0) == r
    ensures RunPhase(w, config, phase, 0) == r
  {
    if r.Ok? {
      assert RunPhase(r.w, config, phase, 1) == Ok(r.w);
    }
  }

  /** A run without hooks at either end that fails in `failed`. */
  lemma ApplyFails(w: World, config: NetplanConfig, failed: World, reached: bool)
    requires Idle(config, Plan.BEFORE_HOOKS) && Idle(config, Plan.ROLLBACK_HOOKS)
    requires Forward(w, config) == (Err(failed), reached)
    ensures var (restored, errors) := RollbackAll(failed, failed.rollback);
      Apply(w, config) == (restored, Report(false, failed.rollback != [] && !(reached && InstallsDriver(config)) && errors == 0))
  {
    IdlePhases(w, config, Plan.BEFORE_HOOKS, Plan.IDENTITY);
    var restored := RollbackAll(failed, failed.rollback).0;
    IdlePhases(restored, config, Plan.ROLLBACK_HOOKS, Plan.PHASES);
  }

  lemma OneRecord(w: World, u: Undo, r: Run)
    requires Execute(w, u) == r
    ensures RollbackAll(w, [u]) == (r.w, if r.Err? then 1 else 0)
  {
    var log := [u];
    assert log[..|log| - 1] == [];
    assert RollbackAll(r.w, []) == (r.w, 0);
  }

  // A machine with nothing on it, and what is put there.

  const NO_NET: Net := Net(true, [], [], [], [], false, [], false)
  const JUNK: Junk := Junk(NO_NET, Transitional, None, false, Firewall(true, true, true))
  const BARE: Core :=
    Core("a", InWorkgroup("w"), "", [], [], map[], map[], map[], {}, map[], map[], {}, Firewall(true, true, true))

  function Start(hw: Hardware, core: Core, nets: seq<Net>, faults: seq<Fault>): World {
    World(hw, core, nets, [], faults, [], Inventory([], []), [], {})
  }

  const NO_HARDWARE: Hardware := Hardware([], [], Environment([], [], [], [], true, true), {})

  /** Reported as rolled back after a run that validation and preflight accept. */
  ghost predicate RolledBackRun(w: World, config: NetplanConfig) {
    && Ready(w) && SharesDistinct(config) && Protected(config, w.hw.adapters, w.hw.wifi)
    && Apply(w, config).1.rolledBack
  }

  lemma NothingToProtect(w: World, config: NetplanConfig)
    requires config.protectedInterfaces == [] && config.adapters == [] && config.wifi == [] && config.wifiActions == [] && config.drivers == []
    ensures Protected(config, w.hw.adapters, w.hw.wifi)
  {
    assert forall t: Target :: !Declares(config, t);
  }

  // A service in transition is stopped.

  const SERVICES: NetplanConfig := EMPTY_CONFIG.(services := [Service("s", Running), Service("t", Running)])
  const STARTING: World := Start(NO_HARDWARE, BARE.(services := map["s" := Transitional]), [], [])

  const STARTED: World :=
    STARTING.(core := BARE.(services := map["s" := RunningNow]), rollback := [UndoService("s", false)], attempted := [Plan.ServiceSwitch(0)])

  const ONE_MISSING: World := STARTED.(attempted := [Plan.ServiceSwitch(0), Plan.ServiceSwitch(1)])

  lemma ServiceRun()
    ensures Forward(STARTING, SERVICES) == (Err(ONE_MISSING), false)
  {
    assert Fold("s") == "s" && Fold("t") == "t" && "t"[0] != "s"[0];
    assert map["s" := Transitional]["s" := RunningNow] == map["s" := RunningNow];
    assert ApplyService(STARTING, 0, SERVICES.services[0]) == Ok(STARTED);
    assert ApplyService(STARTED, 1, SERVICES.services[1]) == Err(ONE_MISSING);
    SecondFails(STARTING, SERVICES, Plan.SERVICES, STARTED, ONE_MISSING);
  }

  lemma ServiceStopped()
    ensures var (restored, errors) := RollbackAll(ONE_MISSING, ONE_MISSING.rollback);
      errors == 0 && LookUp(restored.core.services, "s") == Some(StoppedNow)
  {
    var u := UndoService("s", false);
    var restored := ONE_MISSING.(core := BARE.(services := map["s" := RunningNow]["s" := StoppedNow]));
    assert Execute(ONE_MISSING, u) == Ok(restored);
    OneRecord(ONE_MISSING, u, Ok(restored));
  }

  /** A service that was starting when the run began is stopped by the rollback, which reports success. */
  lemma ServiceInTransition()
    ensures RolledBackRun(STARTING, SERVICES)
    ensures var final := Apply(STARTING, SERVICES).0;
      LookUp(STARTING.core.services, "s") == Some(Transitional) && LookUp(final.core.services, "s") == Some(StoppedNow)
  {
    NothingToProtect(STARTING, SERVICES);
    ServiceRun();
    ServiceStopped();
    ApplyFails(STARTING, SERVICES, ONE_MISSING, false);
  }

  // A connection without a drive letter that existed is cancelled.

  const FOLDER: SmbMapping := SmbMapping("\\\\h\\s", None, None, None, None)
  const DRIVE: SmbMapping := SmbMapping("\\\\h\\s", Some("z:"), None, None, None)
  const MAPPINGS: NetplanConfig := EMPTY_CONFIG.(mappings := [FOLDER, DRIVE])
  const CONNECTED: World := Start(NO_HARDWARE, BARE.(remotes := {"\\\\h\\s"}, drives := map["z:" := "\\\\h\\o"]), [], [])

  const MAPPED: World := CONNECTED.(rollback := [UndoMapping(Remote("\\\\h\\s"))], attempted := [Plan.MappingApply(0)])
  const DRIVE_TAKEN: World := MAPPED.(attempted := [Plan.MappingApply(0), Plan.MappingApply(1)])

  lemma MappingRun()
    ensures Forward(CONNECTED, MAPPINGS) == (Err(DRIVE_TAKEN), false)
  {
    assert Fold("\\\\h\\s") == "\\\\h\\s" && Fold("z:") == "z:" && Fold("\\\\h\\o") == "\\\\h\\o";
    assert {"\\\\h\\s"} + {"\\\\h\\s"} == {"\\\\h\\s"};
    assert ApplyMapping(CONNECTED, 0, MAPPINGS, FOLDER) == Ok(MAPPED);
    assert "\\\\h\\s"[4] != "\\\\h\\o"[4];
    assert ApplyMapping(MAPPED, 1, MAPPINGS, DRIVE) == Err(DRIVE_TAKEN);
    SecondFails(CONNECTED, MAPPINGS, Plan.MAPPINGS, MAPPED, DRIVE_TAKEN);
  }

  lemma MappingUndone()
    ensures var (restored, errors) := RollbackAll(DRIVE_TAKEN, DRIVE_TAKEN.rollback);
      errors == 0 && "\\\\h\\s" !in restored.core.remotes
  {
    var u := UndoMapping(Remote("\\\\h\\s"));
    var restored := DRIVE_TAKEN.(core := DRIVE_TAKEN.core.(remotes := {"\\\\h\\s"} - {"\\\\h\\s"}));
    assert Execute(DRIVE_TAKEN, u) == Ok(restored);
    OneRecord(DRIVE_TAKEN, u, Ok(restored));
  }

  /** A connection that existed before the run is gone after a rollback that reports success. */
  lemma ConnectionCancelled()
    ensures RolledBackRun(CONNECTED, MAPPINGS)
    ensures "\\\\h\\s" in CONNECTED.core.remotes && "\\\\h\\s" !in Apply(CONNECTED, MAPPINGS).0.core.remotes
  {
    NothingToProtect(CONNECTED, MAPPINGS);
    MappingRun();
    MappingUndone();
    ApplyFails(CONNECTED, MAPPINGS, DRIVE_TAKEN, false);
  }

  // A share whose update failed twice stays as declared.

  const ADDED: SmbShare := SmbShare("t", "c:\\t", None, true, [])
  const UPDATED: SmbShare := SmbShare("s", "c:\\n", None, true, [])
  const SHARES: NetplanConfig := EMPTY_CONFIG.(shares := [ADDED, UPDATED])
  const OLD_SHARE: ShareState := ShareState("c:\\o", None, Everyone(false), 0)
  const NEW_SHARE: ShareState := ShareState("c:\\n", None, Everyone(true), 0)
  const ADDED_SHARE: ShareState := ShareState("c:\\t", None, Everyone(true), 0)

  /** One share is added and the other updated; securing it fails, and so does writing it back. */
  const SHARED: World :=
    Start(NO_HARDWARE, BARE.(shares := map["s" := OLD_SHARE]), [], [Good, Good, Good, Good, Good, Good, Bad(JUNK), Bad(JUNK)])

  const SHARED_FIRST: World :=
    SHARED.(core := BARE.(shares := map["s" := OLD_SHARE, "t" := ADDED_SHARE]), rollback := [UndoShare("t", None)],
            faults := [Good, Good, Good, Bad(JUNK), Bad(JUNK)], attempted := [Plan.ShareApply(0)])

  const SHARED_SECOND: World :=
    SHARED_FIRST.(core := BARE.(shares := map["s" := NEW_SHARE, "t" := ADDED_SHARE]), faults := [],
                  attempted := [Plan.ShareApply(0), Plan.ShareApply(1)], unrepaired := {"s"})

  lemma ShareAdded()
    ensures ApplyShare(SHARED, 0, SHARES, ADDED) == Ok(SHARED_FIRST)
  {
    assert Fold("t") == "t" && "t"[0] != "s"[0];
    assert map["s" := OLD_SHARE]["t" := ADDED_SHARE] == map["s" := OLD_SHARE, "t" := ADDED_SHARE];
    assert SHARED.faults[1..][1..] == [Good, Good, Good, Good, Bad(JUNK), Bad(JUNK)];
    assert SHARED.faults[1..][1..][1..] == SHARED_FIRST.faults;
  }

  /** The world in which the second share is written. */
  const SHARED_CAPTURED: World :=
    SHARED_FIRST.(faults := [Good, Bad(JUNK), Bad(JUNK)], attempted := [Plan.ShareApply(0), Plan.ShareApply(1)])

  lemma ShareDamaged()
    ensures WriteShare(SHARED_CAPTURED, "s", Some(OLD_SHARE), NEW_SHARE) == Err(SHARED_SECOND)
  {
    assert "t"[0] != "s"[0] && "c:\\n"[3] != "c:\\o"[3];
    assert SHARED_CAPTURED.core.shares["s" := NEW_SHARE] == SHARED_SECOND.core.shares;
    assert [Good, Bad(JUNK), Bad(JUNK)][1..] == [Bad(JUNK), Bad(JUNK)];
    assert [Bad(JUNK), Bad(JUNK)][1..] == [Bad(JUNK)] && [Bad(JUNK)][1..] == [];
    assert {} + {"s"} == {"s"};
  }

  lemma ShareUpdated()
    ensures ApplyShare(SHARED_FIRST, 1, SHARES, UPDATED) == Err(SHARED_SECOND)
  {
    assert Fold("s") == "s" && "t"[0] != "s"[0];
    assert SHARED_FIRST.faults[1..][1..] == SHARED_CAPTURED.faults;
    assert LookUp(SHARED_FIRST.core.shares, "s") == Some(OLD_SHARE);
    ShareDamaged();
  }

  lemma FirstShare()
    ensures RunItem(SHARED, SHARES, Plan.SHARES, 0) == Ok(SHARED_FIRST)
  {
    ShareAdded();
    ShareItem(SHARED, SHARES, 0);
  }

  lemma SecondShare()
    ensures RunItem(SHARED_FIRST, SHARES, Plan.SHARES, 1) == Err(SHARED_SECOND)
  {
    ShareUpdated();
    ShareItem(SHARED_FIRST, SHARES, 1);
  }

  lemma OnlyShares(config: NetplanConfig)
    requires config == EMPTY_CONFIG.(shares := config.shares)
    ensures forall p :: Plan.IDENTITY <= p < Plan.SHARES ==> Idle(config, p)
    ensures Plan.Count(config, Plan.SHARES) == |config.shares|
    ensures forall w :: Enter(w, config, Plan.SHARES) == Ok(w)
  {
  }

  lemma ShareRun()
    ensures Forward(SHARED, SHARES) == (Err(SHARED_SECOND), false)
  {
    FirstShare();
    SecondShare();
    OnlyShares(SHARES);
    SecondFails(SHARED, SHARES, Plan.SHARES, SHARED_FIRST, SHARED_SECOND);
  }

  lemma ShareUndone()
    ensures var (restored, errors) := RollbackAll(SHARED_SECOND, SHARED_SECOND.rollback);
      errors == 0 && LookUp(restored.core.shares, "s") == Some(NEW_SHARE)
  {
    var u := UndoShare("t", None);
    var restored := SHARED_SECOND.(core := BARE.(shares := SHARED_SECOND.core.shares - {"t"}));
    assert "t"[0] != "s"[0];
    assert Execute(SHARED_SECOND, u) == Ok(restored);
    OneRecord(SHARED_SECOND, u, Ok(restored));
  }

  /** An existing share is left as declared by a run whose rollback reports success. */
  lemma ShareNotPutBack()
    ensures RolledBackRun(SHARED, SHARES)
    ensures var final := Apply(SHARED, SHARES).0;
      LookUp(SHARED.core.shares, "s") == Some(OLD_SHARE) && LookUp(final.core.shares, "s") == Some(NEW_SHARE)
  {
    NothingToProtect(SHARED, SHARES);
    assert Fold("s") == "s" && Fold("t") == "t" && "t"[0] != "s"[0];
    ShareRun();
    ShareUndone();
    ApplyFails(SHARED, SHARES, SHARED_SECOND, false);
  }

  // A driver-phase restart turns an adapter on for good.

  const FIRST_ADAPTER: InterfaceSelector := InterfaceSelector(Some(1), None, None, None, None)
  const LOCAL: SmbAccount := SmbAccount("i", Local, "u", Some(Literal("p")))
  const RESTARTS: NetplanConfig :=
    EMPTY_CONFIG.(accounts := [LOCAL], drivers := [RestartAdapter(FIRST_ADAPTER)], hooks := [Hook(AfterApply, "h", [], true)])
  const ONE_ADAPTER: Hardware :=
    Hardware([AdapterInfo(1, "n", None, Some("g"), None, "", true, [], [])], [], Environment([], [], [3], [], true, true), {})

  /** An account is created, the adapter restarted, and then a hook fails. */
  const SWITCHED_OFF: World :=
    Start(ONE_ADAPTER, BARE.(enabled := [false], macs := [None]), [NO_NET], [Good, Good, Good, Good, Good, Good, Bad(JUNK)])

  const WITH_ACCOUNT: World :=
    SWITCHED_OFF.(core := SWITCHED_OFF.core.(accounts := {"u"}), rollback := [UndoAccount("u")],
                  faults := [Good, Good, Good, Bad(JUNK)], attempted := [Plan.AccountEnsure(0)])

  const RESTARTED: World :=
    WITH_ACCOUNT.(core := WITH_ACCOUNT.core.(enabled := [true]), faults := [Bad(JUNK)], switches := [(0, false), (0, true)],
                  attempted := [Plan.AccountEnsure(0), Plan.DriverRestart(0)])

  const HOOK_FAILED: World :=
    RESTARTED.(faults := [], attempted := RESTARTED.attempted + [Plan.HookRun(0, AfterApply)])

  lemma AccountCreated()
    ensures ApplyAccount(SWITCHED_OFF, 0, LOCAL) == Ok(WITH_ACCOUNT)
  {
    assert Fold("u") == "u" && {} + {"u"} == {"u"};
    assert SWITCHED_OFF.faults[1..][1..][1..] == WITH_ACCOUNT.faults;
  }

  lemma FirstAdapterResolves()
    ensures ResolveAdapter(ONE_ADAPTER.adapters, FIRST_ADAPTER) == Success(0)
  {
    assert OnlyMatch(ONE_ADAPTER.adapters, FIRST_ADAPTER, 0);
  }

  lemma RestartedWell(w: World, a: nat)
    requires a < |w.core.enabled| && |w.faults| >= 2 && w.faults[0] == w.faults[1] == Good
    ensures Machine.RestartAdapter(w, a)
         == Ok(w.(core := w.core.(enabled := w.core.enabled[a := true]), faults := w.faults[2..],
                  switches := w.switches + [(a, false)] + [(a, true)]))
  {
    assert w.core.enabled[a := false][a := true] == w.core.enabled[a := true];
    assert w.faults[1..][1..] == w.faults[2..];
  }

  lemma AdapterRestarted()
    ensures ApplyDriver(WITH_ACCOUNT, 0, RESTARTS.drivers[0]) == Ok(RESTARTED)
  {
    FirstAdapterResolves();
    var w1 := Tick(Attempt(WITH_ACCOUNT, Plan.DriverRestart(0)));
    assert w1.faults == [Good, Good, Bad(JUNK)] && w1.faults[2..] == [Bad(JUNK)];
    RestartedWell(w1, 0);
    assert [false][0 := true] == [true] && [] + [(0, false)] + [(0, true)] == [(0, false), (0, true)];
  }

  lemma RestartReversible()
    ensures RunPhases(SWITCHED_OFF, RESTARTS, Plan.IDENTITY, Plan.DRIVERS) == Ok(WITH_ACCOUNT)
  {
    AccountCreated();
    assert RunItem(SWITCHED_OFF, RESTARTS, Plan.ACCOUNTS, 0) == ApplyAccount(SWITCHED_OFF, 0, LOCAL);
    OnlyItem(SWITCHED_OFF, RESTARTS, Plan.ACCOUNTS, Ok(WITH_ACCOUNT));
    OnlyPhase(SWITCHED_OFF, RESTARTS, Plan.IDENTITY, Plan.ACCOUNTS, Plan.DRIVERS, SWITCHED_OFF, Ok(WITH_ACCOUNT));
    IdlePhases(WITH_ACCOUNT, RESTARTS, Plan.SHARES, Plan.DRIVERS);
  }

  lemma HookFails()
    ensures RunPhases(RESTARTED, RESTARTS, Plan.AFTER_HOOKS, Plan.ROLLBACK_HOOKS) == Err(HOOK_FAILED)
  {
    assert RunHookItem(RESTARTED, RESTARTS, AfterApply, 0) == Err(HOOK_FAILED);
    assert RunItem(RESTARTED, RESTARTS, Plan.AFTER_HOOKS, 0) == RunHookItem(RESTARTED, RESTARTS, AfterApply, 0);
    OnlyItem(RESTARTED, RESTARTS, Plan.AFTER_HOOKS, Err(HOOK_FAILED));
    OnlyPhase(RESTARTED, RESTARTS, Plan.AFTER_HOOKS, Plan.AFTER_HOOKS, Plan.ROLLBACK_HOOKS, RESTARTED, Err(HOOK_FAILED));
  }

  lemma RestartLate()
    ensures RunPhases(WITH_ACCOUNT, RESTARTS, Plan.DRIVERS, Plan.ROLLBACK_HOOKS) == Err(HOOK_FAILED)
  {
    AdapterRestarted();
    DriverItem(WITH_ACCOUNT, RESTARTS, 0);
    OnlyItem(WITH_ACCOUNT, RESTARTS, Plan.DRIVERS, Ok(RESTARTED));
    OnlyPhase(WITH_ACCOUNT, RESTARTS, Plan.DRIVERS, Plan.DRIVERS, Plan.ROLLBACK_HOOKS, WITH_ACCOUNT, Ok(RESTARTED));
    HookFails();
  }

  lemma RestartRun()
    ensures Forward(SWITCHED_OFF, RESTARTS) == (Err(HOOK_FAILED), true)
  {
    RestartReversible();
    RestartLate();
  }

  lemma AccountUndone()
    ensures var (restored, errors) := RollbackAll(HOOK_FAILED, HOOK_FAILED.rollback); errors == 0 && restored.core.enabled == [true]
  {
    var u := UndoAccount("u");
    var restored := HOOK_FAILED.(core := HOOK_FAILED.core.(accounts := {"u"} - {"u"}));
    assert Execute(HOOK_FAILED, u) == Ok(restored);
    OneRecord(HOOK_FAILED, u, Ok(restored));
  }

  lemma RestartProtected()
    ensures Protected(RESTARTS, ONE_ADAPTER.adapters, [])
  {
    FirstAdapterResolves();
    forall t: Target | Declares(RESTARTS, t)
      ensures TargetOf(RESTARTS, ONE_ADAPTER.adapters, [], t).Success?
    {
      assert t == DriverTarget(0);
    }
  }

  /** An adapter that was off is on after a rollback that reports success. */
  lemma AdapterLeftOn()
    ensures RolledBackRun(SWITCHED_OFF, RESTARTS)
    ensures SWITCHED_OFF.core.enabled == [false] && Apply(SWITCHED_OFF, RESTARTS).0.core.enabled == [true]
  {
    RestartProtected();
    RestartRun();
    AccountUndone();
    ApplyFails(SWITCHED_OFF, RESTARTS, HOOK_FAILED, true);
    assert !InstallsDriver(RESTARTS);
  }

  // The IPv6 servers of a target stay on an adapter whose DNS came from DHCP.

  const TARGET: Ipv4Config := Static([HOST], [1], [V4(2), V6(7)], [])
  const ADDRESSES: NetplanConfig :=
    EMPTY_CONFIG.(adapters := [AdapterConfig(FIRST_ADAPTER, None, None, Some(TARGET))], services := [Service("t", Running)])
  const ON_DHCP: Net := Net(true, [], [OTHER_HOST], [], [V4(3)], false, [], false)
  const LEASED: World := Start(ONE_ADAPTER, BARE.(enabled := [true], macs := [None]), [ON_DHCP], [])

  function ServersRecord(): NetRestore {
    Capture(0, ON_DHCP, ON_DHCP, TARGET)
  }

  function Configured(): World {
    LEASED.(inventory := Inventory([true], [ON_DHCP]), rollback := [UndoIpv4(ServersRecord())],
            nets := [RunAll(ONE_ADAPTER.network, StaticCommands(TARGET), ON_DHCP)], attempted := [Plan.AdapterIpv4(0)])
  }

  const ENTERED: World := LEASED.(inventory := Inventory([true], [ON_DHCP]))

  lemma TargetInstalled()
    ensures Ipv4Step(ENTERED, 0, ADDRESSES.adapters[0], 0) == Ok(Configured())
  {
    var w := Push(Attempt(ENTERED, Plan.AdapterIpv4(0)), UndoIpv4(ServersRecord()));
    NetshWithoutFaults(w, 0, StaticCommands(TARGET));
    assert ServersRecord().dnsFromDhcp && !StaticMatches(ServersRecord(), TARGET);
    assert [ON_DHCP][0 := Configured().nets[0]] == Configured().nets;
  }

  lemma AdapterConfigured()
    ensures ApplyAdapter(ENTERED, 0, ADDRESSES.adapters[0]) == Ok(Configured())
  {
    FirstAdapterResolves();
    TargetInstalled();
    assert ApplyAdapterAt(ENTERED, 0, ADDRESSES.adapters[0], 0) == Ok(Configured());
  }

  lemma AdapterPhase()
    ensures RunPhases(LEASED, ADDRESSES, Plan.IDENTITY, Plan.PROFILES) == Ok(Configured())
  {
    AdapterConfigured();
    OnlyItem(ENTERED, ADDRESSES, Plan.ADAPTERS, Ok(Configured()));
    OnlyPhase(LEASED, ADDRESSES, Plan.IDENTITY, Plan.ADAPTERS, Plan.PROFILES, ENTERED, Ok(Configured()));
  }

  lemma ServiceMissing(w: World)
    requires w.faults == [] && w.core.services == map[]
    ensures RunPhases(w, ADDRESSES, Plan.PROFILES, Plan.DRIVERS) == Err(Attempt(w, Plan.ServiceSwitch(0)))
  {
    var failed := Attempt(w, Plan.ServiceSwitch(0));
    assert ApplyService(w, 0, ADDRESSES.services[0]) == Err(failed);
    OnlyItem(w, ADDRESSES, Plan.SERVICES, Err(failed));
    OnlyPhase(w, ADDRESSES, Plan.PROFILES, Plan.SERVICES, Plan.DRIVERS, w, Err(failed));
  }

  lemma ServersRun()
    ensures Forward(LEASED, ADDRESSES) == (Err(Attempt(Configured(), Plan.ServiceSwitch(0))), false)
  {
    AdapterPhase();
    ServiceMissing(Configured());
    RunPhasesSplit(LEASED, ADDRESSES, Plan.IDENTITY, Plan.PROFILES, Plan.DRIVERS);
  }

  lemma AddressesProtected()
    ensures Protected(ADDRESSES, ONE_ADAPTER.adapters, [])
  {
    FirstAdapterResolves();
    forall t: Target | Declares(ADDRESSES, t)
      ensures TargetOf(ADDRESSES, ONE_ADAPTER.adapters, [], t).Success?
    {
      assert t == AdapterTarget(0);
    }
  }

  /** Nothing but IPv4 differs, no command failed, the comparison passed, and the DNS servers are others. */
  lemma ServersStay()
    ensures RolledBackRun(LEASED, ADDRESSES)
    ensures var final := Apply(LEASED, ADDRESSES).0;
      final.core == LEASED.core && LEASED.nets[0].dns == [V4(3)] && |final.nets| == 1 && final.nets[0].dns == [V4(3), V6(7)]
  {
    AddressesProtected();
    ServersRun();
    var failed, r := Attempt(Configured(), Plan.ServiceSwitch(0)), ServersRecord();
    ApplyFails(LEASED, ADDRESSES, failed, false);
    assert V4s(TARGET.dns) == [2] by {
      assert V4s(TARGET.dns[1..]) == [];
    }
    assert V6s(TARGET.dns) == [7] by {
      assert V6s(TARGET.dns[1..]) == [7] + V6s([]);
    }
    assert V6s(ON_DHCP.dns) == [];
    Ipv6ServersStay(ONE_ADAPTER.network, ON_DHCP, TARGET, 0);
    ExecuteIpv4WithoutFaults(failed, r);
    OneRecord(failed, UndoIpv4(r), Execute(failed, UndoIpv4(r)));
    assert Servers([3], [7]) == [V4(3), V6(7)];
  }
}
