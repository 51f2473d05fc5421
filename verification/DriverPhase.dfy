/**
 Driver operations and after-apply hooks. They write no undo record; of the modelled machine they
 change adapter switches, and with them the IPv4 state of the adapters switched.
 */
module DriverPhase {
  import opened Std
  import opened Config
  import opened Selectors
  import opened Machine
  import opened Transaction
  import Plan

  /** The same state but for the adapter switches. */
  predicate SameButSwitches(a: Core, b: Core) {
    b == a.(enabled := b.enabled) && |a.enabled| == |b.enabled|
  }

  /** Only adapter switches, and what switching does, have changed. */
  ghost predicate OnlySwitched(w: World, after: World) {
    && after.hw == w.hw && after.rollback == w.rollback && after.unrepaired == w.unrepaired
    && NetsShifted(w, after) && SameButSwitches(w.core, after.core)
  }

  lemma OnlySwitchedThen(w: World, mid: World, after: World)
    requires OnlySwitched(w, mid) && OnlySwitched(mid, after)
    ensures OnlySwitched(w, after)
  {
  }

  lemma RestartSwitchesOnly(w: World, a: nat)
    requires a < |w.core.enabled|
    ensures OnlySwitched(w, Machine.RestartAdapter(w, a).w)
  {
    assert OnlySwitch(Machine.RestartAdapter(w, a).w, w, a);
  }

  lemma InstallSwitchesNothing(w: World, i: nat, hardwareId: Option<string>, force: bool, restart: RestartPolicy)
    ensures var after := InstallDriver(w, i, hardwareId, force, restart).w;
      after == w.(faults := after.faults)
  {
  }

  /** An installation is one call, and a second when its device has to be restarted: always, or when Windows asks for it. */
  lemma InstallCalls(w: World, i: nat, hardwareId: Option<string>, force: bool, restart: RestartPolicy)
    requires |w.faults| >= 2 && !w.faults[0].Bad? && !w.faults[1].Bad? && hardwareId.Some?
    ensures InstallDriver(w, i, hardwareId, force, restart)
         == Ok(w.(faults := if restart == Always || (restart == IfRequired && i in w.hw.rebootNeeded) then w.faults[2..] else w.faults[1..]))
  {
    assert w.faults[1..][1..] == w.faults[2..];
  }

  /** Without a hardware identifier a forced installation is refused before any call. */
  lemma ForcedInstallNeedsId(w: World, i: nat, restart: RestartPolicy)
    ensures InstallDriver(w, i, None, true, restart) == Err(w)
  {
  }

  lemma DriverSwitchesOnly(w: World, i: nat, operation: DriverOperation)
    ensures OnlySwitched(w, ApplyDriver(w, i, operation).w)
  {
    match operation
    case Install(_, hardwareId, force, restart) =>
      InstallSwitchesNothing(Attempt(w, Plan.DriverInstall(i, force)), i, hardwareId, force, restart);
    case RestartAdapter(selector) =>
      var w1, resolved := Tick(Attempt(w, Plan.DriverRestart(i))), ResolveAdapter(w.hw.adapters, selector);
      if Healthy(w) && resolved.Success? && resolved.value < |w.core.enabled| {
        RestartSwitchesOnly(w1, resolved.value);
        OnlySwitchedThen(w, w1, Machine.RestartAdapter(w1, resolved.value).w);
      }
  }

  lemma LateItemSwitchesOnly(w: World, config: NetplanConfig, phase: nat, i: nat)
    requires phase in {Plan.DRIVERS, Plan.AFTER_HOOKS} && i < Plan.Count(config, phase)
    ensures OnlySwitched(w, RunItem(w, config, phase, i).w)
  {
    if phase == Plan.DRIVERS {
      DriverSwitchesOnly(w, i, config.drivers[i]);
    }
  }

  lemma {:induction false} LatePhaseSwitchesOnly(w: World, config: NetplanConfig, phase: nat, i: nat)
    requires phase in {Plan.DRIVERS, Plan.AFTER_HOOKS} && i <= Plan.Count(config, phase)
    ensures OnlySwitched(w, RunPhase(w, config, phase, i).w)
    decreases Plan.Count(config, phase) - i
  {
    if i < Plan.Count(config, phase) {
      LateItemSwitchesOnly(w, config, phase, i);
      var r := RunItem(w, config, phase, i);
      if r.Ok? {
        LatePhaseSwitchesOnly(r.w, config, phase, i + 1);
        OnlySwitchedThen(w, r.w, RunPhase(w, config, phase, i).w);
      }
    }
  }

  /** Driver operations and after-apply hooks change switches only, and write no record. */
  lemma LatePhasesSwitchOnly(w: World, config: NetplanConfig)
    ensures OnlySwitched(w, RunPhases(w, config, Plan.DRIVERS, Plan.ROLLBACK_HOOKS).w)
  {
    LatePhaseSwitchesOnly(w, config, Plan.DRIVERS, 0);
    var r := RunPhase(w, config, Plan.DRIVERS, 0);
    if r.Ok? {
      LatePhaseSwitchesOnly(r.w, config, Plan.AFTER_HOOKS, 0);
      var s := RunPhase(r.w, config, Plan.AFTER_HOOKS, 0);
      assert RunPhases(r.w, config, Plan.AFTER_HOOKS, Plan.ROLLBACK_HOOKS).w == s.w;
      OnlySwitchedThen(w, r.w, s.w);
    }
  }

  // Where driver operations leave a switch.

  /**
   Where a restart begun here leaves the switch: untouched when switching off fails, off when
   switching on then fails twice, otherwise on.
   */
  function RestartLeaves(w: World): Option<bool> {
    if !Healthy(w) then None
    else Some(Healthy(Tick(w)) || Healthy(Tick(Tick(w))))
  }

  lemma RestartSwitch(w: World, a: nat)
    requires a < |w.core.enabled|
    ensures Machine.RestartAdapter(w, a).w.core.enabled
         == if RestartLeaves(w).Some? then w.core.enabled[a := RestartLeaves(w).value] else w.core.enabled
  {
    var e := w.core.enabled;
    assert e[a := false][a := true] == e[a := true];
  }

  /** The operation restarts adapter `a`: the inventory can be read and the selector names it. */
  predicate Restarts(w: World, operation: DriverOperation, a: nat) {
    operation.RestartAdapter? && Healthy(w) && a < |w.core.enabled| && ResolveAdapter(w.hw.adapters, operation.selector) == Success(a)
  }

  /** Where the driver operations from `i` on last leave the switch of adapter `a`, as far as they are reached. */
  function LastLeft(w: World, config: NetplanConfig, i: nat, a: nat): Option<bool>
    requires i <= |config.drivers|
    decreases |config.drivers| - i
  {
    if i == |config.drivers| then None
    else
      var r := ApplyDriver(w, i, config.drivers[i]);
      var later := if r.Ok? then LastLeft(r.w, config, i + 1, a) else None;
      if later.Some? then later
      else if Restarts(w, config.drivers[i], a) then RestartLeaves(Tick(w))
      else None
  }

  /** The adapter a restart operation resolves to is switched, if its calls get past switching it off. */
  lemma RestartOperationSwitches(w: World, i: nat, operation: DriverOperation)
    requires operation.RestartAdapter?
    ensures var resolved, left := ResolveAdapter(w.hw.adapters, operation.selector), RestartLeaves(Tick(w));
      ApplyDriver(w, i, operation).w.core.enabled
      == if Healthy(w) && resolved.Success? && resolved.value < |w.core.enabled| && left.Some?
         then w.core.enabled[resolved.value := left.value] else w.core.enabled
  {
    var resolved, w1 := ResolveAdapter(w.hw.adapters, operation.selector), Tick(Attempt(w, Plan.DriverRestart(i)));
    if Healthy(w) && resolved.Success? && resolved.value < |w.core.enabled| {
      RestartSwitch(w1, resolved.value);
      assert RestartLeaves(w1) == RestartLeaves(Tick(w));
      assert ApplyDriver(w, i, operation) == Machine.RestartAdapter(w1, resolved.value);
    }
  }

  lemma RestartOperationSwitch(w: World, i: nat, operation: DriverOperation, a: nat)
    requires a < |w.core.enabled| && operation.RestartAdapter?
    ensures var after := ApplyDriver(w, i, operation).w.core.enabled;
      && |after| == |w.core.enabled|
      && after[a] == if Restarts(w, operation, a) && RestartLeaves(Tick(w)).Some? then RestartLeaves(Tick(w)).value else w.core.enabled[a]
  {
    RestartOperationSwitches(w, i, operation);
  }

  lemma OperationSwitch(w: World, i: nat, operation: DriverOperation, a: nat)
    requires a < |w.core.enabled|
    ensures var after := ApplyDriver(w, i, operation).w.core.enabled;
      && |after| == |w.core.enabled|
      && after[a] == if Restarts(w, operation, a) && RestartLeaves(Tick(w)).Some? then RestartLeaves(Tick(w)).value else w.core.enabled[a]
  {
    if operation.RestartAdapter? {
      RestartOperationSwitch(w, i, operation, a);
    } else {
      InstallSwitchesNothing(Attempt(w, Plan.DriverInstall(i, operation.force)), i, operation.hardwareId, operation.force, operation.restart);
    }
  }

  lemma DriversUnfold(w: World, config: NetplanConfig, i: nat)
    requires i < |config.drivers|
    ensures RunPhase(w, config, Plan.DRIVERS, i)
         == var r := ApplyDriver(w, i, config.drivers[i]); if r.Ok? then RunPhase(r.w, config, Plan.DRIVERS, i + 1) else r
  {
    assert RunItem(w, config, Plan.DRIVERS, i) == ApplyDriver(w, i, config.drivers[i]);
  }

  /** `LastLeft` tells the switch after the driver phase, however it ends. */
  lemma {:induction false} DriversLeave(w: World, config: NetplanConfig, i: nat, a: nat)
    requires i <= |config.drivers| && a < |w.core.enabled|
    ensures var after, left := RunPhase(w, config, Plan.DRIVERS, i).w, LastLeft(w, config, i, a);
      && |after.core.enabled| == |w.core.enabled|
      && after.core.enabled[a] == if left.Some? then left.value else w.core.enabled[a]
    decreases |config.drivers| - i
  {
    if i < |config.drivers| {
      OperationSwitch(w, i, config.drivers[i], a);
      var r := ApplyDriver(w, i, config.drivers[i]);
      DriversUnfold(w, config, i);
      if r.Ok? {
        DriversLeave(r.w, config, i + 1, a);
      }
    }
  }

  lemma {:induction false} AfterHooksSwitchNothing(w: World, config: NetplanConfig, i: nat)
    requires i <= |config.hooks|
    ensures var r := RunPhase(w, config, Plan.AFTER_HOOKS, i).w; r.core == w.core && r.switches == w.switches
    decreases |config.hooks| - i
  {
    if i < |config.hooks| {
      var r := RunItem(w, config, Plan.AFTER_HOOKS, i);
      if r.Ok? {
        AfterHooksSwitchNothing(r.w, config, i + 1);
      }
    }
  }

  /** The switches after drivers and after-apply hooks. */
  lemma LateSwitches(w: World, config: NetplanConfig, a: nat)
    requires a < |w.core.enabled|
    ensures var after, left := RunPhases(w, config, Plan.DRIVERS, Plan.ROLLBACK_HOOKS).w, LastLeft(w, config, 0, a);
      && |after.core.enabled| == |w.core.enabled|
      && after.core.enabled[a] == if left.Some? then left.value else w.core.enabled[a]
  {
    DriversLeave(w, config, 0, a);
    var r := RunPhase(w, config, Plan.DRIVERS, 0);
    if r.Ok? {
      AfterHooksSwitchNothing(r.w, config, 0);
      var s := RunPhase(r.w, config, Plan.AFTER_HOOKS, 0);
      assert RunPhases(r.w, config, Plan.AFTER_HOOKS, Plan.ROLLBACK_HOOKS).w == s.w;
    }
  }
}
