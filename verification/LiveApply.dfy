/** The live apply as it executes: a session over one machine with a mutable undo log. */
module LiveApply {
  import opened Std
  import opened Text
  import opened Config
  import opened Selectors
  import opened Ipv4Recovery
  import opened Machine
  import opened Transaction
  import opened RunInvariant
  import opened RollbackTheorem
  import opened Conformance
  import Plan

  /** A run of the phases from `phase` up to `last` ended in this world, successfully or not. */
  ghost predicate Did(w: World, config: NetplanConfig, phase: nat, last: nat, ok: bool, after: World)
    requires phase <= last <= Plan.PHASES
  {
    RunPhases(w, config, phase, last) == if ok then Ok(after) else Err(after)
  }

  lemma DidThen(w: World, config: NetplanConfig, phase: nat, mid: nat, last: nat, middle: World, ok: bool, after: World)
    requires phase <= mid <= last <= Plan.PHASES
    requires Did(w, config, phase, mid, true, middle) && Did(middle, config, mid, last, ok, after)
    ensures Did(w, config, phase, last, ok, after)
  {
    RunPhasesSplit(w, config, phase, mid, last);
  }

  lemma DidFail(w: World, config: NetplanConfig, phase: nat, mid: nat, last: nat, after: World)
    requires phase <= mid <= last <= Plan.PHASES && Did(w, config, phase, mid, false, after)
    ensures Did(w, config, phase, last, false, after)
  {
    RunPhasesSplit(w, config, phase, mid, last);
  }

  /** A phase that reads nothing first and ran all or part of its declarations. */
  lemma DidPhase(w: World, config: NetplanConfig, phase: nat, entered: World, ok: bool, after: World)
    requires phase < Plan.PHASES && Enter(w, config, phase) == Ok(entered)
    requires RunPhase(entered, config, phase, 0) == if ok then Ok(after) else Err(after)
    ensures Did(w, config, phase, phase + 1, ok, after)
  {
  }

  /** A session that begins with a document that validation and preflight have accepted. */
  ghost predicate Accepted(w: World, config: NetplanConfig) {
    Ready(w) && SharesDistinct(config) && Protected(config, w.hw.adapters, w.hw.wifi)
  }

  /**
   What a caller may rely on: the operations attempted follow the plan, `rolled_back` means what the
   restoration theorem says, and from a safe start everything but IPv4 is then as it was.
   */
  ghost predicate Guaranteed(w: World, config: NetplanConfig) {
    var (final, report) := Transaction.Apply(w, config);
    && (w.attempted == [] ==> PlanFollowed(w, config))
    && (Accepted(w, config) && report.rolledBack ==>
          && RolledBackOutcome(w, config)
          && (NoRestarts(config) && SafeStart(config, w.core) ==> final.core == w.core))
  }

  lemma GuaranteesHold(w: World, config: NetplanConfig)
    ensures Guaranteed(w, config)
  {
    if w.attempted == [] {
      ApplyFollowsPlan(w, config);
    }
    if Accepted(w, config) {
      RolledBackRestores(w, config);
      if NoRestarts(config) && SafeStart(config, w.core) {
        SafeStartRestores(w, config);
      }
    }
  }

  /** Undoing the rest of the log from here, `errors` having failed already, ends in `total`. */
  ghost predicate Unwinds(w: World, log: seq<Undo>, errors: nat, total: (World, nat)) {
    var (after, more) := Transaction.RollbackAll(w, log);
    total == (after, errors + more)
  }

  lemma UnwindStep(w: World, run: Run, log: seq<Undo>, k: nat, errors: nat, total: (World, nat))
    requires k < |log| && run == Execute(w, log[k]) && Unwinds(w, log[..k + 1], errors, total)
    ensures Unwinds(run.w, log[..k], errors + if run.Ok? then 0 else 1, total)
  {
    assert log[..k + 1][..k] == log[..k];
  }

  lemma Unwound(w: World, errors: nat, total: (World, nat))
    requires Unwinds(w, [], errors, total)
    ensures total == (w, errors)
  {
  }

  class Session {
    var hw: Hardware
    var core: Core
    var nets: seq<Net>
    var rollback: seq<Undo>
    var faults: seq<Fault>
    var attempted: seq<Plan.Operation>
    var inventory: Inventory
    var switches: seq<(nat, bool)>
    var unrepaired: set<string>

    function State(): World
      reads this
    {
      World(hw, core, nets, rollback, faults, attempted, inventory, switches, unrepaired)
    }

    /** A session starts with an empty undo log. */
    constructor (hw: Hardware, core: Core, nets: seq<Net>, faults: seq<Fault>)
      ensures State() == World(hw, core, nets, [], faults, [], Inventory([], []), [], {})
    {
      this.hw, this.core, this.nets, this.faults := hw, core, nets, faults;
      rollback, attempted, inventory, switches, unrepaired := [], [], Inventory([], []), [], {};
    }

    /** The run that ended in the present state. */
    function Outcome(ok: bool): Run
      reads this
    {
      if ok then Ok(State()) else Err(State())
    }

    // Calls into the system.

    /** One call: it goes as the fault sequence says. */
    method Call() returns (ok: bool)
      modifies this`faults
      ensures Read(old(State())) == Outcome(ok)
    {
      ok := faults == [] || !faults[0].Bad?;
      faults := if faults == [] then [] else faults[1..];
    }

    /** Three queries in a row. */
    method Inspect() returns (ok: bool)
      modifies this
      ensures ReadNet(old(State())) == Outcome(ok)
    {
      ok := Call();
      if ok {
        ok := Call();
      }
      if ok {
        ok := Call();
      }
    }

    method SwitchAdapter(a: nat, on: bool) returns (ok: bool)
      requires a < |core.enabled|
      modifies this
      ensures SetEnabled(old(State()), a, on) == Outcome(ok)
    {
      switches := switches + [(a, on)];
      var shifted := Shift(State(), a);
      ok := Call();
      if ok {
        core := core.(enabled := core.enabled[a := on]);
        nets := shifted.nets;
      }
    }

    /** Disables and enables; enables once more when enabling failed, and reports the failure. */
    method Restart(a: nat) returns (ok: bool)
      requires a < |core.enabled|
      modifies this
      ensures Machine.RestartAdapter(old(State()), a) == Outcome(ok)
    {
      ok := SwitchAdapter(a, false);
      if !ok {
        return;
      }
      ok := SwitchAdapter(a, true);
      if !ok {
        var _ := SwitchAdapter(a, true);
      }
    }

    /** Runs the commands one after another, stopping at the first that fails. */
    method RunNetsh(a: nat, commands: seq<Command>) returns (ok: bool)
      requires a < |nets|
      modifies this
      ensures Netsh(old(State()), a, commands) == Outcome(ok)
    {
      ghost var start := State();
      for k := 0 to |commands|
        invariant a < |nets|
        invariant Netsh(start, a, commands) == Netsh(State(), a, commands[k..])
      {
        assert commands[k..][0] == commands[k] && commands[k..][1..] == commands[k + 1..];
        var before := State();
        ok := Call();
        if !ok {
          nets := if hw.network.failsClean then nets else nets[a := Damage(before).net];
          return;
        }
        nets := nets[a := Effect(hw.network, commands[k], nets[a])];
      }
      ok := true;
    }

    method SwitchService(name: string, running: bool) returns (ok: bool)
      modifies this
      ensures SetService(old(State()), name, running) == Outcome(ok)
    {
      ok := Call();
      if !ok {
        return;
      }
      if name !in core.services {
        return false;
      }
      if core.services[name] == Wanted(running) {
        return;
      }
      var before := State();
      ok := Call();
      core := core.(services := core.services[name := if ok then Wanted(running) else Damage(before).service]);
    }

    method StoreProfile(interface: nat, name: string, content: ProfileContent) returns (ok: bool)
      modifies this
      ensures SetProfile(old(State()), interface, name, content) == Outcome(ok)
    {
      var before := State();
      ok := Call();
      if ok || Damage(before).profileWritten {
        core := core.(profiles := core.profiles[(interface, name) := content]);
      }
    }

    /** Connects to a profile, or disconnects when there is none to connect to. */
    method Associate(interface: nat, connection: Option<string>) returns (ok: bool)
      modifies this
      ensures (if connection.Some? then Machine.Connect(old(State()), interface, connection.value)
               else Machine.Disconnect(old(State()), interface)) == Outcome(ok)
    {
      var before := State();
      ok := Call();
      if connection.Some? && (interface, connection.value) !in core.profiles {
        ok := false;
        core := SomeConnection(before, interface);
      } else if !ok {
        core := SomeConnection(before, interface);
      } else {
        core := core.(connections := Store(core.connections, interface, connection));
      }
    }

    /** Writes a captured share back: its information first, then its security once more. */
    method PutShareBack(name: string, state: ShareState) returns (ok: bool)
      modifies this
      ensures RestoreShare(old(State()), name, state) == Outcome(ok)
    {
      ok := Call();
      if !ok {
        return;
      }
      core := core.(shares := core.shares[name := state]);
      if state.security != Descriptor([]) {
        ok := Call();
      }
    }

    // One declaration at a time.

    method RenameComputer(name: string) returns (ok: bool)
      modifies this
      ensures ApplyComputerName(old(State()), name) == Outcome(ok)
    {
      ok := Call();
      if !ok || SameIgnoringCase(core.computerName, name) {
        return;
      }
      var previous := core.computerName;
      ok := Call();
      if ok {
        core := core.(computerName := name);
        rollback := rollback + [UndoComputerName(previous)];
      }
    }

    method JoinWorkgroup(name: string) returns (ok: bool)
      modifies this
      ensures ApplyWorkgroup(old(State()), name) == Outcome(ok)
    {
      ok := Call();
      if !ok {
        return;
      }
      if core.join.InDomain? {
        return false;
      }
      var previous := core.join.workgroup;
      if SameIgnoringCase(previous, name) {
        return;
      }
      ok := Call();
      if ok {
        core := core.(join := InWorkgroup(name));
        rollback := rollback + [UndoWorkgroup(previous)];
      }
    }

    method SetDnsSuffix(suffix: string) returns (ok: bool)
      modifies this
      ensures ApplyDnsSuffix(old(State()), suffix) == Outcome(ok)
    {
      ok := Call();
      if !ok || SameIgnoringCase(core.dnsSuffix, suffix) {
        return;
      }
      var previous := core.dnsSuffix;
      ok := Call();
      if ok {
        core := core.(dnsSuffix := suffix);
        rollback := rollback + [UndoDnsSuffix(previous)];
      }
    }

    method SetIdentity(config: NetplanConfig, i: nat) returns (ok: bool)
      modifies this
      ensures Transaction.ApplyIdentity(old(State()), config, i) == Outcome(ok)
    {
      var field := Plan.FieldAt(i);
      if config.identity.None? || Plan.FieldValue(config.identity.value, field).None? {
        return true;
      }
      var value := Plan.FieldValue(config.identity.value, field).value;
      attempted := attempted + [Plan.SetIdentity(field)];
      match field {
        case ComputerNameField => ok := RenameComputer(value);
        case WorkgroupField => ok := JoinWorkgroup(value);
        case DnsSuffixField => ok := SetDnsSuffix(value);
      }
    }

    method EnableFirst(i: nat, entry: AdapterConfig, a: nat) returns (ok: bool)
      requires Sized(State()) && a < |hw.adapters|
      modifies this
      ensures EnableStep(old(State()), i, entry, a) == Outcome(ok)
    {
      if entry.enabled != Some(true) {
        return true;
      }
      attempted := attempted + [Plan.AdapterState(i, true)];
      if inventory.enabled[a] {
        return true;
      }
      ok := SwitchAdapter(a, true);
      if ok {
        rollback := rollback + [UndoAdapterState(a, false)];
      }
    }

    /** Overrides the address, on record before the restart that makes it effective. */
    method OverrideMac(i: nat, entry: AdapterConfig, a: nat) returns (ok: bool)
      requires Sized(State()) && a < |hw.adapters|
      modifies this
      ensures MacStep(old(State()), i, entry, a) == Outcome(ok)
    {
      if entry.mac.None? {
        return true;
      }
      attempted := attempted + [Plan.AdapterMac(i)];
      var enabledDuringApply := entry.enabled == Some(true) || inventory.enabled[a];
      if hw.adapters[a].guid.None? {
        return false;
      }
      ok := Call();
      if !ok {
        return;
      }
      ok := Call();
      if !ok {
        return;
      }
      var previous := core.macs[a];
      ok := Call();
      if !ok {
        return;
      }
      core := core.(macs := core.macs[a := Some(CanonicalMac(entry.mac.value))]);
      rollback := rollback + [UndoMac(a, previous, enabledDuringApply)];
      if enabledDuringApply {
        ok := Restart(a);
      }
    }

    method DropCaptured(r: NetRestore) returns (ok: bool)
      requires r.adapter < |nets|
      modifies this
      ensures RemoveCaptured(old(State()), r) == Outcome(ok)
    {
      ok := Call();
      if ok {
        var current := nets[r.adapter];
        ok := RunNetsh(r.adapter, DeleteAddresses(Addresses(r.snapshot.manual), current) + DeleteGateways(r.snapshot.gateways, current));
      }
    }

    method SwitchToDhcp(r: NetRestore, dnsFromDhcp: bool) returns (ok: bool)
      requires r.adapter < |nets|
      modifies this
      ensures DhcpSwitch(old(State()), r, dnsFromDhcp) == Outcome(ok)
    {
      ok := RunNetsh(r.adapter, if r.snapshot.dhcp then [] else [AddressFromDhcp]);
      if !ok {
        return;
      }
      if r.snapshot.manual != [] {
        ok := DropCaptured(r);
        if !ok {
          return;
        }
      }
      ok := RunNetsh(r.adapter, (if dnsFromDhcp && !r.dnsFromDhcp then [DnsFromDhcp] else [])
                                + (if dnsFromDhcp && !r.winsFromDhcp then [WinsFromDhcp] else []));
    }

    /** Pushes the undo record first, and pops it when it turns out that nothing has to change. */
    method ConfigureIpv4(i: nat, entry: AdapterConfig, a: nat) returns (ok: bool)
      requires Sized(State()) && a < |hw.adapters|
      modifies this
      ensures Ipv4Step(old(State()), i, entry, a) == Outcome(ok)
    {
      if entry.ipv4.None? {
        return true;
      }
      attempted := attempted + [Plan.AdapterIpv4(i)];
      if hw.adapters[a].guid.None? {
        return false;
      }
      ok := Call();
      if !ok {
        return;
      }
      ok := Call();
      if !ok {
        return;
      }
      var target := entry.ipv4.value;
      var r := Capture(a, inventory.nets[a], nets[a], target);
      rollback := rollback + [UndoIpv4(r)];
      var changed;
      ok, changed := Reconfigured(r, target);
      if ok && !changed {
        rollback := rollback[..|rollback| - 1];
      }
    }

    method Reconfigured(r: NetRestore, target: Ipv4Config) returns (ok: bool, changed: bool)
      requires r.adapter < |nets|
      modifies this
      ensures ok && !changed ==> State() == old(State())
      ensures changed == if target.Static? then !StaticMatches(r, target) else !DhcpUnchanged(r, target.dnsFromDhcp)
      ensures !changed ==> ok
      ensures changed && target.Dhcp? ==> DhcpSwitch(old(State()), r, target.dnsFromDhcp) == Outcome(ok)
      ensures changed && target.Static? && target.addresses == [] ==> !ok && State() == old(State())
      ensures changed && target.Static? && target.addresses != [] ==> Netsh(old(State()), r.adapter, StaticCommands(target)) == Outcome(ok)
    {
      match target
      case Dhcp(dnsFromDhcp) =>
        changed := !DhcpUnchanged(r, dnsFromDhcp);
        if !changed {
          return true, false;
        }
        ok := SwitchToDhcp(r, dnsFromDhcp);
      case Static(addresses, _, _, _) =>
        if StaticMatches(r, target) {
          return true, false;
        }
        if addresses == [] {
          return false, true;
        }
        changed := true;
        ok := RunNetsh(r.adapter, StaticCommands(target));
    }

    method DisableLast(i: nat, entry: AdapterConfig, a: nat) returns (ok: bool)
      requires Sized(State()) && a < |hw.adapters|
      modifies this
      ensures DisableStep(old(State()), i, entry, a) == Outcome(ok)
    {
      if entry.enabled != Some(false) {
        return true;
      }
      attempted := attempted + [Plan.AdapterState(i, false)];
      if !inventory.enabled[a] {
        return true;
      }
      ok := SwitchAdapter(a, false);
      if ok {
        rollback := rollback + [UndoAdapterState(a, true)];
      }
    }

    method InstallProfile(i: nat, profile: WifiProfile) returns (ok: bool)
      modifies this
      ensures ApplyProfile(old(State()), i, profile) == Outcome(ok)
    {
      attempted := attempted + [Plan.WifiInstall(i)];
      var resolved := ResolveWifi(hw.adapters, hw.wifi, profile.selector);
      if resolved.Failure? {
        return false;
      }
      var interface, name := hw.wifi[resolved.value].guid, Fold(profile.ProfileName());
      ok := Call();
      if !ok {
        return;
      }
      rollback := rollback + [UndoProfile(interface, name, LookUp(core.profiles, (interface, name)))];
      ok := Call();
      if ok {
        ok := StoreProfile(interface, name, Written(profile));
      }
    }

    method RunWifiAction(i: nat, action: WifiAction) returns (ok: bool)
      modifies this
      ensures ApplyAction(old(State()), i, action) == Outcome(ok)
    {
      attempted := attempted + [Plan.WifiRun(i, Plan.KindOf(action))];
      var resolved := ResolveWifi(hw.adapters, hw.wifi, ActionSelector(action));
      if resolved.Failure? {
        return false;
      }
      var interface := hw.wifi[resolved.value].guid;
      ok := Call();
      if !ok {
        return;
      }
      if action.Scan? {
        ok := Call();
        return;
      }
      rollback := rollback + [UndoConnection(interface, LookUp(core.connections, interface))];
      ok := Associate(interface, if action.Connect? then Some(Fold(action.profile)) else None);
    }

    method SwitchDeclaredService(i: nat, service: Service) returns (ok: bool)
      modifies this
      ensures ApplyService(old(State()), i, service) == Outcome(ok)
    {
      var name := Fold(service.name);
      attempted := attempted + [Plan.ServiceSwitch(i)];
      ok := Call();
      if !ok {
        return;
      }
      if name !in core.services {
        return false;
      }
      var wasRunning := core.services[name] == RunningNow;
      if wasRunning != (service.state == Running) {
        rollback := rollback + [UndoService(name, wasRunning)];
        ok := SwitchService(name, !wasRunning);
      }
    }

    method EnsureAccount(i: nat, account: SmbAccount) returns (ok: bool)
      modifies this
      ensures ApplyAccount(old(State()), i, account) == Outcome(ok)
    {
      if account.kind != Local {
        return true;
      }
      var name := Fold(account.username);
      attempted := attempted + [Plan.AccountEnsure(i)];
      ok := Call();
      if !ok || name in core.accounts {
        return;
      }
      ok := Call();
      if !ok {
        return;
      }
      ok := Call();
      if ok {
        core := core.(accounts := core.accounts + {name});
        rollback := rollback + [UndoAccount(name)];
      }
    }

    /** Adds a share, or updates one and puts it back at once when securing it fails. */
    method WriteShareNow(name: string, previous: Option<ShareState>, state: ShareState) returns (ok: bool)
      modifies this
      ensures WriteShare(old(State()), name, previous, state) == Outcome(ok)
    {
      ok := Call();
      if !ok {
        return;
      }
      core := core.(shares := core.shares[name := state]);
      if previous.Some? {
        ok := Call();
        if !ok {
          var writtenBack := Healthy(State()) || state == previous.value;
          var _ := PutShareBack(name, previous.value);
          unrepaired := if writtenBack then unrepaired else unrepaired + {name};
          return;
        }
      }
      rollback := rollback + [UndoShare(name, previous)];
    }

    method PutShare(i: nat, config: NetplanConfig, share: SmbShare) returns (ok: bool)
      modifies this
      ensures ApplyShare(old(State()), i, config, share) == Outcome(ok)
    {
      var name := Fold(share.name);
      attempted := attempted + [Plan.ShareApply(i)];
      ok := Call();
      if !ok {
        return;
      }
      var previous, security := LookUp(core.shares, name), ShareSecurity(config, share);
      if security.None? {
        return false;
      }
      ok := Call();
      if !ok {
        return;
      }
      ok := WriteShareNow(name, previous, ShareState(share.path, share.description, security.value, 0));
    }

    method MapRemote(i: nat, config: NetplanConfig, mapping: SmbMapping) returns (ok: bool)
      modifies this
      ensures ApplyMapping(old(State()), i, config, mapping) == Outcome(ok)
    {
      attempted := attempted + [Plan.MappingApply(i)];
      if mapping.local.Some? {
        ok := Call();
        if !ok {
          return;
        }
        var drive := Fold(mapping.local.value);
        if drive in core.drives {
          return SameIgnoringCase(core.drives[drive], mapping.remote);
        }
      }
      if !CredentialsKnown(config, mapping) {
        return false;
      }
      ok := Call();
      if !ok {
        return;
      }
      ok := Call();
      if ok {
        core := Mapped(core, mapping);
        rollback := rollback + [UndoMapping(TargetOfMapping(mapping))];
      }
    }

    method SwitchFirewall(on: bool) returns (ok: bool)
      modifies this
      ensures Transaction.ApplyFirewall(old(State()), on) == Outcome(ok)
    {
      attempted := attempted + [Plan.FirewallSwitch];
      ok := Inspect();
      if !ok {
        return;
      }
      var previous := core.firewall;
      if previous.AllEqual(on) {
        return;
      }
      rollback := rollback + [UndoFirewall(previous)];
      var before := State();
      ok := Call();
      core := core.(firewall := if ok then Firewall(on, on, on) else Damage(before).firewall);
    }

    method ExecuteHook(config: NetplanConfig, stage: HookStage, i: nat) returns (ok: bool)
      requires i < |config.hooks|
      modifies this
      ensures RunHookItem(old(State()), config, stage, i) == Outcome(ok)
    {
      if config.hooks[i].stage != stage {
        return true;
      }
      attempted := attempted + [Plan.HookRun(i, stage)];
      ok := Call();
    }

    method Install(i: nat, hardwareId: Option<string>, force: bool, restart: RestartPolicy) returns (ok: bool)
      modifies this
      ensures InstallDriver(old(State()), i, hardwareId, force, restart) == Outcome(ok)
    {
      if force && hardwareId.None? {
        return false;
      }
      ok := Call();
      if !ok {
        return;
      }
      if restart == Always || (restart == IfRequired && i in hw.rebootNeeded) {
        if hardwareId.None? {
          return false;
        }
        ok := Call();
      }
    }

    method OperateDriver(i: nat, operation: DriverOperation) returns (ok: bool)
      modifies this
      ensures ApplyDriver(old(State()), i, operation) == Outcome(ok)
    {
      match operation
      case Install(_, hardwareId, force, restart) =>
        attempted := attempted + [Plan.DriverInstall(i, force)];
        ok := Install(i, hardwareId, force, restart);
      case RestartAdapter(selector) =>
        attempted := attempted + [Plan.DriverRestart(i)];
        ok := Call();
        if !ok {
          return;
        }
        var resolved := ResolveAdapter(hw.adapters, selector);
        if resolved.Failure? || resolved.value >= |core.enabled| {
          return false;
        }
        ok := Restart(resolved.value);
    }

    // Undo.

    /** Repairs the adapter, removes the targets a partial run left, and compares the result. */
    method RestoreIpv4(r: NetRestore) returns (ok: bool)
      requires r.adapter < |nets|
      modifies this
      ensures RestoreNet(old(State()), r) == Outcome(ok)
    {
      ok := Inspect();
      if !ok {
        return;
      }
      ok := RunNetsh(r.adapter, Repair(r, nets[r.adapter]));
      if !ok {
        return;
      }
      ok := Call();
      if !ok {
        return;
      }
      ok := RunNetsh(r.adapter, Cleanup(r, nets[r.adapter]));
      if !ok {
        return;
      }
      ok := Inspect();
      if ok {
        ok := VerifyRestored(r, nets[r.adapter]);
      }
    }

    method RestoreMac(a: nat, previous: Option<string>, restart: bool) returns (ok: bool)
      requires a < |core.enabled| && a < |core.macs|
      modifies this
      ensures Execute(old(State()), UndoMac(a, previous, restart)) == Outcome(ok)
    {
      ok := Call();
      if !ok {
        return;
      }
      core := core.(macs := core.macs[a := previous]);
      if restart {
        ok := Restart(a);
      }
    }

    method RestoreWifi(u: Undo) returns (ok: bool)
      requires u.UndoProfile? || u.UndoConnection?
      modifies this
      ensures Execute(old(State()), u) == Outcome(ok)
    {
      ok := Call();
      if !ok {
        return;
      }
      if u.UndoConnection? {
        ok := Associate(u.interface, u.connection);
      } else if u.content.Some? {
        ok := StoreProfile(u.interface, u.profile, u.content.value);
      } else {
        ok := Call();
        if ok {
          core := DropProfile(core, u.interface, u.profile);
        }
      }
    }

    /** The three firewall profiles one after another. */
    method RestoreFirewall(previous: Firewall) returns (ok: bool)
      modifies this
      ensures Execute(old(State()), UndoFirewall(previous)) == Outcome(ok)
    {
      ghost var start := State();
      ok := Call();
      if !ok {
        return;
      }
      core := core.(firewall := core.firewall.(domain := previous.domain));
      assert Change(start, start.core.(firewall := start.core.firewall.(domain := previous.domain))) == Ok(State());
      ghost var next := State();
      ok := Call();
      if !ok {
        return;
      }
      core := core.(firewall := core.firewall.(private_ := previous.private_));
      assert Change(next, next.core.(firewall := next.core.firewall.(private_ := previous.private_))) == Ok(State());
      ok := Call();
      if ok {
        core := core.(firewall := core.firewall.(public_ := previous.public_));
      }
    }

    /** Records undone by a single call. */
    method RestorePlain(u: Undo) returns (ok: bool)
      requires u.UndoComputerName? || u.UndoWorkgroup? || u.UndoDnsSuffix? || u.UndoAccount? || u.UndoMapping?
        || (u.UndoShare? && u.state.None?)
      modifies this
      ensures Execute(old(State()), u) == Outcome(ok)
    {
      ok := Call();
      if !ok {
        return;
      }
      match u {
        case UndoComputerName(name) => core := core.(computerName := name);
        case UndoWorkgroup(workgroup) => core := core.(join := InWorkgroup(workgroup));
        case UndoDnsSuffix(suffix) => core := core.(dnsSuffix := suffix);
        case UndoAccount(username) => core := core.(accounts := core.accounts - {username});
        case UndoMapping(Drive(letter)) => core := core.(drives := core.drives - {letter});
        case UndoMapping(Remote(path)) => core := core.(remotes := core.remotes - {path});
        case UndoShare(name, _) => core := core.(shares := core.shares - {name});
      }
    }

    /** Executes one record; a record for an adapter that is gone fails. */
    method UndoOne(u: Undo) returns (ok: bool)
      modifies this
      ensures Execute(old(State()), u) == Outcome(ok)
    {
      if !InRange(State(), u) {
        return false;
      }
      match u {
        case UndoAdapterState(a, on) => ok := SwitchAdapter(a, on);
        case UndoMac(a, previous, restart) => ok := RestoreMac(a, previous, restart);
        case UndoIpv4(r) => ok := RestoreIpv4(r);
        case UndoProfile(_, _, _) => ok := RestoreWifi(u);
        case UndoConnection(_, _) => ok := RestoreWifi(u);
        case UndoService(name, running) => ok := SwitchService(name, running);
        case UndoShare(name, Some(state)) => ok := PutShareBack(name, state);
        case UndoFirewall(previous) => ok := RestoreFirewall(previous);
        case _ => ok := RestorePlain(u);
      }
    }

    // Phase by phase.

    method RunHooks(config: NetplanConfig, phase: nat, stage: HookStage) returns (ok: bool)
      requires (phase, stage) == (Plan.BEFORE_HOOKS, BeforeApply) || (phase, stage) == (Plan.AFTER_HOOKS, AfterApply)
        || (phase, stage) == (Plan.ROLLBACK_HOOKS, AfterRollback)
      modifies this
      ensures Did(old(State()), config, phase, phase + 1, ok, State())
    {
      ghost var start := State();
      for i := 0 to |config.hooks|
        invariant RunPhase(start, config, phase, 0) == RunPhase(State(), config, phase, i)
      {
        ok := ExecuteHook(config, stage, i);
        if !ok {
          return;
        }
      }
      ok := true;
    }

    method ApplyIdentity(config: NetplanConfig) returns (ok: bool)
      modifies this
      ensures Did(old(State()), config, Plan.IDENTITY, Plan.ADAPTERS, ok, State())
    {
      ghost var start := State();
      for i := 0 to 3
        invariant RunPhase(start, config, Plan.IDENTITY, 0) == RunPhase(State(), config, Plan.IDENTITY, i)
      {
        ok := SetIdentity(config, i);
        if !ok {
          return;
        }
      }
      ok := true;
    }

    /** One entry: resolve, enable, override the address, reconfigure IPv4, disable. */
    method ApplyEntry(i: nat, entry: AdapterConfig) returns (ok: bool)
      modifies this
      ensures Transaction.ApplyAdapter(old(State()), i, entry) == if ok then Ok(State()) else Err(State())
    {
      var resolved := ResolveAdapter(hw.adapters, entry.selector);
      if resolved.Failure? || !Sized(State()) {
        return false;
      }
      var a := resolved.value;
      ok := EnableFirst(i, entry, a);
      if !ok {
        return;
      }
      ok := OverrideMac(i, entry, a);
      if !ok {
        return;
      }
      Ipv4StepFrame(State(), i, entry, a);
      ok := ConfigureIpv4(i, entry, a);
      if !ok {
        return;
      }
      ok := DisableLast(i, entry, a);
    }

    method ApplyAdapters(config: NetplanConfig) returns (ok: bool)
      modifies this
      ensures Did(old(State()), config, Plan.ADAPTERS, Plan.PROFILES, ok, State())
    {
      if config.adapters == [] {
        assert RunPhase(State(), config, Plan.ADAPTERS, 0) == Ok(State());
        return true;
      }
      ok := Call();
      if !ok {
        return;
      }
      inventory := Inventory(core.enabled, nets);
      ghost var start := State();
      for i := 0 to |config.adapters|
        invariant RunPhase(start, config, Plan.ADAPTERS, 0) == RunPhase(State(), config, Plan.ADAPTERS, i)
      {
        EntriesUnfold(State(), config, i);
        ok := ApplyEntry(i, config.adapters[i]);
        if !ok {
          DidPhase(old(State()), config, Plan.ADAPTERS, start, false, State());
          return;
        }
      }
      ok := true;
      DidPhase(old(State()), config, Plan.ADAPTERS, start, true, State());
    }

    /** Profiles before actions, over one client that is opened only when something is declared. */
    method ApplyWifi(config: NetplanConfig) returns (ok: bool)
      modifies this
      ensures Did(old(State()), config, Plan.PROFILES, Plan.SERVICES, ok, State())
    {
      if config.wifi == [] && config.wifiActions == [] {
        DidPhase(State(), config, Plan.PROFILES, State(), true, State());
        DidPhase(State(), config, Plan.ACTIONS, State(), true, State());
        DidThen(State(), config, Plan.PROFILES, Plan.ACTIONS, Plan.SERVICES, State(), true, State());
        return true;
      }
      ok := Inspect();
      if !ok {
        return;
      }
      ok := ApplyProfiles(config, old(State()));
      if !ok {
        DidFail(old(State()), config, Plan.PROFILES, Plan.ACTIONS, Plan.SERVICES, State());
        return;
      }
      ghost var middle := State();
      ok := ApplyActions(config);
      DidThen(old(State()), config, Plan.PROFILES, Plan.ACTIONS, Plan.SERVICES, middle, ok, State());
    }

    method ApplyProfiles(config: NetplanConfig, ghost opened_: World) returns (ok: bool)
      requires Enter(opened_, config, Plan.PROFILES) == Ok(State())
      modifies this
      ensures Did(opened_, config, Plan.PROFILES, Plan.ACTIONS, ok, State())
    {
      ghost var start := State();
      for i := 0 to |config.wifi|
        invariant RunPhase(start, config, Plan.PROFILES, 0) == RunPhase(State(), config, Plan.PROFILES, i)
      {
        ok := InstallProfile(i, config.wifi[i]);
        if !ok {
          DidPhase(opened_, config, Plan.PROFILES, start, false, State());
          return;
        }
      }
      ok := true;
      DidPhase(opened_, config, Plan.PROFILES, start, true, State());
    }

    method ApplyActions(config: NetplanConfig) returns (ok: bool)
      modifies this
      ensures Did(old(State()), config, Plan.ACTIONS, Plan.SERVICES, ok, State())
    {
      ghost var start := State();
      for i := 0 to |config.wifiActions|
        invariant RunPhase(start, config, Plan.ACTIONS, 0) == RunPhase(State(), config, Plan.ACTIONS, i)
      {
        ok := RunWifiAction(i, config.wifiActions[i]);
        if !ok {
          DidPhase(start, config, Plan.ACTIONS, start, false, State());
          return;
        }
      }
      ok := true;
      DidPhase(start, config, Plan.ACTIONS, start, true, State());
    }

    method ApplyServices(config: NetplanConfig) returns (ok: bool)
      modifies this
      ensures Did(old(State()), config, Plan.SERVICES, Plan.ACCOUNTS, ok, State())
    {
      ghost var start := State();
      for i := 0 to |config.services|
        invariant RunPhase(start, config, Plan.SERVICES, 0) == RunPhase(State(), config, Plan.SERVICES, i)
      {
        ok := SwitchDeclaredService(i, config.services[i]);
        if !ok {
          DidPhase(start, config, Plan.SERVICES, start, false, State());
          return;
        }
      }
      ok := true;
      DidPhase(start, config, Plan.SERVICES, start, true, State());
    }

    method ApplyAccounts(config: NetplanConfig) returns (ok: bool)
      modifies this
      ensures Did(old(State()), config, Plan.ACCOUNTS, Plan.SHARES, ok, State())
    {
      ghost var start := State();
      for i := 0 to |config.accounts|
        invariant RunPhase(start, config, Plan.ACCOUNTS, 0) == RunPhase(State(), config, Plan.ACCOUNTS, i)
      {
        ok := EnsureAccount(i, config.accounts[i]);
        if !ok {
          DidPhase(start, config, Plan.ACCOUNTS, start, false, State());
          return;
        }
      }
      ok := true;
      DidPhase(start, config, Plan.ACCOUNTS, start, true, State());
    }

    method ApplyShares(config: NetplanConfig) returns (ok: bool)
      modifies this
      ensures Did(old(State()), config, Plan.SHARES, Plan.MAPPINGS, ok, State())
    {
      ghost var start := State();
      for i := 0 to |config.shares|
        invariant RunPhase(start, config, Plan.SHARES, 0) == RunPhase(State(), config, Plan.SHARES, i)
      {
        ok := PutShare(i, config, config.shares[i]);
        if !ok {
          DidPhase(start, config, Plan.SHARES, start, false, State());
          return;
        }
      }
      ok := true;
      DidPhase(start, config, Plan.SHARES, start, true, State());
    }

    method ApplyMappings(config: NetplanConfig) returns (ok: bool)
      modifies this
      ensures Did(old(State()), config, Plan.MAPPINGS, Plan.FIREWALL, ok, State())
    {
      ghost var start := State();
      for i := 0 to |config.mappings|
        invariant RunPhase(start, config, Plan.MAPPINGS, 0) == RunPhase(State(), config, Plan.MAPPINGS, i)
      {
        ok := MapRemote(i, config, config.mappings[i]);
        if !ok {
          DidPhase(start, config, Plan.MAPPINGS, start, false, State());
          return;
        }
      }
      ok := true;
      DidPhase(start, config, Plan.MAPPINGS, start, true, State());
    }

    method ApplyFirewall(config: NetplanConfig) returns (ok: bool)
      modifies this
      ensures Did(old(State()), config, Plan.FIREWALL, Plan.DRIVERS, ok, State())
    {
      ghost var start := State();
      ok := true;
      if config.firewall.Some? {
        ok := SwitchFirewall(config.firewall.value);
      }
      assert RunPhase(start, config, Plan.FIREWALL, 1) == Ok(start);
      DidPhase(start, config, Plan.FIREWALL, start, ok, State());
    }

    method ApplyDrivers(config: NetplanConfig) returns (ok: bool)
      modifies this
      ensures Did(old(State()), config, Plan.DRIVERS, Plan.AFTER_HOOKS, ok, State())
    {
      ghost var start := State();
      for i := 0 to |config.drivers|
        invariant RunPhase(start, config, Plan.DRIVERS, 0) == RunPhase(State(), config, Plan.DRIVERS, i)
      {
        ok := OperateDriver(i, config.drivers[i]);
        if !ok {
          DidPhase(start, config, Plan.DRIVERS, start, false, State());
          return;
        }
      }
      ok := true;
      DidPhase(start, config, Plan.DRIVERS, start, true, State());
    }

    /** The reversible part: identity, adapters, Wi-Fi, services, SMB, firewall. */
    method ApplyReversible(config: NetplanConfig) returns (ok: bool)
      modifies this
      ensures Did(old(State()), config, Plan.IDENTITY, Plan.DRIVERS, ok, State())
    {
      ghost var start := State();
      ok := ApplyIdentity(config);
      if !ok { DidFail(start, config, 1, 2, 10, State()); return; }
      ghost var w := State();
      ok := ApplyAdapters(config);
      if !ok { DidThen(start, config, 1, 2, 3, w, ok, State()); DidFail(start, config, 1, 3, 10, State()); return; }
      DidThen(start, config, 1, 2, 3, w, ok, State());
      w := State();
      ok := ApplyWifi(config);
      DidThen(start, config, 1, 3, 5, w, ok, State());
      if !ok { DidFail(start, config, 1, 5, 10, State()); return; }
      w := State();
      ok := ApplyServices(config);
      DidThen(start, config, 1, 5, 6, w, ok, State());
      if !ok { DidFail(start, config, 1, 6, 10, State()); return; }
      w := State();
      ok := ApplyAccounts(config);
      DidThen(start, config, 1, 6, 7, w, ok, State());
      if !ok { DidFail(start, config, 1, 7, 10, State()); return; }
      w := State();
      ok := ApplyShares(config);
      DidThen(start, config, 1, 7, 8, w, ok, State());
      if !ok { DidFail(start, config, 1, 8, 10, State()); return; }
      w := State();
      ok := ApplyMappings(config);
      DidThen(start, config, 1, 8, 9, w, ok, State());
      if !ok { DidFail(start, config, 1, 9, 10, State()); return; }
      w := State();
      ok := ApplyFirewall(config);
      DidThen(start, config, 1, 9, 10, w, ok, State());
    }

    /** Executes the undo log last record first; a failing record does not stop the others. */
    method RollbackAll() returns (errors: nat)
      modifies this
      ensures (State(), errors) == Transaction.RollbackAll(old(State()), old(rollback))
    {
      var log, k := rollback, |rollback|;
      errors := 0;
      ghost var total := Transaction.RollbackAll(State(), log);
      assert log[..k] == log;
      while k > 0
        invariant 0 <= k <= |log|
        invariant Unwinds(State(), log[..k], errors, total)
      {
        k := k - 1;
        ghost var before := State();
        var ok := UndoOne(log[k]);
        UnwindStep(before, Outcome(ok), log, k, errors, total);
        errors := errors + if ok then 0 else 1;
      }
      Unwound(State(), errors, total);
    }

    /** The whole transaction. */
    method Apply(config: NetplanConfig) returns (report: Report)
      modifies this
      ensures (State(), report) == Transaction.Apply(old(State()), config) && Guaranteed(old(State()), config)
    {
      GuaranteesHold(State(), config);
      var ok := RunHooks(config, Plan.BEFORE_HOOKS, BeforeApply);
      if !ok {
        return Report(false, false);
      }
      ok := ApplyReversible(config);
      var irreversible := false;
      if ok {
        irreversible := InstallsDriver(config);
        ghost var w := State();
        ok := ApplyDrivers(config);
        if ok {
          ghost var v := State();
          ok := RunHooks(config, Plan.AFTER_HOOKS, AfterApply);
          DidThen(w, config, Plan.DRIVERS, Plan.AFTER_HOOKS, Plan.ROLLBACK_HOOKS, v, ok, State());
        } else {
          DidFail(w, config, Plan.DRIVERS, Plan.AFTER_HOOKS, Plan.ROLLBACK_HOOKS, State());
        }
      }
      if ok {
        return Report(true, false);
      }
      var hadMutations := rollback != [];
      var errors := RollbackAll();
      var hooks := RunHooks(config, Plan.ROLLBACK_HOOKS, AfterRollback);
      return Report(false, hadMutations && !irreversible && errors == 0 && hooks);
    }
  }
}
