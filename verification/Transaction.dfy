/**
 The live-apply transaction: what each declaration does to the machine and to the undo log, the
 order in which declarations are applied, and the rollback after a failure.
 */
module Transaction {
  import opened Std
  import opened Text
  import opened Config
  import opened Selectors
  import opened Ipv4Recovery
  import opened Machine
  import Plan

  // Identity.

  function ApplyComputerName(w: World, name: string): Run {
    var w1 :- Read(w);
    if SameIgnoringCase(w1.core.computerName, name) then Ok(w1)
    else
      var w2 :- Change(w1, w1.core.(computerName := name));
      Ok(Push(w2, UndoComputerName(w1.core.computerName)))
  }

  /** A machine joined to a domain is refused: its membership could not be restored. */
  function ApplyWorkgroup(w: World, name: string): Run {
    var w1 :- Read(w);
    if w1.core.join.InDomain? then Err(w1)
    else if SameIgnoringCase(w1.core.join.workgroup, name) then Ok(w1)
    else
      var w2 :- Change(w1, w1.core.(join := InWorkgroup(name)));
      Ok(Push(w2, UndoWorkgroup(w1.core.join.workgroup)))
  }

  function ApplyDnsSuffix(w: World, suffix: string): Run {
    var w1 :- Read(w);
    if SameIgnoringCase(w1.core.dnsSuffix, suffix) then Ok(w1)
    else
      var w2 :- Change(w1, w1.core.(dnsSuffix := suffix));
      Ok(Push(w2, UndoDnsSuffix(w1.core.dnsSuffix)))
  }

  function ApplyIdentity(w: World, config: NetplanConfig, i: nat): Run {
    var field := Plan.FieldAt(i);
    if config.identity.None? || Plan.FieldValue(config.identity.value, field).None? then Ok(w)
    else
      var value := Plan.FieldValue(config.identity.value, field).value;
      var w1 := Attempt(w, Plan.SetIdentity(field));
      match field
      case ComputerNameField => ApplyComputerName(w1, value)
      case WorkgroupField => ApplyWorkgroup(w1, value)
      case DnsSuffixField => ApplyDnsSuffix(w1, value)
  }

  // Adapters. `a` is the position of the adapter an entry resolved to.

  /** Machine and inventory speak of the same adapters. */
  predicate Sized(w: World) {
    |w.hw.adapters| == |w.core.enabled| == |w.core.macs| == |w.nets| == |w.inventory.enabled| == |w.inventory.nets|
  }

  function TakeInventory(w: World): Run {
    var w1 :- Read(w);
    Ok(w1.(inventory := Inventory(w1.core.enabled, w1.nets)))
  }

  function EnableStep(w: World, i: nat, entry: AdapterConfig, a: nat): (r: Run)
    requires Sized(w) && a < |w.hw.adapters|
    ensures Sized(r.w) && r.w.hw == w.hw
  {
    if entry.enabled != Some(true) then Ok(w)
    else
      var w1 := Attempt(w, Plan.AdapterState(i, true));
      if w1.inventory.enabled[a] then Ok(w1)
      else
        var w2 :- SetEnabled(w1, a, true);
        Ok(Push(w2, UndoAdapterState(a, false)))
  }

  function MacStep(w: World, i: nat, entry: AdapterConfig, a: nat): (r: Run)
    requires Sized(w) && a < |w.hw.adapters|
    ensures Sized(r.w) && r.w.hw == w.hw
  {
    if entry.mac.None? then Ok(w)
    else
      var w1 := Attempt(w, Plan.AdapterMac(i));
      var enabledDuringApply := entry.enabled == Some(true) || w1.inventory.enabled[a];
      if w1.hw.adapters[a].guid.None? then Err(w1)
      else
        var w2 :- Read(w1);
        var w3 :- Read(w2);
        var w4 :- Change(w3, w3.core.(macs := w3.core.macs[a := Some(CanonicalMac(entry.mac.value))]));
        var w5 := Push(w4, UndoMac(a, w3.core.macs[a], enabledDuringApply));
        if enabledDuringApply then Machine.RestartAdapter(w5, a) else Ok(w5)
  }

  /** The `netsh` work of switching an adapter to DHCP, as far as the captured state needs it. */
  function DhcpSwitch(w: World, r: NetRestore, dnsFromDhcp: bool): Run
    requires r.adapter < |w.nets|
  {
    var w1 :- Netsh(w, r.adapter, if r.snapshot.dhcp then [] else [AddressFromDhcp]);
    var w2 :- if r.snapshot.manual == [] then Ok(w1) else RemoveCaptured(w1, r);
    Netsh(w2, r.adapter, (if dnsFromDhcp && !r.dnsFromDhcp then [DnsFromDhcp] else [])
                         + (if dnsFromDhcp && !r.winsFromDhcp then [WinsFromDhcp] else []))
  }

  function RemoveCaptured(w: World, r: NetRestore): (run: Run)
    requires r.adapter < |w.nets|
    ensures |run.w.nets| == |w.nets|
  {
    var w1 :- Read(w);
    var current := w1.nets[r.adapter];
    Netsh(w1, r.adapter, DeleteAddresses(Addresses(r.snapshot.manual), current) + DeleteGateways(r.snapshot.gateways, current))
  }

  function Pop(w: World): World
    requires w.rollback != []
  {
    w.(rollback := w.rollback[..|w.rollback| - 1])
  }

  /** Reconfigures one adapter under an undo record that is dropped again when nothing changed. */
  function Reconfigure(w: World, r: NetRestore, target: Ipv4Config): Run
    requires r.adapter < |w.nets|
  {
    var w1 := Push(w, UndoIpv4(r));
    match target
    case Static(addresses, _, _, _) =>
      if StaticMatches(r, target) then Ok(Pop(w1))
      else if addresses == [] then Err(w1)
      else Netsh(w1, r.adapter, StaticCommands(target))
    case Dhcp(dnsFromDhcp) =>
      if DhcpUnchanged(r, dnsFromDhcp) then Ok(Pop(w1)) else DhcpSwitch(w1, r, dnsFromDhcp)
  }

  function Ipv4Step(w: World, i: nat, entry: AdapterConfig, a: nat): Run
    requires Sized(w) && a < |w.hw.adapters|
  {
    if entry.ipv4.None? then Ok(w)
    else
      var w1 := Attempt(w, Plan.AdapterIpv4(i));
      if w1.hw.adapters[a].guid.None? then Err(w1)
      else
        var w2 :- Read(w1);
        var w3 :- Read(w2);
        Reconfigure(w3, Capture(a, w3.inventory.nets[a], w3.nets[a], entry.ipv4.value), entry.ipv4.value)
  }

  function DisableStep(w: World, i: nat, entry: AdapterConfig, a: nat): (r: Run)
    requires Sized(w) && a < |w.hw.adapters|
    ensures Sized(r.w) && r.w.hw == w.hw
  {
    if entry.enabled != Some(false) then Ok(w)
    else
      var w1 := Attempt(w, Plan.AdapterState(i, false));
      if !w1.inventory.enabled[a] then Ok(w1)
      else
        var w2 :- SetEnabled(w1, a, false);
        Ok(Push(w2, UndoAdapterState(a, true)))
  }

  lemma Ipv4StepFrame(w: World, i: nat, entry: AdapterConfig, a: nat)
    requires Sized(w) && a < |w.hw.adapters|
    ensures var r := Ipv4Step(w, i, entry, a).w;
      && Sized(r) && r.hw == w.hw && r.core == w.core && r.switches == w.switches && r.inventory == w.inventory
      && r.unrepaired == w.unrepaired
      && (forall j :: 0 <= j < |w.nets| && j != a ==> r.nets[j] == w.nets[j])
  {
    if entry.ipv4.Some? && w.hw.adapters[a].guid.Some? {
      var w3 := Tick(Tick(Attempt(w, Plan.AdapterIpv4(i))));
      ReconfigureFrame(w3, Capture(a, w3.inventory.nets[a], w3.nets[a], entry.ipv4.value), entry.ipv4.value);
    }
  }

  /** IPv4 work leaves everything but the adapter's IPv4 state and the undo log alone. */
  predicate OnlyNetAndLog(a: World, b: World, adapter: nat) {
    OnlyNet(a.(rollback := []), b.(rollback := []), adapter)
  }

  lemma DhcpSwitchFrame(w: World, r: NetRestore, dnsFromDhcp: bool)
    requires r.adapter < |w.nets|
    ensures OnlyNet(DhcpSwitch(w, r, dnsFromDhcp).w, w, r.adapter)
  {
    var first := if r.snapshot.dhcp then [] else [AddressFromDhcp];
    NetshFrame(w, r.adapter, first);
    var r1 := Netsh(w, r.adapter, first);
    if r1.Ok? {
      var w1 := r1.w;
      var r2 := if r.snapshot.manual == [] then Ok(w1) else RemoveCaptured(w1, r);
      if r.snapshot.manual != [] {
        var t, current := Tick(w1), w1.nets[r.adapter];
        NetshFrame(t, r.adapter, DeleteAddresses(Addresses(r.snapshot.manual), current) + DeleteGateways(r.snapshot.gateways, current));
      }
      if r2.Ok? {
        NetshFrame(r2.w, r.adapter, (if dnsFromDhcp && !r.dnsFromDhcp then [DnsFromDhcp] else [])
                                    + (if dnsFromDhcp && !r.winsFromDhcp then [WinsFromDhcp] else []));
      }
    }
  }

  /** The log afterwards: one new record, or none and then nothing at all has changed. */
  lemma ReconfigureFrame(w: World, r: NetRestore, target: Ipv4Config)
    requires r.adapter < |w.nets|
    ensures var run := Reconfigure(w, r, target);
      && OnlyNetAndLog(run.w, w, r.adapter)
      && (run.w.rollback == w.rollback + [UndoIpv4(r)] || (run.w.rollback == w.rollback && run.w.nets == w.nets))
      && run.w.attempted == w.attempted
  {
    var w1 := Push(w, UndoIpv4(r));
    match target
    case Static(addresses, _, _, _) =>
      if !StaticMatches(r, target) && addresses != [] {
        NetshFrame(w1, r.adapter, StaticCommands(target));
      }
    case Dhcp(dnsFromDhcp) =>
      if !DhcpUnchanged(r, dnsFromDhcp) {
        DhcpSwitchFrame(w1, r, dnsFromDhcp);
      }
  }

  function ApplyAdapterAt(w: World, i: nat, entry: AdapterConfig, a: nat): (r: Run)
    requires Sized(w) && a < |w.hw.adapters|
    ensures Sized(r.w) && r.w.hw == w.hw
  {
    var w1 :- EnableStep(w, i, entry, a);
    var w2 :- MacStep(w1, i, entry, a);
    Ipv4StepFrame(w2, i, entry, a);
    var w3 :- Ipv4Step(w2, i, entry, a);
    DisableStep(w3, i, entry, a)
  }

  /** An entry fails when it resolves to no adapter of the inventory the machine still has. */
  function ApplyAdapter(w: World, i: nat, entry: AdapterConfig): Run {
    var resolved := ResolveAdapter(w.hw.adapters, entry.selector);
    if resolved.Failure? || !Sized(w) then Err(w) else ApplyAdapterAt(w, i, entry, resolved.value)
  }

  // Wi-Fi.

  /** One inventory, one client and one interface list serve all Wi-Fi declarations. */
  function OpenWifi(w: World): Run {
    var w1 :- Read(w);
    var w2 :- Read(w1);
    Read(w2)
  }

  function ApplyProfile(w: World, i: nat, profile: WifiProfile): Run {
    var w1 := Attempt(w, Plan.WifiInstall(i));
    var resolved := ResolveWifi(w1.hw.adapters, w1.hw.wifi, profile.selector);
    if resolved.Failure? then Err(w1)
    else
      var interface, name := w1.hw.wifi[resolved.value].guid, Fold(profile.ProfileName());
      var w2 :- Read(w1);
      var w3 := Push(w2, UndoProfile(interface, name, LookUp(w2.core.profiles, (interface, name))));
      var w4 :- Read(w3);
      SetProfile(w4, interface, name, Written(profile))
  }

  function ApplyAction(w: World, i: nat, action: WifiAction): Run {
    var w1 := Attempt(w, Plan.WifiRun(i, Plan.KindOf(action)));
    var resolved := ResolveWifi(w1.hw.adapters, w1.hw.wifi, ActionSelector(action));
    if resolved.Failure? then Err(w1)
    else
      var interface := w1.hw.wifi[resolved.value].guid;
      match action
      case Scan(_) =>
        var w2 :- Read(w1);
        Read(w2)
      case Connect(_, profile) =>
        var w2 :- Read(w1);
        var w3 := Push(w2, UndoConnection(interface, LookUp(w2.core.connections, interface)));
        Machine.Connect(w3, interface, Fold(profile))
      case Disconnect(_) =>
        var w2 :- Read(w1);
        var w3 := Push(w2, UndoConnection(interface, LookUp(w2.core.connections, interface)));
        Machine.Disconnect(w3, interface)
  }

  // Services and SMB.

  function ApplyService(w: World, i: nat, service: Service): Run {
    var name := Fold(service.name);
    var w1 :- Read(Attempt(w, Plan.ServiceSwitch(i)));
    if name !in w1.core.services then Err(w1)
    else
      var wasRunning := w1.core.services[name] == RunningNow;
      if wasRunning == (service.state == Running) then Ok(w1)
      else SetService(Push(w1, UndoService(name, wasRunning)), name, !wasRunning)
  }

  function ApplyAccount(w: World, i: nat, account: SmbAccount): Run {
    if account.kind != Local then Ok(w)
    else
      var name := Fold(account.username);
      var w1 :- Read(Attempt(w, Plan.AccountEnsure(i)));
      if name in w1.core.accounts then Ok(w1)
      else
        var w2 :- Read(w1);
        var w3 :- Change(w2, w2.core.(accounts := w2.core.accounts + {name}));
        Ok(Push(w3, UndoAccount(name)))
  }

  /** The first declared account with this identifier, ignoring ASCII case. */
  function FindAccount(accounts: seq<SmbAccount>, reference: string): (r: Option<SmbAccount>)
    ensures r.Some? ==> r.value in accounts && SameIgnoringCase(r.value.id, reference)
    ensures r.None? <==> forall a :: a in accounts ==> !SameIgnoringCase(a.id, reference)
  {
    if accounts == [] then None
    else if SameIgnoringCase(accounts[0].id, reference) then Some(accounts[0])
    else
      assert forall a :: a in accounts ==> a == accounts[0] || a in accounts[1..];
      FindAccount(accounts[1..], reference)
  }

  function GrantedUsers(config: NetplanConfig, references: seq<string>): Option<seq<string>> {
    if references == [] then Some([])
    else
      var account, rest := FindAccount(config.accounts, references[0]), GrantedUsers(config, references[1..]);
      if account.None? || rest.None? then None else Some([account.value.username] + rest.value)
  }

  /** The access a share declares; unknown when it names an account the document lacks. */
  function ShareSecurity(config: NetplanConfig, share: SmbShare): Option<Security> {
    if share.accounts == [] then Some(Everyone(share.readOnly))
    else
      var users := GrantedUsers(config, share.accounts);
      if users.None? then None else Some(Granted(users.value, share.readOnly))
  }

  /**
   Adds a share, or updates it in place: information first, then security once more. When the
   security call fails the share is written back, and stays as declared if that call fails too.
   */
  function WriteShare(w: World, name: string, previous: Option<ShareState>, state: ShareState): Run {
    var w1 :- Change(w, w.core.(shares := w.core.shares[name := state]));
    if previous.None? then Ok(Push(w1, UndoShare(name, previous)))
    else
      var secured := Read(w1);
      if secured.Ok? then Ok(Push(secured.w, UndoShare(name, previous)))
      else
        var restored := RestoreShare(secured.w, name, previous.value).w;
        var writtenBack := Healthy(secured.w) || state == previous.value;
        Err(restored.(unrepaired := if writtenBack then restored.unrepaired else restored.unrepaired + {name}))
  }

  function ApplyShare(w: World, i: nat, config: NetplanConfig, share: SmbShare): Run {
    var name := Fold(share.name);
    var w1 :- Read(Attempt(w, Plan.ShareApply(i)));
    var security := ShareSecurity(config, share);
    if security.None? then Err(w1)
    else
      var w2 :- Read(w1);
      WriteShare(w2, name, LookUp(w2.core.shares, name), ShareState(share.path, share.description, security.value, 0))
  }

  /** The account a mapping refers to exists, or it refers to none. */
  predicate CredentialsKnown(config: NetplanConfig, mapping: SmbMapping) {
    mapping.account.Some? ==> FindAccount(config.accounts, mapping.account.value).Some?
  }

  function Mapped(core: Core, mapping: SmbMapping): Core {
    if mapping.local.Some? then core.(drives := core.drives[Fold(mapping.local.value) := mapping.remote])
    else core.(remotes := core.remotes + {Fold(mapping.remote)})
  }

  function TargetOfMapping(mapping: SmbMapping): MappingTarget {
    if mapping.local.Some? then Drive(Fold(mapping.local.value)) else Remote(Fold(mapping.remote))
  }

  function AddMapping(w: World, config: NetplanConfig, mapping: SmbMapping): Run {
    if !CredentialsKnown(config, mapping) then Err(w)
    else
      var w1 :- Read(w);
      var w2 :- Change(w1, Mapped(w1.core, mapping));
      Ok(Push(w2, UndoMapping(TargetOfMapping(mapping))))
  }

  function ApplyMapping(w: World, i: nat, config: NetplanConfig, mapping: SmbMapping): Run {
    var w1 := Attempt(w, Plan.MappingApply(i));
    if mapping.local.None? then AddMapping(w1, config, mapping)
    else
      var w2 :- Read(w1);
      var drive := Fold(mapping.local.value);
      if drive !in w2.core.drives then AddMapping(w2, config, mapping)
      else if SameIgnoringCase(w2.core.drives[drive], mapping.remote) then Ok(w2)
      else Err(w2)
  }

  function ApplyFirewall(w: World, on: bool): Run {
    var w1 :- Read(Attempt(w, Plan.FirewallSwitch));
    var w2 :- Read(w1);
    var w3 :- Read(w2);
    var previous := w3.core.firewall;
    if previous.AllEqual(on) then Ok(w3)
    else
      var w4 := Push(w3, UndoFirewall(previous));
      Risky(w4, w4.core.(firewall := Firewall(on, on, on)),
            w4.core.(firewall := if Healthy(w4) then previous else Damage(w4).firewall))
  }

  // Hooks and drivers.

  function RunHook(w: World, op: Plan.Operation): Run {
    Read(Attempt(w, op))
  }

  function RunHookItem(w: World, config: NetplanConfig, stage: HookStage, i: nat): Run
    requires i < |config.hooks|
  {
    if config.hooks[i].stage == stage then RunHook(w, Plan.HookRun(i, stage)) else Ok(w)
  }

  function InstallDriver(w: World, i: nat, hardwareId: Option<string>, force: bool, restart: RestartPolicy): Run {
    if force && hardwareId.None? then Err(w)
    else
      var w1 :- Read(w);
      if restart == Always || (restart == IfRequired && i in w1.hw.rebootNeeded) then
        if hardwareId.None? then Err(w1) else Read(w1)
      else Ok(w1)
  }

  function ApplyDriver(w: World, i: nat, operation: DriverOperation): Run {
    match operation
    case Install(_, hardwareId, force, restart) => InstallDriver(Attempt(w, Plan.DriverInstall(i, force)), i, hardwareId, force, restart)
    case RestartAdapter(selector) =>
      var w1 :- Read(Attempt(w, Plan.DriverRestart(i)));
      var resolved := ResolveAdapter(w1.hw.adapters, selector);
      if resolved.Failure? || resolved.value >= |w1.core.enabled| then Err(w1) else Machine.RestartAdapter(w1, resolved.value)
  }

  // Whole runs.

  /** Applies one declaration of a phase. */
  function RunItem(w: World, config: NetplanConfig, phase: nat, i: nat): Run
    requires phase < Plan.PHASES && i < Plan.Count(config, phase)
  {
    match phase
    case 0 => RunHookItem(w, config, BeforeApply, i)
    case 1 => ApplyIdentity(w, config, i)
    case 2 => ApplyAdapter(w, i, config.adapters[i])
    case 3 => ApplyProfile(w, i, config.wifi[i])
    case 4 => ApplyAction(w, i, config.wifiActions[i])
    case 5 => ApplyService(w, i, config.services[i])
    case 6 => ApplyAccount(w, i, config.accounts[i])
    case 7 => ApplyShare(w, i, config, config.shares[i])
    case 8 => ApplyMapping(w, i, config, config.mappings[i])
    case 9 => if config.firewall.Some? then ApplyFirewall(w, config.firewall.value) else Ok(w)
    case 10 => ApplyDriver(w, i, config.drivers[i])
    case 11 => RunHookItem(w, config, AfterApply, i)
    case 12 => RunHookItem(w, config, AfterRollback, i)
  }

  /** What a phase reads before its first declaration. */
  function Enter(w: World, config: NetplanConfig, phase: nat): Run {
    if phase == Plan.ADAPTERS && config.adapters != [] then TakeInventory(w)
    else if phase == Plan.PROFILES && (config.wifi != [] || config.wifiActions != []) then OpenWifi(w)
    else Ok(w)
  }

  function RunPhase(w: World, config: NetplanConfig, phase: nat, i: nat): Run
    requires phase < Plan.PHASES && i <= Plan.Count(config, phase)
    decreases Plan.Count(config, phase) - i
  {
    if i == Plan.Count(config, phase) then Ok(w)
    else
      var w1 :- RunItem(w, config, phase, i);
      RunPhase(w1, config, phase, i + 1)
  }

  /** Runs the phases from `phase` up to but excluding `last`, stopping at the first failure. */
  function RunPhases(w: World, config: NetplanConfig, phase: nat, last: nat): Run
    requires phase <= last <= Plan.PHASES
    decreases last - phase
  {
    if phase == last then Ok(w)
    else
      var w1 :- Enter(w, config, phase);
      var w2 :- RunPhase(w1, config, phase, 0);
      RunPhases(w2, config, phase + 1, last)
  }

  lemma {:induction false} RunPhasesSplit(w: World, config: NetplanConfig, phase: nat, mid: nat, last: nat)
    requires phase <= mid <= last <= Plan.PHASES
    ensures RunPhases(w, config, phase, last)
         == var r := RunPhases(w, config, phase, mid); if r.Err? then r else RunPhases(r.w, config, mid, last)
    decreases mid - phase
  {
    if phase < mid {
      var r1 := Enter(w, config, phase);
      if r1.Ok? {
        var r2 := RunPhase(r1.w, config, phase, 0);
        if r2.Ok? {
          RunPhasesSplit(r2.w, config, phase + 1, mid, last);
        }
      }
    }
  }

  /** Undo records are executed last first; every one runs, whatever happened to the others. */
  function RollbackAll(w: World, log: seq<Undo>): (r: (World, nat))
    ensures r.0.hw == w.hw && |r.0.nets| == |w.nets| && r.0.attempted == w.attempted && r.0.unrepaired == w.unrepaired
    decreases |log|
  {
    if log == [] then (w, 0)
    else
      var last, rest := log[|log| - 1], log[..|log| - 1];
      var run := Execute(w, last);
      UndoOutcome(w, last);
      var (after, errors) := RollbackAll(run.w, rest);
      (after, errors + if run.Err? then 1 else 0)
  }

  datatype Report = Report(ok: bool, rolledBack: bool)

  predicate InstallsDriver(config: NetplanConfig) {
    exists i :: 0 <= i < |config.drivers| && config.drivers[i].Install?
  }

  /** The run up to its end or its first failure, and whether drivers were reached by then. */
  function Forward(w: World, config: NetplanConfig): (Run, bool) {
    var reversible := RunPhases(w, config, Plan.IDENTITY, Plan.DRIVERS);
    if reversible.Err? then (reversible, false)
    else (RunPhases(reversible.w, config, Plan.DRIVERS, Plan.ROLLBACK_HOOKS), true)
  }

  /** A whole live apply. */
  function Apply(w: World, config: NetplanConfig): (World, Report) {
    var before := RunPhases(w, config, Plan.BEFORE_HOOKS, Plan.IDENTITY);
    if before.Err? then (before.w, Report(false, false))
    else
      var (run, driversReached) := Forward(before.w, config);
      if run.Ok? then (run.w, Report(true, false))
      else
        var (restored, errors) := RollbackAll(run.w, run.w.rollback);
        var hooks := RunPhases(restored, config, Plan.ROLLBACK_HOOKS, Plan.PHASES);
        (hooks.w, Report(false, run.w.rollback != [] && !(driversReached && InstallsDriver(config)) && errors == 0 && hooks.Ok?))
  }
}
