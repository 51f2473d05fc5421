/**
 The machine a live apply works on. Every call into Windows is a primitive that succeeds or
 fails as the run's fault sequence says, so a theorem about all fault sequences is a theorem
 about every point of failure.
 */
module Machine {
  import opened Std
  import opened Text
  import opened Config
  import opened Model
  import opened Selectors
  import opened Ipv4Recovery
  import Plan

  datatype Join = InWorkgroup(workgroup: string) | InDomain

  /** `Transitional` stands for every service state other than running and stopped. */
  datatype ServiceStatus = RunningNow | StoppedNow | Transitional

  /** A profile stored by Windows: one written from a declaration or any other document. */
  datatype ProfileContent = Written(profile: WifiProfile) | Foreign(xml: string)

  datatype Security = Everyone(readOnly: bool) | Granted(users: seq<string>, readOnly: bool) | Descriptor(bytes: seq<u8>)

  datatype ShareState = ShareState(path: string, remark: Option<string>, security: Security, details: nat)

  datatype Firewall = Firewall(domain: bool, private_: bool, public_: bool) {
    predicate AllEqual(on: bool) {
      domain == on && private_ == on && public_ == on
    }
  }

  /** Everything a run can change except IPv4. Names that Windows folds are kept folded. */
  datatype Core = Core(
    computerName: string,
    join: Join,
    dnsSuffix: string,
    enabled: seq<bool>,
    macs: seq<Option<string>>,
    profiles: map<(nat, string), ProfileContent>,
    connections: map<nat, string>,
    services: map<string, ServiceStatus>,
    accounts: set<string>,
    shares: map<string, ShareState>,
    drives: map<string, string>,
    remotes: set<string>,
    firewall: Firewall)

  function LookUp<K, V>(m: map<K, V>, k: K): Option<V> {
    if k in m then Some(m[k]) else None
  }

  function Store<K, V>(m: map<K, V>, k: K, v: Option<V>): map<K, V> {
    if v.Some? then m[k := v.value] else m - {k}
  }

  /** Deleting a profile disconnects the interface that uses it. */
  function DropProfile(core: Core, interface: nat, name: string): Core {
    core.(profiles := core.profiles - {(interface, name)},
          connections := if LookUp(core.connections, interface) == Some(name) then core.connections - {interface} else core.connections)
  }

  /** What a failed call may have left behind where its undo record is already written. */
  datatype Junk = Junk(
    net: Net,
    service: ServiceStatus,
    connection: Option<string>,
    profileWritten: bool,
    firewall: Firewall)

  /**
   How a call goes: well, well with the switched adapter in the IPv4 state `net` afterwards, or
   badly. Only calls that switch an adapter look at `net`.
   */
  datatype Fault = Good | Shifted(net: Net) | Bad(junk: Junk)

  /** What stays as it is during a run; `rebootNeeded` names the driver operations whose installation asks for a restart. */
  datatype Hardware = Hardware(
    adapters: seq<AdapterInfo>,
    wifi: seq<WifiInterface>,
    network: Environment,
    rebootNeeded: set<nat>)

  datatype MappingTarget = Drive(letter: string) | Remote(path: string)

  datatype Undo =
    | UndoComputerName(name: string)
    | UndoWorkgroup(workgroup: string)
    | UndoDnsSuffix(suffix: string)
    | UndoAdapterState(adapter: nat, enabled: bool)
    | UndoMac(adapter: nat, previous: Option<string>, restart: bool)
    | UndoIpv4(restore: NetRestore)
    | UndoProfile(interface: nat, profile: string, content: Option<ProfileContent>)
    | UndoConnection(interface: nat, connection: Option<string>)
    | UndoService(service: string, running: bool)
    | UndoAccount(username: string)
    | UndoShare(share: string, state: Option<ShareState>)
    | UndoMapping(target: MappingTarget)
    | UndoFirewall(firewall: Firewall)

  /** The one inventory taken before the adapter entries are applied. */
  datatype Inventory = Inventory(enabled: seq<bool>, nets: seq<Net>)

  /**
   A machine in the middle of a run: its state, the undo records written so far, the faults
   still to come, the planned operations reached, the adapter switches issued, and the shares a
   failed update left changed without an undo record.
   */
  datatype World = World(
    hw: Hardware,
    core: Core,
    nets: seq<Net>,
    rollback: seq<Undo>,
    faults: seq<Fault>,
    attempted: seq<Plan.Operation>,
    inventory: Inventory,
    switches: seq<(nat, bool)>,
    unrepaired: set<string>)

  datatype Run = Ok(w: World) | Err(w: World) {
    predicate IsFailure() {
      Err?
    }

    function PropagateFailure(): Run
      requires Err?
    {
      this
    }

    function Extract(): World
      requires Ok?
    {
      w
    }
  }

  // Primitives.

  predicate Healthy(w: World) {
    w.faults == [] || !w.faults[0].Bad?
  }

  function Tick(w: World): World {
    w.(faults := if w.faults == [] then [] else w.faults[1..])
  }

  function Damage(w: World): Junk
    requires !Healthy(w)
  {
    w.faults[0].junk
  }

  function Push(w: World, u: Undo): World {
    w.(rollback := w.rollback + [u])
  }

  function Attempt(w: World, op: Plan.Operation): World {
    w.(attempted := w.attempted + [op])
  }

  /** A query, or a call whose effects are not part of the machine state. */
  function Read(w: World): Run {
    if Healthy(w) then Ok(Tick(w)) else Err(Tick(w))
  }

  /** A change that either happens or leaves the machine as it was. */
  function Change(w: World, core: Core): Run {
    if Healthy(w) then Ok(Tick(w).(core := core)) else Err(Tick(w))
  }

  /** A change whose failure may leave `damaged` behind. */
  function Risky(w: World, core: Core, damaged: Core): Run {
    if Healthy(w) then Ok(Tick(w).(core := core)) else Err(Tick(w).(core := damaged))
  }

  /** Fields a run of primitives leaves alone unless it says otherwise. */
  predicate SameLog(a: World, b: World) {
    a.hw == b.hw && a.rollback == b.rollback && a.attempted == b.attempted && a.inventory == b.inventory && a.unrepaired == b.unrepaired
  }

  /** The run has switched the adapter on or off, or tried to. */
  predicate Issued(w: World, adapter: nat) {
    (adapter, true) in w.switches || (adapter, false) in w.switches
  }

  /** The IPv4 state of switched adapters alone may differ, and never whether its servers are static. */
  predicate NetsShifted(before: World, after: World) {
    && |after.nets| == |before.nets|
    && (forall s :: s in before.switches ==> s in after.switches)
    && (forall i :: 0 <= i < |before.nets| ==>
          && (after.nets[i] == before.nets[i] || Issued(after, i))
          && after.nets[i].dnsStatic == before.nets[i].dnsStatic && after.nets[i].winsStatic == before.nets[i].winsStatic)
  }

  /** Only the admin state and the IPv4 state of one adapter may differ. */
  predicate OnlySwitch(a: World, b: World, adapter: nat)
    requires adapter < |b.core.enabled|
  {
    && SameLog(a, b) && NetsShifted(b, a)
    && (forall i :: 0 <= i < |b.nets| && i != adapter ==> a.nets[i] == b.nets[i])
    && |a.core.enabled| == |b.core.enabled|
    && a.core == b.core.(enabled := b.core.enabled[adapter := a.core.enabled[adapter]])
  }

  /**
   Switching an adapter may leave it in another IPv4 state: addresses written to the active store
   only may go, and DHCP may be asked again. The registry still says which servers are static.
   */
  function Shift(w: World, adapter: nat): (r: World)
    ensures |r.nets| == |w.nets| && r == w.(nets := r.nets)
  {
    if w.faults != [] && w.faults[0].Shifted? && adapter < |w.nets| then
      var net := w.nets[adapter];
      w.(nets := w.nets[adapter := w.faults[0].net.(dnsStatic := net.dnsStatic, winsStatic := net.winsStatic)])
    else w
  }

  function SetEnabled(w: World, adapter: nat, on: bool): (r: Run)
    requires adapter < |w.core.enabled|
    ensures OnlySwitch(r.w, w, adapter) && r.w.core.enabled[adapter] == if r.Ok? then on else w.core.enabled[adapter]
    ensures r.w.switches == w.switches + [(adapter, on)]
  {
    var issued := w.(switches := w.switches + [(adapter, on)]);
    assert w.core.enabled == w.core.enabled[adapter := w.core.enabled[adapter]];
    assert (adapter, on) in issued.switches;
    Change(Shift(issued, adapter), w.core.(enabled := w.core.enabled[adapter := on]))
  }

  lemma OnlySwitchThen(after: World, mid: World, before: World, adapter: nat)
    requires adapter < |before.core.enabled| && OnlySwitch(mid, before, adapter) && OnlySwitch(after, mid, adapter)
    ensures OnlySwitch(after, before, adapter)
  {
  }

  /** Disable and enable; a failed enable is tried once more but still reported. */
  function RestartAdapter(w: World, adapter: nat): (r: Run)
    requires adapter < |w.core.enabled|
    ensures OnlySwitch(r.w, w, adapter)
    ensures r.Ok? ==> r.w.core.enabled[adapter] && (adapter, true) in r.w.switches
    ensures forall i, on :: (i, on) in r.w.switches ==> (i, on) in w.switches || i == adapter
  {
    var w1 :- SetEnabled(w, adapter, false);
    var second := SetEnabled(w1, adapter, true);
    OnlySwitchThen(second.w, w1, w, adapter);
    if second.Ok? then second
    else
      var third := SetEnabled(second.w, adapter, true);
      OnlySwitchThen(third.w, second.w, w, adapter);
      Err(third.w)
  }

  /** Runs netsh commands on one adapter until one fails. */
  function Netsh(w: World, adapter: nat, commands: seq<Command>): (r: Run)
    requires adapter < |w.nets|
    ensures |r.w.nets| == |w.nets|
    decreases |commands|
  {
    if commands == [] then Ok(w)
    else if !Healthy(w) then Err(Tick(w).(nets := if w.hw.network.failsClean then w.nets else w.nets[adapter := Damage(w).net]))
    else Netsh(Tick(w).(nets := w.nets[adapter := Effect(w.hw.network, commands[0], w.nets[adapter])]), adapter, commands[1..])
  }

  function SetProfile(w: World, interface: nat, name: string, content: ProfileContent): Run {
    var written := w.core.(profiles := w.core.profiles[(interface, name) := content]);
    Risky(w, written, if !Healthy(w) && Damage(w).profileWritten then written else w.core)
  }

  /** After a failed connect or disconnect the interface may be on any profile it knows, or none. */
  function SomeConnection(w: World, interface: nat): Core {
    var left := if Healthy(w) then None else Damage(w).connection;
    w.core.(connections := Store(w.core.connections, interface, if left.Some? && (interface, left.value) in w.core.profiles then left else None))
  }

  function Connect(w: World, interface: nat, name: string): Run {
    if (interface, name) !in w.core.profiles then Err(Tick(w).(core := SomeConnection(w, interface)))
    else Risky(w, w.core.(connections := w.core.connections[interface := name]), SomeConnection(w, interface))
  }

  function Disconnect(w: World, interface: nat): Run {
    Risky(w, w.core.(connections := w.core.connections - {interface}), SomeConnection(w, interface))
  }

  function Wanted(running: bool): ServiceStatus {
    if running then RunningNow else StoppedNow
  }

  function SetService(w: World, name: string, running: bool): Run {
    var w1 :- Read(w);
    if name !in w1.core.services then Err(w1)
    else if w1.core.services[name] == Wanted(running) then Ok(w1)
    else Risky(w1, w1.core.(services := w1.core.services[name := Wanted(running)]),
               w1.core.(services := w1.core.services[name := if Healthy(w1) then Transitional else Damage(w1).service]))
  }

  /** Writes a captured share back: its information first, then its security once more. */
  function RestoreShare(w: World, name: string, state: ShareState): Run {
    var w1 :- Change(w, w.core.(shares := w.core.shares[name := state]));
    if state.security == Descriptor([]) then Ok(w1) else Read(w1)
  }

  /** The adapter inventory and the two registry values that tell static servers from DHCP. */
  function ReadNet(w: World): Run {
    var w1 :- Read(w);
    var w2 :- Read(w1);
    Read(w2)
  }

  function RepairNet(w: World, r: NetRestore): (run: Run)
    requires r.adapter < |w.nets|
    ensures |run.w.nets| == |w.nets|
  {
    var w1 :- ReadNet(w);
    Netsh(w1, r.adapter, Repair(r, w1.nets[r.adapter]))
  }

  function CleanNet(w: World, r: NetRestore): (run: Run)
    requires r.adapter < |w.nets|
    ensures |run.w.nets| == |w.nets|
  {
    var w1 :- Read(w);
    Netsh(w1, r.adapter, Cleanup(r, w1.nets[r.adapter]))
  }

  function VerifyNet(w: World, r: NetRestore): Run
    requires r.adapter < |w.nets|
  {
    var w1 :- ReadNet(w);
    if VerifyRestored(r, w1.nets[r.adapter]) then Ok(w1) else Err(w1)
  }

  /** Re-reads the adapter, repairs it, cleans up the targets and verifies the result. */
  function RestoreNet(w: World, r: NetRestore): Run
    requires r.adapter < |w.nets|
  {
    var repaired :- RepairNet(w, r);
    var cleaned :- CleanNet(repaired, r);
    VerifyNet(cleaned, r)
  }

  predicate InRange(w: World, u: Undo) {
    match u
    case UndoAdapterState(adapter, _) => adapter < |w.core.enabled|
    case UndoMac(adapter, _, _) => adapter < |w.core.enabled| && adapter < |w.core.macs|
    case UndoIpv4(r) => r.adapter < |w.nets|
    case _ => true
  }

  /** Executes one undo record; a record for an adapter that is gone fails. */
  function Execute(w: World, u: Undo): Run {
    if !InRange(w, u) then Err(w) else
    match u
    case UndoComputerName(name) => Change(w, w.core.(computerName := name))
    case UndoWorkgroup(workgroup) => Change(w, w.core.(join := InWorkgroup(workgroup)))
    case UndoDnsSuffix(suffix) => Change(w, w.core.(dnsSuffix := suffix))
    case UndoAdapterState(adapter, on) => SetEnabled(w, adapter, on)
    case UndoMac(adapter, previous, restart) =>
      var w1 :- Change(w, w.core.(macs := w.core.macs[adapter := previous]));
      if restart then RestartAdapter(w1, adapter) else Ok(w1)
    case UndoIpv4(r) => RestoreNet(w, r)
    case UndoProfile(interface, name, content) =>
      var w1 :- Read(w);
      if content.Some? then SetProfile(w1, interface, name, content.value) else Change(w1, DropProfile(w1.core, interface, name))
    case UndoConnection(interface, connection) =>
      var w1 :- Read(w);
      if connection.Some? then Connect(w1, interface, connection.value) else Disconnect(w1, interface)
    case UndoService(name, running) => SetService(w, name, running)
    case UndoAccount(username) => Change(w, w.core.(accounts := w.core.accounts - {username}))
    case UndoShare(name, state) =>
      if state.Some? then RestoreShare(w, name, state.value) else Change(w, w.core.(shares := w.core.shares - {name}))
    case UndoMapping(target) =>
      Change(w, match target
        case Drive(letter) => w.core.(drives := w.core.drives - {letter})
        case Remote(path) => w.core.(remotes := w.core.remotes - {path}))
    case UndoFirewall(previous) =>
      var w1 :- Change(w, w.core.(firewall := w.core.firewall.(domain := previous.domain)));
      var w2 :- Change(w1, w1.core.(firewall := w1.core.firewall.(private_ := previous.private_)));
      Change(w2, w2.core.(firewall := w2.core.firewall.(public_ := previous.public_)))
  }

  /** The state after a successful undo, as a function of the state before it; IPv4 is apart. */
  function UndoCore(core: Core, u: Undo): Core {
    match u
    case UndoComputerName(name) => core.(computerName := name)
    case UndoWorkgroup(workgroup) => core.(join := InWorkgroup(workgroup))
    case UndoDnsSuffix(suffix) => core.(dnsSuffix := suffix)
    case UndoAdapterState(adapter, on) => if adapter < |core.enabled| then core.(enabled := core.enabled[adapter := on]) else core
    case UndoMac(adapter, previous, restart) =>
      if adapter < |core.macs| && adapter < |core.enabled| then
        core.(macs := core.macs[adapter := previous], enabled := if restart then core.enabled[adapter := true] else core.enabled)
      else core
    case UndoIpv4(_) => core
    case UndoProfile(interface, name, content) =>
      if content.Some? then core.(profiles := core.profiles[(interface, name) := content.value]) else DropProfile(core, interface, name)
    case UndoConnection(interface, connection) => core.(connections := Store(core.connections, interface, connection))
    case UndoService(name, running) => core.(services := core.services[name := Wanted(running)])
    case UndoAccount(username) => core.(accounts := core.accounts - {username})
    case UndoShare(name, state) => core.(shares := Store(core.shares, name, state))
    case UndoMapping(target) =>
      (match target
       case Drive(letter) => core.(drives := core.drives - {letter})
       case Remote(path) => core.(remotes := core.remotes - {path}))
    case UndoFirewall(previous) => core.(firewall := previous)
  }

  lemma {:induction false} NetshFrame(w: World, adapter: nat, commands: seq<Command>)
    requires adapter < |w.nets|
    ensures var r := Netsh(w, adapter, commands).w;
      && SameLog(r, w) && r.core == w.core && r.switches == w.switches
      && |r.nets| == |w.nets|
      && (forall i :: 0 <= i < |w.nets| && i != adapter ==> r.nets[i] == w.nets[i])
    decreases |commands|
  {
    if commands != [] && Healthy(w) {
      NetshFrame(Tick(w).(nets := w.nets[adapter := Effect(w.hw.network, commands[0], w.nets[adapter])]), adapter, commands[1..]);
    }
  }

  /** Without faults the netsh commands have exactly their modelled effects. */
  lemma {:induction false} NetshWithoutFaults(w: World, adapter: nat, commands: seq<Command>)
    requires adapter < |w.nets| && w.faults == []
    ensures Netsh(w, adapter, commands) == Ok(w.(nets := w.nets[adapter := RunAll(w.hw.network, commands, w.nets[adapter])]))
    decreases |commands|
  {
    if commands == [] {
      assert w.nets == w.nets[adapter := w.nets[adapter]];
    } else {
      var next := w.(nets := w.nets[adapter := Effect(w.hw.network, commands[0], w.nets[adapter])]);
      NetshWithoutFaults(next, adapter, commands[1..]);
    }
  }

  /** Commands that all succeed have exactly their modelled effects, whatever else may have failed. */
  lemma {:induction false} NetshOk(w: World, adapter: nat, commands: seq<Command>)
    requires adapter < |w.nets|
    ensures var r := Netsh(w, adapter, commands);
      r.Ok? ==> r.w.nets == w.nets[adapter := RunAll(w.hw.network, commands, w.nets[adapter])]
    decreases |commands|
  {
    if commands == [] {
      assert w.nets == w.nets[adapter := w.nets[adapter]];
    } else if Healthy(w) {
      NetshOk(Tick(w).(nets := w.nets[adapter := Effect(w.hw.network, commands[0], w.nets[adapter])]), adapter, commands[1..]);
    }
  }

  /** Only the IPv4 state of one adapter may differ. */
  predicate OnlyNet(a: World, b: World, adapter: nat) {
    && SameLog(a, b) && a.core == b.core && a.switches == b.switches
    && |a.nets| == |b.nets|
    && (forall i :: 0 <= i < |a.nets| && i != adapter ==> a.nets[i] == b.nets[i])
  }

  lemma RepairNetFrame(w: World, r: NetRestore)
    requires r.adapter < |w.nets|
    ensures OnlyNet(RepairNet(w, r).w, w, r.adapter)
  {
    var w1 := ReadNet(w);
    if w1.Ok? {
      NetshFrame(w1.w, r.adapter, Repair(r, w1.w.nets[r.adapter]));
    }
  }

  lemma CleanNetFrame(w: World, r: NetRestore)
    requires r.adapter < |w.nets|
    ensures OnlyNet(CleanNet(w, r).w, w, r.adapter)
  {
    if Read(w).Ok? {
      NetshFrame(Tick(w), r.adapter, Cleanup(r, w.nets[r.adapter]));
    }
  }

  lemma VerifyNetFrame(w: World, r: NetRestore)
    requires r.adapter < |w.nets|
    ensures OnlyNet(VerifyNet(w, r).w, w, r.adapter) && VerifyNet(w, r).w.nets == w.nets
    ensures VerifyNet(w, r).Ok? ==> VerifyRestored(r, w.nets[r.adapter])
  {
  }

  lemma RestoreNetFrame(w: World, r: NetRestore)
    requires r.adapter < |w.nets|
    ensures OnlyNet(RestoreNet(w, r).w, w, r.adapter)
    ensures RestoreNet(w, r).Ok? ==> VerifyRestored(r, RestoreNet(w, r).w.nets[r.adapter])
  {
    RepairNetFrame(w, r);
    var repaired := RepairNet(w, r);
    if repaired.Ok? {
      CleanNetFrame(repaired.w, r);
      var cleaned := CleanNet(repaired.w, r);
      if cleaned.Ok? {
        VerifyNetFrame(cleaned.w, r);
      }
    }
  }

  lemma RepairNetOk(w: World, r: NetRestore)
    requires r.adapter < |w.nets|
    ensures var run := RepairNet(w, r);
      run.Ok? ==> run.w.nets == w.nets[r.adapter := RunAll(w.hw.network, Repair(r, w.nets[r.adapter]), w.nets[r.adapter])]
  {
    var w1 := ReadNet(w);
    if w1.Ok? {
      NetshOk(w1.w, r.adapter, Repair(r, w.nets[r.adapter]));
    }
  }

  lemma CleanNetOk(w: World, r: NetRestore)
    requires r.adapter < |w.nets|
    ensures var run := CleanNet(w, r);
      run.Ok? ==> run.w.nets == w.nets[r.adapter := RunAll(w.hw.network, Cleanup(r, w.nets[r.adapter]), w.nets[r.adapter])]
  {
    NetshOk(Tick(w), r.adapter, Cleanup(r, w.nets[r.adapter]));
  }

  /** An IPv4 undo that succeeds ends exactly where the recovery model says. */
  lemma RestoreNetOk(w: World, r: NetRestore)
    requires r.adapter < |w.nets|
    ensures RestoreNet(w, r).Ok? ==> RestoreNet(w, r).w.nets == w.nets[r.adapter := Restored(w.hw.network, r, w.nets[r.adapter])]
  {
    RepairNetOk(w, r);
    RepairNetFrame(w, r);
    var repaired := RepairNet(w, r);
    if repaired.Ok? {
      CleanNetOk(repaired.w, r);
      VerifyNetFrame(CleanNet(repaired.w, r).w, r);
    }
  }

  /** With no faults ahead, an IPv4 undo ends where the recovery model says and reports the comparison. */
  lemma RestoreNetWithoutFaults(w: World, r: NetRestore)
    requires r.adapter < |w.nets| && w.faults == []
    ensures var net := Restored(w.hw.network, r, w.nets[r.adapter]);
      RestoreNet(w, r) == (if VerifyRestored(r, net) then Ok(w.(nets := w.nets[r.adapter := net])) else Err(w.(nets := w.nets[r.adapter := net])))
  {
    var current := w.nets[r.adapter];
    NetshWithoutFaults(w, r.adapter, Repair(r, current));
    var repaired := w.(nets := w.nets[r.adapter := RunAll(w.hw.network, Repair(r, current), current)]);
    NetshWithoutFaults(repaired, r.adapter, Cleanup(r, repaired.nets[r.adapter]));
  }

  /** Undoing the record switches adapter `a`. */
  predicate Writes(u: Undo, a: nat) {
    (u.UndoAdapterState? && u.adapter == a) || (u.UndoMac? && u.adapter == a && u.restart)
  }

  /** What every undo leaves alone, and the exact effect of one that succeeds. */
  ghost predicate UndoneAs(w: World, u: Undo, r: Run) {
    && SameLog(r.w, w) && |r.w.nets| == |w.nets|
    && (forall s :: s in w.switches ==> s in r.w.switches)
    && |r.w.core.enabled| == |w.core.enabled| && |r.w.core.macs| == |w.core.macs|
    && (r.Ok? ==> r.w.core == UndoCore(w.core, u) && forall a :: Writes(u, a) ==> Issued(r.w, a))
    && (forall i :: 0 <= i < |w.nets| && !Writes(u, i) && !(u.UndoIpv4? && u.restore.adapter == i) ==> r.w.nets[i] == w.nets[i])
    && (u.UndoIpv4? && r.Ok? ==>
          && u.restore.adapter < |w.nets| && VerifyRestored(u.restore, r.w.nets[u.restore.adapter])
          && r.w.nets[u.restore.adapter] == Restored(w.hw.network, u.restore, w.nets[u.restore.adapter]))
  }

  lemma UndoAdapterOutcome(w: World, u: Undo)
    requires u.UndoAdapterState? || u.UndoMac?
    ensures UndoneAs(w, u, Execute(w, u))
  {
  }

  lemma UndoProfileOutcome(w: World, u: Undo)
    requires u.UndoProfile?
    ensures UndoneAs(w, u, Execute(w, u))
  {
  }

  lemma UndoConnectionOutcome(w: World, u: Undo)
    requires u.UndoConnection?
    ensures UndoneAs(w, u, Execute(w, u))
  {
  }

  lemma UndoIpv4Outcome(w: World, u: Undo)
    requires u.UndoIpv4?
    ensures UndoneAs(w, u, Execute(w, u))
  {
    if InRange(w, u) {
      RestoreNetFrame(w, u.restore);
      RestoreNetOk(w, u.restore);
      assert Execute(w, u) == RestoreNet(w, u.restore);
    }
  }

  lemma UndoFirewallOutcome(w: World, u: Undo)
    requires u.UndoFirewall?
    ensures UndoneAs(w, u, Execute(w, u))
  {
  }

  lemma UndoServiceOutcome(w: World, u: Undo)
    requires u.UndoService?
    ensures UndoneAs(w, u, Execute(w, u))
  {
  }

  lemma UndoShareOutcome(w: World, u: Undo)
    requires u.UndoShare?
    ensures UndoneAs(w, u, Execute(w, u))
  {
  }

  lemma UndoPlainOutcome(w: World, u: Undo)
    requires u.UndoComputerName? || u.UndoWorkgroup? || u.UndoDnsSuffix? || u.UndoAccount? || u.UndoMapping?
    ensures UndoneAs(w, u, Execute(w, u))
  {
  }

  /** A successful undo has exactly the effect `UndoCore` describes; an IPv4 undo was verified. */
  lemma UndoOutcome(w: World, u: Undo)
    ensures UndoneAs(w, u, Execute(w, u))
  {
    match u
    case UndoIpv4(_) => UndoIpv4Outcome(w, u);
    case UndoAdapterState(_, _) => UndoAdapterOutcome(w, u);
    case UndoMac(_, _, _) => UndoAdapterOutcome(w, u);
    case UndoProfile(_, _, _) => UndoProfileOutcome(w, u);
    case UndoConnection(_, _) => UndoConnectionOutcome(w, u);
    case UndoFirewall(_) => UndoFirewallOutcome(w, u);
    case UndoService(_, _) => UndoServiceOutcome(w, u);
    case UndoShare(_, _) => UndoShareOutcome(w, u);
    case _ => UndoPlainOutcome(w, u);
  }
}
