/** The deterministic plan of a document and the capability check made against it. */
module Plan {
  import opened Std
  import opened Text
  import opened Config
  import opened Model
  import Selectors
  import TextLaws

  datatype IdentityField = ComputerNameField | WorkgroupField | DnsSuffixField

  datatype ActionKind = ScanKind | ConnectKind | DisconnectKind

  /** One planned operation, named by the declaration that asks for it. */
  datatype Operation =
    | HookRun(hook: nat, stage: HookStage)
    | SetIdentity(field: IdentityField)
    | AdapterState(adapter: nat, on: bool)
    | AdapterMac(adapter: nat)
    | AdapterIpv4(adapter: nat)
    | WifiInstall(profile: nat)
    | WifiRun(action: nat, kind: ActionKind)
    | ServiceSwitch(service: nat)
    | AccountEnsure(account: nat)
    | ShareApply(share: nat)
    | MappingApply(mapping: nat)
    | FirewallSwitch
    | DriverInstall(driver: nat, force: bool)
    | DriverRestart(driver: nat)

  datatype Risk = ReadOnly | Low | Connectivity | Destructive

  function StageName(stage: HookStage): string {
    match stage
    case BeforeApply => "before_apply"
    case AfterApply => "after_apply"
    case AfterRollback => "after_rollback"
  }

  function FieldName(field: IdentityField): string {
    match field
    case ComputerNameField => "computer_name"
    case WorkgroupField => "workgroup"
    case DnsSuffixField => "dns_suffix"
  }

  function KindName(kind: ActionKind): string {
    match kind
    case ScanKind => "scan"
    case ConnectKind => "connect"
    case DisconnectKind => "disconnect"
  }

  /** The dot-separated parts of an operation identifier. */
  function IdParts(op: Operation): seq<string> {
    match op
    case HookRun(i, stage) => ["hook", Decimal(i), StageName(stage)]
    case SetIdentity(field) => ["identity", FieldName(field)]
    case AdapterState(i, _) => ["adapter", Decimal(i), "enabled"]
    case AdapterMac(i) => ["adapter", Decimal(i), "mac"]
    case AdapterIpv4(i) => ["adapter", Decimal(i), "ipv4"]
    case WifiInstall(i) => ["wifi", "profile", Decimal(i)]
    case WifiRun(i, kind) => ["wifi", "action", Decimal(i), KindName(kind)]
    case ServiceSwitch(i) => ["service", Decimal(i), "state"]
    case AccountEnsure(i) => ["smb", "account", Decimal(i)]
    case ShareApply(i) => ["smb", "share", Decimal(i)]
    case MappingApply(i) => ["smb", "mapping", Decimal(i)]
    case FirewallSwitch => ["firewall", "enabled"]
    case DriverInstall(i, _) => ["driver", Decimal(i), "install"]
    case DriverRestart(i) => ["driver", Decimal(i), "restart_adapter"]
  }

  function CapabilityOf(op: Operation): string {
    match op
    case HookRun(_, _) => "hook.execute"
    case SetIdentity(field) => "identity." + FieldName(field) + ".apply"
    case AdapterState(_, _) => "adapter.state.apply"
    case AdapterMac(_) => "adapter.mac.apply"
    case AdapterIpv4(_) => "adapter.ipv4.apply"
    case WifiInstall(_) => "wifi.profile.apply"
    case WifiRun(_, kind) => "wifi." + KindName(kind)
    case ServiceSwitch(_) => "service.apply"
    case AccountEnsure(_) => "smb.account.apply"
    case ShareApply(_) => "smb.share.apply"
    case MappingApply(_) => "smb.mapping.apply"
    case FirewallSwitch => "firewall.apply"
    case DriverInstall(_, force) => if force then "driver.force_install" else "driver.install"
    case DriverRestart(_) => "adapter.restart"
  }

  function RiskOf(op: Operation): Risk {
    match op
    case HookRun(_, _) => Destructive
    case SetIdentity(_) => Connectivity
    case AdapterState(_, _) => Connectivity
    case AdapterMac(_) => Connectivity
    case AdapterIpv4(_) => Connectivity
    case WifiInstall(_) => Connectivity
    case WifiRun(_, kind) => if kind.ScanKind? then ReadOnly else Connectivity
    case DriverInstall(_, _) => Destructive
    case DriverRestart(_) => Destructive
    case _ => Low
  }

  function Id(op: Operation): string {
    Join(IdParts(op), ".")
  }

  // Phases of a run, in order.

  const BEFORE_HOOKS := 0
  const IDENTITY := 1
  const ADAPTERS := 2
  const PROFILES := 3
  const ACTIONS := 4
  const SERVICES := 5
  const ACCOUNTS := 6
  const SHARES := 7
  const MAPPINGS := 8
  const FIREWALL := 9
  const DRIVERS := 10
  const AFTER_HOOKS := 11
  const ROLLBACK_HOOKS := 12
  const PHASES := 13

  /** How many declarations a phase walks over. */
  function Count(config: NetplanConfig, phase: nat): nat
    requires phase < PHASES
  {
    match phase
    case 1 => 3
    case 2 => |config.adapters|
    case 3 => |config.wifi|
    case 4 => |config.wifiActions|
    case 5 => |config.services|
    case 6 => |config.accounts|
    case 7 => |config.shares|
    case 8 => |config.mappings|
    case 9 => 1
    case 10 => |config.drivers|
    case _ => |config.hooks|
  }

  function HookItem(config: NetplanConfig, stage: HookStage, i: nat): seq<Operation>
    requires i < |config.hooks|
  {
    if config.hooks[i].stage == stage then [HookRun(i, stage)] else []
  }

  function FieldAt(i: nat): IdentityField {
    if i == 0 then ComputerNameField else if i == 1 then WorkgroupField else DnsSuffixField
  }

  function FieldValue(identity: Identity, field: IdentityField): Option<string> {
    match field
    case ComputerNameField => identity.computerName
    case WorkgroupField => identity.workgroup
    case DnsSuffixField => identity.dnsSuffix
  }

  function IdentityItem(config: NetplanConfig, i: nat): seq<Operation> {
    if config.identity.Some? && FieldValue(config.identity.value, FieldAt(i)).Some? then [SetIdentity(FieldAt(i))] else []
  }

  function AdapterItem(i: nat, adapter: AdapterConfig): seq<Operation> {
    (if adapter.enabled == Some(true) then [AdapterState(i, true)] else [])
    + (if adapter.mac.Some? then [AdapterMac(i)] else [])
    + (if adapter.ipv4.Some? then [AdapterIpv4(i)] else [])
    + (if adapter.enabled == Some(false) then [AdapterState(i, false)] else [])
  }

  function KindOf(action: WifiAction): ActionKind {
    match action
    case Scan(_) => ScanKind
    case Connect(_, _) => ConnectKind
    case Disconnect(_) => DisconnectKind
  }

  function DriverItem(i: nat, operation: DriverOperation): seq<Operation> {
    if operation.Install? then [DriverInstall(i, operation.force)] else [DriverRestart(i)]
  }

  /** The operations one declaration contributes. */
  function Item(config: NetplanConfig, phase: nat, i: nat): seq<Operation>
    requires phase < PHASES && i < Count(config, phase)
  {
    match phase
    case 0 => HookItem(config, BeforeApply, i)
    case 1 => IdentityItem(config, i)
    case 2 => AdapterItem(i, config.adapters[i])
    case 3 => [WifiInstall(i)]
    case 4 => [WifiRun(i, KindOf(config.wifiActions[i]))]
    case 5 => [ServiceSwitch(i)]
    case 6 => if config.accounts[i].kind == Local then [AccountEnsure(i)] else []
    case 7 => [ShareApply(i)]
    case 8 => [MappingApply(i)]
    case 9 => if config.firewall.Some? then [FirewallSwitch] else []
    case 10 => DriverItem(i, config.drivers[i])
    case 11 => HookItem(config, AfterApply, i)
    case 12 => HookItem(config, AfterRollback, i)
  }

  /** The operations of one phase from declaration `i` on. */
  function PhaseFrom(config: NetplanConfig, phase: nat, i: nat): seq<Operation>
    requires phase < PHASES && i <= Count(config, phase)
    decreases Count(config, phase) - i
  {
    if i == Count(config, phase) then [] else Item(config, phase, i) + PhaseFrom(config, phase, i + 1)
  }

  /** The operations of the phases `phase` up to but excluding `last`. */
  function Phases(config: NetplanConfig, phase: nat, last: nat): seq<Operation>
    requires phase <= last <= PHASES
    decreases last - phase
  {
    if phase == last then [] else PhaseFrom(config, phase, 0) + Phases(config, phase + 1, last)
  }

  /** The labels of the whole plan. */
  function PlanOf(config: NetplanConfig): seq<Operation> {
    Phases(config, 0, PHASES)
  }

  lemma SumAssociates<T>(a: seq<T>, b: seq<T>, c: seq<T>)
    ensures (a + b) + c == a + (b + c)
  {
  }

  lemma {:induction false} PhasesSplit(config: NetplanConfig, phase: nat, mid: nat, last: nat)
    requires phase <= mid <= last <= PHASES
    ensures Phases(config, phase, last) == Phases(config, phase, mid) + Phases(config, mid, last)
    decreases mid - phase
  {
    if phase < mid {
      PhasesSplit(config, phase + 1, mid, last);
      SumAssociates(PhaseFrom(config, phase, 0), Phases(config, phase + 1, mid), Phases(config, mid, last));
    }
  }

  // The planner.

  /** Appends the operations of the hooks declared for one stage. */
  method PushHooks(config: NetplanConfig, phase: nat, stage: HookStage, before: seq<Operation>) returns (operations: seq<Operation>)
    requires (phase, stage) == (BEFORE_HOOKS, BeforeApply) || (phase, stage) == (AFTER_HOOKS, AfterApply) || (phase, stage) == (ROLLBACK_HOOKS, AfterRollback)
    ensures operations == before + PhaseFrom(config, phase, 0)
  {
    operations := before;
    for i := 0 to |config.hooks|
      invariant operations + PhaseFrom(config, phase, i) == before + PhaseFrom(config, phase, 0)
    {
      if config.hooks[i].stage == stage {
        operations := operations + [HookRun(i, stage)];
      }
    }
  }

  /** Appends the operations of one adapter entry: enable, address override, IPv4, disable. */
  method PushAdapter(i: nat, adapter: AdapterConfig, before: seq<Operation>) returns (operations: seq<Operation>)
    ensures operations == before + AdapterItem(i, adapter)
  {
    operations := before;
    if adapter.enabled == Some(true) {
      operations := operations + [AdapterState(i, true)];
    }
    if adapter.mac.Some? {
      operations := operations + [AdapterMac(i)];
    }
    if adapter.ipv4.Some? {
      operations := operations + [AdapterIpv4(i)];
    }
    if adapter.enabled == Some(false) {
      operations := operations + [AdapterState(i, false)];
    }
  }

  method PushAdapters(config: NetplanConfig, before: seq<Operation>) returns (operations: seq<Operation>)
    ensures operations == before + PhaseFrom(config, ADAPTERS, 0)
  {
    operations := before;
    for i := 0 to |config.adapters|
      invariant operations + PhaseFrom(config, ADAPTERS, i) == before + PhaseFrom(config, ADAPTERS, 0)
    {
      ghost var item := AdapterItem(i, config.adapters[i]);
      assert PhaseFrom(config, ADAPTERS, i) == item + PhaseFrom(config, ADAPTERS, i + 1);
      SumAssociates(operations, item, PhaseFrom(config, ADAPTERS, i + 1));
      operations := PushAdapter(i, config.adapters[i], operations);
    }
  }

  /** Appends the operations of a phase whose declarations each contribute what `Item` says. */
  method PushPhase(config: NetplanConfig, phase: nat, before: seq<Operation>) returns (operations: seq<Operation>)
    requires phase < PHASES
    ensures operations == before + PhaseFrom(config, phase, 0)
  {
    operations := before;
    for i := 0 to Count(config, phase)
      invariant operations + PhaseFrom(config, phase, i) == before + PhaseFrom(config, phase, 0)
    {
      operations := operations + Item(config, phase, i);
    }
  }

  lemma PhaseStep(config: NetplanConfig, phase: nat)
    requires phase < PHASES
    ensures Phases(config, 0, phase + 1) == Phases(config, 0, phase) + PhaseFrom(config, phase, 0)
  {
    PhasesSplit(config, 0, phase, phase + 1);
  }

  method BuildPlan(config: NetplanConfig) returns (operations: seq<Operation>)
    ensures operations == PlanOf(config)
  {
    operations := PushHooks(config, BEFORE_HOOKS, BeforeApply, []);
    PhaseStep(config, BEFORE_HOOKS);
    operations := PushPhase(config, IDENTITY, operations);
    PhaseStep(config, IDENTITY);
    operations := PushAdapters(config, operations);
    PhaseStep(config, ADAPTERS);
    for phase := PROFILES to AFTER_HOOKS
      invariant operations == Phases(config, 0, phase)
    {
      operations := PushPhase(config, phase, operations);
      PhaseStep(config, phase);
    }
    operations := PushHooks(config, AFTER_HOOKS, AfterApply, operations);
    PhaseStep(config, AFTER_HOOKS);
    operations := PushHooks(config, ROLLBACK_HOOKS, AfterRollback, operations);
    PhaseStep(config, ROLLBACK_HOOKS);
  }

  // The plan, characterised without reference to how it is built.

  function PhaseOf(op: Operation): nat {
    match op
    case HookRun(_, stage) => if stage.BeforeApply? then BEFORE_HOOKS else if stage.AfterApply? then AFTER_HOOKS else ROLLBACK_HOOKS
    case SetIdentity(_) => IDENTITY
    case AdapterState(_, _) => ADAPTERS
    case AdapterMac(_) => ADAPTERS
    case AdapterIpv4(_) => ADAPTERS
    case WifiInstall(_) => PROFILES
    case WifiRun(_, _) => ACTIONS
    case ServiceSwitch(_) => SERVICES
    case AccountEnsure(_) => ACCOUNTS
    case ShareApply(_) => SHARES
    case MappingApply(_) => MAPPINGS
    case FirewallSwitch => FIREWALL
    case DriverInstall(_, _) => DRIVERS
    case DriverRestart(_) => DRIVERS
  }

  function IndexOf(op: Operation): nat {
    match op
    case HookRun(i, _) => i
    case SetIdentity(field) => if field.ComputerNameField? then 0 else if field.WorkgroupField? then 1 else 2
    case AdapterState(i, _) => i
    case AdapterMac(i) => i
    case AdapterIpv4(i) => i
    case WifiInstall(i) => i
    case WifiRun(i, _) => i
    case ServiceSwitch(i) => i
    case AccountEnsure(i) => i
    case ShareApply(i) => i
    case MappingApply(i) => i
    case FirewallSwitch => 0
    case DriverInstall(i, _) => i
    case DriverRestart(i) => i
  }

  /** Position within one adapter entry: enable first, disable last. */
  function SubOf(op: Operation): nat {
    match op
    case AdapterState(_, on) => if on then 0 else 3
    case AdapterMac(_) => 1
    case AdapterIpv4(_) => 2
    case _ => 0
  }

  predicate Precedes(a: Operation, b: Operation) {
    || PhaseOf(a) < PhaseOf(b)
    || (PhaseOf(a) == PhaseOf(b) && IndexOf(a) < IndexOf(b))
    || (PhaseOf(a) == PhaseOf(b) && IndexOf(a) == IndexOf(b) && SubOf(a) < SubOf(b))
  }

  predicate Ordered(labels: seq<Operation>) {
    forall i, j :: 0 <= i < j < |labels| ==> Precedes(labels[i], labels[j])
  }

  /** The document asks for this operation. */
  predicate Declared(config: NetplanConfig, op: Operation) {
    match op
    case HookRun(i, stage) => i < |config.hooks| && config.hooks[i].stage == stage
    case SetIdentity(field) => config.identity.Some? && FieldValue(config.identity.value, field).Some?
    case AdapterState(i, on) => i < |config.adapters| && config.adapters[i].enabled == Some(on)
    case AdapterMac(i) => i < |config.adapters| && config.adapters[i].mac.Some?
    case AdapterIpv4(i) => i < |config.adapters| && config.adapters[i].ipv4.Some?
    case WifiInstall(i) => i < |config.wifi|
    case WifiRun(i, kind) => i < |config.wifiActions| && KindOf(config.wifiActions[i]) == kind
    case ServiceSwitch(i) => i < |config.services|
    case AccountEnsure(i) => i < |config.accounts| && config.accounts[i].kind == Local
    case ShareApply(i) => i < |config.shares|
    case MappingApply(i) => i < |config.mappings|
    case FirewallSwitch => config.firewall.Some?
    case DriverInstall(i, force) => i < |config.drivers| && config.drivers[i].Install? && config.drivers[i].force == force
    case DriverRestart(i) => i < |config.drivers| && config.drivers[i].RestartAdapter?
  }

  lemma AdapterItemOrdered(i: nat, adapter: AdapterConfig)
    ensures Ordered(AdapterItem(i, adapter))
  {
  }

  lemma AdapterItemCharacterised(config: NetplanConfig, i: nat)
    requires i < |config.adapters|
    ensures forall l :: l in AdapterItem(i, config.adapters[i]) <==> Declared(config, l) && PhaseOf(l) == ADAPTERS && IndexOf(l) == i
  {
  }

  lemma ItemCharacterised(config: NetplanConfig, phase: nat, i: nat)
    requires phase < PHASES && i < Count(config, phase)
    ensures Ordered(Item(config, phase, i))
    ensures forall l :: l in Item(config, phase, i) <==> Declared(config, l) && PhaseOf(l) == phase && IndexOf(l) == i
  {
    if phase == ADAPTERS {
      AdapterItemOrdered(i, config.adapters[i]);
      AdapterItemCharacterised(config, i);
    } else {
      assert |Item(config, phase, i)| <= 1;
      forall l
        ensures l in Item(config, phase, i) <==> Declared(config, l) && PhaseOf(l) == phase && IndexOf(l) == i
      {
      }
    }
  }

  lemma {:induction false} PhaseCharacterised(config: NetplanConfig, phase: nat, i: nat)
    requires phase < PHASES && i <= Count(config, phase)
    ensures Ordered(PhaseFrom(config, phase, i))
    ensures forall l :: l in PhaseFrom(config, phase, i) <==> Declared(config, l) && PhaseOf(l) == phase && i <= IndexOf(l)
    decreases Count(config, phase) - i
  {
    if i < Count(config, phase) {
      ItemCharacterised(config, phase, i);
      PhaseCharacterised(config, phase, i + 1);
      var a, b := Item(config, phase, i), PhaseFrom(config, phase, i + 1);
      assert forall x :: 0 <= x < |a| ==> a[x] in a;
      assert forall x :: 0 <= x < |b| ==> b[x] in b;
    }
  }

  /**
   The plan lists exactly the declared operations, once each, ordered by phase, then by
   declaration, then enable, MAC address, IPv4 and disable within an adapter entry.
   */
  lemma {:induction false} PlanCharacterised(config: NetplanConfig, phase: nat)
    requires phase <= PHASES
    ensures Ordered(Phases(config, phase, PHASES))
    ensures forall l :: l in Phases(config, phase, PHASES) <==> Declared(config, l) && phase <= PhaseOf(l)
    decreases PHASES - phase
  {
    if phase < PHASES {
      PhaseCharacterised(config, phase, 0);
      PlanCharacterised(config, phase + 1);
      var a, b := PhaseFrom(config, phase, 0), Phases(config, phase + 1, PHASES);
      assert forall x :: 0 <= x < |a| ==> a[x] in a;
      assert forall x :: 0 <= x < |b| ==> b[x] in b;
    }
  }

  lemma HasMember(s: seq<Operation>)
    ensures s != [] ==> exists l :: l in s
  {
    if s != [] {
      assert s[0] in s;
    }
  }

  /** Any list with those two properties is the plan, so in particular the length is determined. */
  lemma {:induction false} OrderedListsAgree(a: seq<Operation>, b: seq<Operation>)
    requires Ordered(a) && Ordered(b)
    requires forall l :: l in a <==> l in b
    ensures a == b
    decreases |a|
  {
    if a == [] {
      HasMember(b);
    } else {
      assert a[0] in b;
      assert b[0] in a;
      assert a[0] == b[0];
      var ra, rb := a[1..], b[1..];
      assert a == [a[0]] + ra && b == [b[0]] + rb;
      forall l
        ensures l in ra <==> l in rb
      {
        if l in ra {
          assert l in a && Precedes(a[0], l);
          assert l in b && l != b[0];
        }
        if l in rb {
          assert l in b && Precedes(b[0], l);
          assert l in a && l != a[0];
        }
      }
      OrderedListsAgree(ra, rb);
    }
  }

  // Operation identifiers.

  predicate NoDot(part: string) {
    '.' !in part
  }

  predicate DotFree(parts: seq<string>) {
    forall i :: 0 <= i < |parts| ==> NoDot(parts[i])
  }

  lemma NamesDotFree(stage: HookStage, field: IdentityField, kind: ActionKind)
    ensures NoDot(StageName(stage)) && NoDot(FieldName(field)) && NoDot(KindName(kind))
  {
  }

  lemma WordsDotFree()
    ensures NoDot("hook") && NoDot("identity") && NoDot("adapter") && NoDot("enabled") && NoDot("mac") && NoDot("ipv4")
    ensures NoDot("wifi") && NoDot("profile") && NoDot("action") && NoDot("service") && NoDot("state") && NoDot("smb")
    ensures NoDot("account") && NoDot("share") && NoDot("mapping") && NoDot("firewall") && NoDot("driver") && NoDot("install")
    ensures NoDot("restart_adapter")
  {
  }

  lemma PartsDotFree(op: Operation)
    ensures DotFree(IdParts(op))
  {
    WordsDotFree();
    match op
    case HookRun(_, stage) => NamesDotFree(stage, WorkgroupField, ScanKind);
    case SetIdentity(field) => NamesDotFree(BeforeApply, field, ScanKind);
    case WifiRun(_, kind) => NamesDotFree(BeforeApply, WorkgroupField, kind);
    case _ =>
  }

  /** Letters and lengths that tell the literal parts of identifiers apart. */
  function Fingerprint(op: Operation): (char, char, char) {
    match op
    case HookRun(_, stage) => ('h', if stage.BeforeApply? then 'b' else if stage.AfterApply? then 'a' else 'r', ' ')
    case SetIdentity(field) => ('i', FieldName(field)[0], ' ')
    case AdapterState(_, _) => ('a', 'e', ' ')
    case AdapterMac(_) => ('a', 'm', ' ')
    case AdapterIpv4(_) => ('a', 'i', ' ')
    case WifiInstall(_) => ('w', 'p', ' ')
    case WifiRun(_, kind) => ('w', 'a', KindName(kind)[0])
    case ServiceSwitch(_) => ('s', 'e', ' ')
    case AccountEnsure(_) => ('s', 'm', 'a')
    case ShareApply(_) => ('s', 'm', 's')
    case MappingApply(_) => ('s', 'm', 'm')
    case FirewallSwitch => ('f', ' ', ' ')
    case DriverInstall(_, _) => ('d', 'i', ' ')
    case DriverRestart(_) => ('d', 'r', ' ')
  }

  /** What `Fingerprint` reads off the parts of an identifier. */
  function ReadFingerprint(parts: seq<string>): (char, char, char)
    requires |parts| >= 2 && |parts[0]| >= 2
  {
    var head := parts[0][0];
    if head == 'h' && |parts| == 3 && parts[2] != "" then
      (head, if |parts[2]| == 12 then 'b' else if |parts[2]| == 11 then 'a' else 'r', ' ')
    else if head == 'i' && parts[1] != "" then (head, parts[1][0], ' ')
    else if (head == 'a' || head == 'd') && |parts| == 3 && parts[2] != "" then (head, parts[2][0], ' ')
    else if head == 'w' && parts[1] != "" then
      (head, parts[1][0], if |parts| == 4 && parts[3] != "" then parts[3][0] else ' ')
    else if head == 's' && parts[1] != "" then
      (head, parts[0][1], if parts[0][1] == 'm' then parts[1][0] else ' ')
    else (head, ' ', ' ')
  }

  lemma FingerprintReadable(op: Operation)
    ensures |IdParts(op)| >= 2 && |IdParts(op)[0]| >= 2
    ensures ReadFingerprint(IdParts(op)) == Fingerprint(op)
  {
  }

  /** The part of an identifier that prints the declaration's index. */
  function ReadIndex(parts: seq<string>): string
    requires |parts| >= 2 && |parts[0]| >= 2
  {
    if |parts| >= 3 && (parts[0][0] == 'w' || parts[0][1] == 'm') then parts[2] else parts[1]
  }

  lemma IndexReadable(op: Operation)
    requires !op.SetIdentity? && !op.FirewallSwitch?
    ensures |IdParts(op)| >= 3 && |IdParts(op)[0]| >= 2
    ensures ReadIndex(IdParts(op)) == Decimal(IndexOf(op))
  {
  }

  lemma SameFingerprint(a: Operation, b: Operation)
    requires Fingerprint(a) == Fingerprint(b)
    ensures PhaseOf(a) == PhaseOf(b)
    ensures a.SetIdentity? ==> a == b
    ensures a.FirewallSwitch? ==> a == b
    ensures a.AdapterState? || b.AdapterState? ==> a.AdapterState? && b.AdapterState?
    ensures SubOf(a) == SubOf(b) || a.AdapterState?
  {
  }

  lemma SameIdSameParts(a: Operation, b: Operation)
    requires Id(a) == Id(b)
    ensures IdParts(a) == IdParts(b)
  {
    PartsReadBack(a);
    PartsReadBack(b);
  }

  /** The parts of an identifier can be read back from it. */
  lemma PartsReadBack(op: Operation)
    ensures Split(Id(op), '.') == IdParts(op)
  {
    PartsDotFree(op);
    assert forall p :: p in IdParts(op) ==> '.' !in p;
    TextLaws.SplitJoin(IdParts(op), '.');
  }

  /** Two operations with one identifier belong to one declaration and are of one kind. */
  lemma SameIdSameSlot(a: Operation, b: Operation)
    requires Id(a) == Id(b)
    ensures Fingerprint(a) == Fingerprint(b) && IndexOf(a) == IndexOf(b)
  {
    SameIdSameParts(a, b);
    FingerprintReadable(a);
    FingerprintReadable(b);
    SameFingerprint(a, b);
    if !a.SetIdentity? && !a.FirewallSwitch? {
      SameFingerprint(b, a);
      IndexReadable(a);
      IndexReadable(b);
      DecimalInjective(IndexOf(a), IndexOf(b));
    }
  }

  /** No two operations of a plan have the same identifier. */
  lemma PlanIdsDistinct(config: NetplanConfig)
    ensures forall i, j :: 0 <= i < j < |PlanOf(config)| ==> Id(PlanOf(config)[i]) != Id(PlanOf(config)[j])
  {
    var plan := PlanOf(config);
    PlanCharacterised(config, 0);
    forall i, j | 0 <= i < j < |plan| && Id(plan[i]) == Id(plan[j])
      ensures false
    {
      var a, b := plan[i], plan[j];
      assert Declared(config, a) && Declared(config, b) && Precedes(a, b);
      SameIdSameSlot(a, b);
      SameFingerprint(a, b);
    }
  }

  // The capability check.

  predicate FirstNamed(capabilities: seq<Capability>, name: string, k: nat) {
    && k < |capabilities|
    && capabilities[k].name == name
    && forall j :: 0 <= j < k ==> capabilities[j].name != name
  }

  predicate Permits(capability: Capability, risk: Risk) {
    capability.state == Available || (risk == ReadOnly && capability.state == ReadOnlyState)
  }

  /** The first report of the operation's capability permits it. */
  ghost predicate Permitted(capabilities: seq<Capability>, operation: Operation) {
    exists k: nat :: FirstNamed(capabilities, CapabilityOf(operation), k) && Permits(capabilities[k], RiskOf(operation))
  }

  /** The first report of a capability decides. */
  method CheckCapability(capabilities: seq<Capability>, name: string, risk: Risk) returns (ok: bool)
    ensures ok <==> exists k: nat :: FirstNamed(capabilities, name, k) && Permits(capabilities[k], risk)
  {
    for k := 0 to |capabilities|
      invariant forall j :: 0 <= j < k ==> capabilities[j].name != name
    {
      if capabilities[k].name == name {
        assert FirstNamed(capabilities, name, k);
        return Permits(capabilities[k], risk);
      }
    }
    return false;
  }

  method CheckOperation(capabilities: seq<Capability>, operation: Operation) returns (ok: bool)
    ensures ok <==> Permitted(capabilities, operation)
  {
    ok := CheckCapability(capabilities, CapabilityOf(operation), RiskOf(operation));
  }

  ghost predicate ListPermitted(capabilities: seq<Capability>, operations: seq<Operation>) {
    forall i :: 0 <= i < |operations| ==> Permitted(capabilities, operations[i])
  }

  /** Every operation the document asks for is permitted. */
  ghost predicate AllPermitted(capabilities: seq<Capability>, config: NetplanConfig) {
    forall op :: Declared(config, op) ==> Permitted(capabilities, op)
  }

  lemma PlanPermittedIff(capabilities: seq<Capability>, config: NetplanConfig)
    ensures ListPermitted(capabilities, PlanOf(config)) <==> AllPermitted(capabilities, config)
  {
    PlanCharacterised(config, 0);
    var operations := PlanOf(config);
    assert forall l :: l in operations <==> Declared(config, l);
    assert forall i :: 0 <= i < |operations| ==> operations[i] in operations;
  }

  lemma OneRefused(capabilities: seq<Capability>, operations: seq<Operation>, i: nat)
    requires i < |operations| && !Permitted(capabilities, operations[i])
    ensures !ListPermitted(capabilities, operations)
  {
  }

  method CheckOperations(capabilities: seq<Capability>, operations: seq<Operation>) returns (ok: bool)
    ensures ok <==> ListPermitted(capabilities, operations)
  {
    for i := 0 to |operations|
      invariant forall x :: 0 <= x < i ==> Permitted(capabilities, operations[x])
    {
      ok := CheckOperation(capabilities, operations[i]);
      if !ok {
        OneRefused(capabilities, operations, i);
        return;
      }
    }
    ok := true;
  }

  method RequirePlanCapabilities(capabilities: seq<Capability>, config: NetplanConfig) returns (r: Result<(), Selectors.ErrorKind>)
    ensures r.Success? <==> AllPermitted(capabilities, config)
    ensures r.Failure? ==> r.error == Selectors.Unsupported
  {
    var operations := BuildPlan(config);
    PlanPermittedIff(capabilities, config);
    var ok := CheckOperations(capabilities, operations);
    r := if ok then Success(()) else Failure(Selectors.Unsupported);
  }
}
