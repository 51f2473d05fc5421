/**
 Semantic validation of a document: the checks in the order they are made, and the declarative
 notion of a well-formed document they decide.
 */
module Validation {
  import opened Std
  import opened Text
  import opened Config
  import Selectors
  import Transaction
  import RunInvariant

  datatype Problem =
    | UnsupportedVersion | EmptySelector | BadMac | BadComputerName | BadWorkgroup | BadDnsSuffix
    | ProtectedInterface | NoAddress | BadHostAddress | BadGateway | BadDnsServer | BadWinsServer
    | BadSsid | BadProfileName | OpenWithPsk | SecuredWithoutPsk | BadPsk | RawPskForWpa3 | EmptySecretName
    | DuplicateProfile | UnknownProfile
    | BadAccountId | BadUsername | BadLocalUsername | DuplicateAccount | BadSecret
    | BadShareName | DuplicateShare | BadSharePath | BadDescription | UnknownAccount | NotLocalAccount | DuplicateGrant
    | BadRemote | BadDriveLetter | DuplicateDrive | AccountAndCredentials | PasswordWithoutUser
    | BadServiceName | DuplicateService | StopsLanmanServer | StopsLanmanWorkstation
    | BadInfPath | BadHardwareId | RestartWithoutHardwareId | BadHookProgram | BadHookArgument

  /** The problem, when the condition holds. */
  function When(condition: bool, problem: Problem): Option<Problem> {
    if condition then Some(problem) else None
  }

  /** The first of two problems. */
  function First(a: Option<Problem>, b: Option<Problem>): Option<Problem> {
    if a.Some? then a else b
  }

  predicate HasNul(s: string) {
    exists c :: c in s && c == '\0'
  }

  // Single declarations.

  predicate EmptyText(o: Option<string>) {
    o.None? || o.value == ""
  }

  function HexValue(c: char): nat {
    if IsDigit(c) then c as int - '0' as int
    else if 'a' <= c <= 'f' then c as int - 'a' as int + 10
    else if 'A' <= c <= 'F' then c as int - 'A' as int + 10
    else 0
  }

  const MAC_SEPARATORS: set<char> := {':', '-'}

  /** Twelve hexadecimal digits whose first octet is locally administered and unicast. */
  function MacCheck(mac: string): Option<Problem> {
    var compact := Filter(mac, MAC_SEPARATORS);
    if Utf8Length(compact) != 12 || !(forall c :: c in compact ==> IsHexDigit(c)) then Some(BadMac)
    else if |compact| < 2 then Some(BadMac)
    else When((16 * HexValue(compact[0]) + HexValue(compact[1])) % 4 != 2, BadMac)
  }

  function SelectorCheck(selector: InterfaceSelector): Option<Problem> {
    if selector.ifIndex.None? && EmptyText(selector.name) && EmptyText(selector.guid) && EmptyText(selector.mac) && EmptyText(selector.description)
    then Some(EmptySelector)
    else if selector.mac.Some? then MacCheck(selector.mac.value)
    else None
  }

  predicate IsAlphanumeric(c: char) {
    IsLetter(c) || IsDigit(c)
  }

  predicate IsLabelText(s: string) {
    forall c :: c in s ==> IsAlphanumeric(c) || c == '-'
  }

  predicate ComputerNameValid(name: string) {
    && name != "" && Utf8Length(name) <= 15 && IsLabelText(name)
    && (exists c :: c in name && !IsDigit(c))
    && name[0] != '-' && name[|name| - 1] != '-'
  }

  const WORKGROUP_FORBIDDEN: set<char> := {'\\', '/', ':', '*', '?', '"', '<', '>', '|', '\0'}

  predicate WorkgroupValid(name: string) {
    name != "" && Utf8Length(name) <= 15 && !ContainsAny(name, WORKGROUP_FORBIDDEN)
  }

  predicate DnsLabelValid(name: string) {
    name != "" && Utf8Length(name) <= 63 && IsLabelText(name) && name[0] != '-' && name[|name| - 1] != '-'
  }

  predicate DnsNameValid(name: string) {
    name != "" && Utf8Length(name) <= 255 && forall part :: part in Split(name, '.') ==> DnsLabelValid(part)
  }

  function IdentityCheck(identity: Identity): Option<Problem> {
    First(
      When(identity.computerName.Some? && !ComputerNameValid(identity.computerName.value), BadComputerName),
      First(When(identity.workgroup.Some? && !WorkgroupValid(identity.workgroup.value), BadWorkgroup),
      When(identity.dnsSuffix.Some? && !DnsNameValid(identity.dnsSuffix.value), BadDnsSuffix)))
  }

  predicate IsMulticast4(a: Ipv4) {
    0xE000_0000 <= a < 0xF000_0000
  }

  /** Neither unspecified nor multicast nor broadcast. */
  predicate HostAddress(a: Ipv4) {
    a != 0 && !IsMulticast4(a) && a != 0xFFFF_FFFF
  }

  predicate ServerAddress(a: IpAddr) {
    match a
    case V4(v4) => v4 != 0 && !IsMulticast4(v4)
    case V6(v6) => v6 != 0 && v6 / 0x1_0000_0000_0000_0000_0000_0000_0000_00 != 0xFF
  }

  function Ipv4Check(ipv4: Ipv4Config): Option<Problem> {
    match ipv4
    case Dhcp(_) => None
    case Static(addresses, gateways, dns, wins) =>
      First(
      When(addresses == [], NoAddress),
      First(When(exists i :: 0 <= i < |addresses| && !HostAddress(addresses[i].address), BadHostAddress),
      First(When(exists i :: 0 <= i < |gateways| && !HostAddress(gateways[i]), BadGateway),
      First(When(exists i :: 0 <= i < |dns| && !ServerAddress(dns[i]), BadDnsServer),
      When(exists i :: 0 <= i < |wins| && !HostAddress(wins[i]), BadWinsServer)))))
  }

  function ProtectionCheck(config: NetplanConfig, selector: InterfaceSelector): Option<Problem> {
    When(exists i :: 0 <= i < |config.protectedInterfaces| && Selectors.SharesStableMatcher(config.protectedInterfaces[i], selector),
         ProtectedInterface)
  }

  function AdapterCheck(config: NetplanConfig, adapter: AdapterConfig): Option<Problem> {
    First(
      ProtectionCheck(config, adapter.selector),
      First((if adapter.mac.Some? then MacCheck(adapter.mac.value) else None),
      (if adapter.ipv4.Some? then Ipv4Check(adapter.ipv4.value) else None)))
  }

  predicate IsHexText(s: string) {
    forall c :: c in s ==> IsHexDigit(c)
  }

  function PskCheck(authentication: WifiAuthentication, psk: Option<Secret>): Option<Problem> {
    if authentication == Open then When(psk.Some?, OpenWithPsk)
    else if psk.None? then Some(SecuredWithoutPsk)
    else match psk.value
      case Literal(text) =>
        var length := Utf8Length(text);
        if !(8 <= length <= 63) && !(length == 64 && IsHexText(text)) then Some(BadPsk)
        else When(authentication == Wpa3Personal && length == 64, RawPskForWpa3)
      case Env(name) => When(name == "", EmptySecretName)
  }

  function WifiCheck(config: NetplanConfig, wifi: WifiProfile): Option<Problem> {
    First(
      (if wifi.selector.Some? then ProtectionCheck(config, wifi.selector.value) else None),
      First(When(wifi.ssid == "" || Utf8Length(wifi.ssid) > 32, BadSsid),
      First(When(wifi.name.Some? && (Blank(wifi.name.value) || HasNul(wifi.name.value)), BadProfileName),
      PskCheck(wifi.authentication, wifi.psk))))
  }

  function ProfileNameCheck(config: NetplanConfig, i: nat): Option<Problem>
    requires i < |config.wifi|
  {
    When(exists j :: 0 <= j < i && SameIgnoringCase(config.wifi[j].ProfileName(), config.wifi[i].ProfileName()), DuplicateProfile)
  }

  function ActionCheck(config: NetplanConfig, action: WifiAction): Option<Problem> {
    When(action.Connect? && !(exists j :: 0 <= j < |config.wifi| && SameIgnoringCase(config.wifi[j].ProfileName(), action.profile)), UnknownProfile)
  }

  function SecretCheck(secret: Option<Secret>): Option<Problem> {
    if secret.None? then None
    else match secret.value
      case Env(name) => When(Blank(name) || HasNul(name), BadSecret)
      case Literal(text) => When(HasNul(text), BadSecret)
  }

  const USERNAME_FORBIDDEN: set<char> := {'\\', '/', '@', '[', ']', ':', ';', '|', '=', '+', '*', '?', '<', '>', '"', ','}

  function AccountCheck(config: NetplanConfig, i: nat): Option<Problem>
    requires i < |config.accounts|
  {
    var account := config.accounts[i];
    First(
      When(Blank(account.id) || HasNul(account.id), BadAccountId),
      First(When(Blank(account.username) || HasNul(account.username), BadUsername),
      First(When(account.kind == Local && (Utf8Length(account.username) > 20 || ContainsAny(account.username, USERNAME_FORBIDDEN)), BadLocalUsername),
      First(When(exists j :: 0 <= j < i && SameIgnoringCase(config.accounts[j].id, account.id), DuplicateAccount),
      SecretCheck(account.password)))))
  }

  function GrantCheck(config: NetplanConfig, share: SmbShare, k: nat): Option<Problem>
    requires k < |share.accounts|
  {
    var declared := Transaction.FindAccount(config.accounts, share.accounts[k]);
    if declared.None? then Some(UnknownAccount)
    else if declared.value.kind != Local then Some(NotLocalAccount)
    else When(exists j :: 0 <= j < k && SameIgnoringCase(share.accounts[j], share.accounts[k]), DuplicateGrant)
  }

  predicate AbsolutePath(path: string) {
    || (|path| >= 3 && IsLetter(path[0]) && path[1] == ':' && (path[2] == '\\' || path[2] == '/'))
    || (|path| >= 4 && (path[..4] == "\\\\?\\" || path[..4] == "\\\\.\\"))
  }

  function ShareCheck(config: NetplanConfig, i: nat): Option<Problem>
    requires i < |config.shares|
  {
    var share := config.shares[i];
    First(
      When(Blank(share.name) || Utf8Length(share.name) > 80 || ContainsAny(share.name, {'\\', '/', '\0'})
           || Fold(share.name) == "pipe" || Fold(share.name) == "mailslot", BadShareName),
      First(When(exists j :: 0 <= j < i && SameIgnoringCase(config.shares[j].name, share.name), DuplicateShare),
      First(When(!AbsolutePath(share.path) || HasNul(share.path), BadSharePath),
      First(When(share.description.Some? && (Utf8Length(share.description.value) > 48 || HasNul(share.description.value)), BadDescription),
      FirstFailure(seq(|share.accounts|, k requires 0 <= k < |share.accounts| => GrantCheck(config, share, k)))))))
  }

  /** Two leading backslashes, then a server and a share, both non-empty. */
  predicate UncShare(path: string) {
    var parts := Split(TrimStart(path, {'\\'}), '\\');
    |path| >= 2 && path[..2] == "\\\\" && parts[0] != "" && |parts| >= 2 && parts[1] != ""
  }

  predicate DriveLetter(text: string) {
    |text| == 2 && IsLetter(text[0]) && text[1] == ':'
  }

  /** A mapping before position `i` uses the drive letter. */
  predicate DriveTaken(config: NetplanConfig, letter: string, i: nat)
    requires i <= |config.mappings|
  {
    exists j :: 0 <= j < i && config.mappings[j].local.Some? && SameIgnoringCase(config.mappings[j].local.value, letter)
  }

  function MappingCheck(config: NetplanConfig, i: nat): Option<Problem>
    requires i < |config.mappings|
  {
    var mapping := config.mappings[i];
    First(
      When(!UncShare(mapping.remote) || HasNul(mapping.remote), BadRemote),
      First(When(mapping.local.Some? && !DriveLetter(mapping.local.value), BadDriveLetter),
      First(When(mapping.local.Some? && DriveTaken(config, mapping.local.value, i), DuplicateDrive),
      First(When(mapping.account.Some? && Transaction.FindAccount(config.accounts, mapping.account.value).None?, UnknownAccount),
      First(When(mapping.account.Some? && (mapping.username.Some? || mapping.password.Some?), AccountAndCredentials),
      First(When(mapping.password.Some? && mapping.username.None?, PasswordWithoutUser),
      SecretCheck(mapping.password)))))))
  }

  function ServiceCheck(config: NetplanConfig, i: nat): Option<Problem>
    requires i < |config.services|
  {
    var name := config.services[i].name;
    First(
      When(Blank(name) || Utf8Length(name) > 256 || ContainsAny(name, {'\\', '/', '\0'}), BadServiceName),
      When(exists j :: 0 <= j < i && SameIgnoringCase(config.services[j].name, name), DuplicateService))
  }

  predicate Stops(config: NetplanConfig, name: string) {
    exists i :: 0 <= i < |config.services| && SameIgnoringCase(config.services[i].name, name) && config.services[i].state == Stopped
  }

  function ConflictCheck(config: NetplanConfig, i: nat): Option<Problem> {
    if i == 0 then When(config.shares != [] && Stops(config, "LanmanServer"), StopsLanmanServer)
    else When(config.mappings != [] && Stops(config, "LanmanWorkstation"), StopsLanmanWorkstation)
  }

  function DriverCheck(config: NetplanConfig, operation: DriverOperation): Option<Problem> {
    match operation
    case Install(infPath, hardwareId, _, restart) =>
      First(
      When(Blank(infPath) || HasNul(infPath) || !EndsWith(Fold(infPath), ".inf"), BadInfPath),
      First(When(hardwareId.Some? && (Blank(hardwareId.value) || HasNul(hardwareId.value)), BadHardwareId),
      When(restart != Never && hardwareId.None?, RestartWithoutHardwareId)))
    case RestartAdapter(selector) => ProtectionCheck(config, selector)
  }

  function HookCheck(hook: Hook): Option<Problem> {
    First(
      When(Blank(hook.program) || HasNul(hook.program), BadHookProgram),
      When(exists i :: 0 <= i < |hook.args| && HasNul(hook.args[i]), BadHookArgument))
  }

  function AdapterSelectors(config: NetplanConfig): seq<InterfaceSelector> {
    seq(|config.adapters|, i requires 0 <= i < |config.adapters| => config.adapters[i].selector)
  }

  function ProfileSelectors(config: NetplanConfig): seq<InterfaceSelector> {
    SomeOf(seq(|config.wifi|, i requires 0 <= i < |config.wifi| => config.wifi[i].selector))
  }

  function ActionSelectors(config: NetplanConfig): seq<InterfaceSelector> {
    SomeOf(seq(|config.wifiActions|, i requires 0 <= i < |config.wifiActions| => config.wifiActions[i].selector))
  }

  function RestartSelectors(config: NetplanConfig): seq<InterfaceSelector> {
    SomeOf(seq(|config.drivers|, i requires 0 <= i < |config.drivers| =>
                 if config.drivers[i].RestartAdapter? then Some(config.drivers[i].selector) else None))
  }

  /** Every selector of the document, in the order they are checked. */
  function AllSelectors(config: NetplanConfig): seq<InterfaceSelector> {
    config.protectedInterfaces + AdapterSelectors(config) + ProfileSelectors(config) + ActionSelectors(config) + RestartSelectors(config)
  }

  function SomeOf<T(!new)>(options: seq<Option<T>>): (r: seq<T>)
    ensures forall x :: x in r <==> Some(x) in options
  {
    if options == [] then []
    else
      var rest := SomeOf(options[1..]);
      assert options == [options[0]] + options[1..];
      if options[0].Some? then [options[0].value] + rest else rest
  }

  // The validator: list after list, stopping at the first problem.

  const GROUPS := 14

  /** How many declarations a group of checks walks over. */
  function GroupSize(config: NetplanConfig, g: nat): nat
    requires g < GROUPS
  {
    match g
    case 0 => 1
    case 1 => |AllSelectors(config)|
    case 2 => if config.identity.Some? then 1 else 0
    case 3 => |config.adapters|
    case 4 => |config.wifi|
    case 5 => |config.wifi|
    case 6 => |config.wifiActions|
    case 7 => |config.accounts|
    case 8 => |config.shares|
    case 9 => |config.mappings|
    case 10 => |config.services|
    case 11 => 2
    case 12 => |config.drivers|
    case 13 => |config.hooks|
  }

  function CheckAt(config: NetplanConfig, g: nat, i: nat): Option<Problem>
    requires g < GROUPS && i < GroupSize(config, g)
  {
    match g
    case 0 => When(config.version != 1, UnsupportedVersion)
    case 1 => SelectorCheck(AllSelectors(config)[i])
    case 2 => IdentityCheck(config.identity.value)
    case 3 => AdapterCheck(config, config.adapters[i])
    case 4 => WifiCheck(config, config.wifi[i])
    case 5 => ProfileNameCheck(config, i)
    case 6 => ActionCheck(config, config.wifiActions[i])
    case 7 => AccountCheck(config, i)
    case 8 => ShareCheck(config, i)
    case 9 => MappingCheck(config, i)
    case 10 => ServiceCheck(config, i)
    case 11 => ConflictCheck(config, i)
    case 12 => DriverCheck(config, config.drivers[i])
    case 13 => HookCheck(config.hooks[i])
  }

  ghost predicate GroupPasses(config: NetplanConfig, g: nat, n: nat)
    requires g < GROUPS && n <= GroupSize(config, g)
  {
    forall i :: 0 <= i < n ==> CheckAt(config, g, i).None?
  }

  /** The check at this place is the first one that fails, and this is its problem. */
  ghost predicate FirstProblem(config: NetplanConfig, g: nat, i: nat, problem: Problem) {
    && g < GROUPS && i < GroupSize(config, g)
    && CheckAt(config, g, i) == Some(problem)
    && GroupPasses(config, g, i)
    && forall h :: 0 <= h < g ==> GroupPassesAll(config, h)
  }

  ghost predicate AllPass(config: NetplanConfig) {
    forall g :: 0 <= g < GROUPS ==> GroupPassesAll(config, g)
  }

  method CheckGroup(config: NetplanConfig, g: nat) returns (i: nat, problem: Option<Problem>)
    requires g < GROUPS
    ensures problem.None? <==> GroupPassesAll(config, g)
    ensures problem.Some? ==> i < GroupSize(config, g) && GroupPasses(config, g, i) && CheckAt(config, g, i) == problem
  {
    i := 0;
    while i < GroupSize(config, g)
      invariant i <= GroupSize(config, g) && GroupPasses(config, g, i)
    {
      problem := CheckAt(config, g, i);
      if problem.Some? {
        return;
      }
      i := i + 1;
    }
    problem := None;
  }

  /** Reports the first problem in the order of the checks. */
  method RunChecks(config: NetplanConfig) returns (r: Result<(), Problem>)
    ensures r.Success? <==> AllPass(config)
    ensures r.Failure? ==> exists g, i :: FirstProblem(config, g, i, r.error)
  {
    for g := 0 to GROUPS
      invariant forall h :: 0 <= h < g ==> GroupPassesAll(config, h)
    {
      var i, problem := CheckGroup(config, g);
      if problem.Some? {
        assert FirstProblem(config, g, i, problem.value);
        return Failure(problem.value);
      }
    }
    return Success(());
  }

  method Validate(config: NetplanConfig) returns (r: Result<(), Problem>)
    ensures r.Success? <==> WellFormed(config)
    ensures r.Failure? ==> exists g :: FirstWrong(config, g, r.error)
  {
    WellFormedIff(config);
    r := RunChecks(config);
    if r.Failure? {
      ghost var g, i :| FirstProblem(config, g, i, r.error);
      FirstProblemIsFirst(config, g, i, r.error);
    }
  }

  // Well-formed documents, declaratively.

  ghost predicate NoNul(s: string) {
    '\0' !in s
  }

  ghost predicate Named(s: string) {
    (exists c :: c in s && !IsWhitespace(c)) && NoNul(s)
  }

  /** Twelve hexadecimal digits, the second of which makes the address locally administered and unicast. */
  ghost predicate MacValid(mac: string) {
    var digits := Filter(mac, MAC_SEPARATORS);
    |digits| == 12 && (forall c :: c in digits ==> IsHexDigit(c)) && digits[1] in {'2', '6', 'a', 'A', 'e', 'E'}
  }

  ghost predicate SelectorValid(s: InterfaceSelector) {
    && (|| s.ifIndex.Some? || (s.name.Some? && s.name.value != "") || (s.guid.Some? && s.guid.value != "")
        || (s.mac.Some? && s.mac.value != "") || (s.description.Some? && s.description.value != ""))
    && (s.mac.Some? ==> MacValid(s.mac.value))
  }

  ghost predicate Unprotected(config: NetplanConfig, s: InterfaceSelector) {
    forall guard :: guard in config.protectedInterfaces ==> !Selectors.SharesStableMatcher(guard, s)
  }

  ghost predicate IdentityValid(identity: Identity) {
    && (identity.computerName.Some? ==> ComputerNameValid(identity.computerName.value))
    && (identity.workgroup.Some? ==> WorkgroupValid(identity.workgroup.value))
    && (identity.dnsSuffix.Some? ==> DnsNameValid(identity.dnsSuffix.value))
  }

  ghost predicate Ipv4Valid(ipv4: Ipv4Config) {
    ipv4.Static? ==>
      && ipv4.addresses != []
      && (forall n :: n in ipv4.addresses ==> HostAddress(n.address))
      && (forall a :: a in ipv4.gateways ==> HostAddress(a))
      && (forall a :: a in ipv4.dns ==> ServerAddress(a))
      && (forall a :: a in ipv4.wins ==> HostAddress(a))
  }

  ghost predicate AdapterValid(config: NetplanConfig, adapter: AdapterConfig) {
    && Unprotected(config, adapter.selector)
    && (adapter.mac.Some? ==> MacValid(adapter.mac.value))
    && (adapter.ipv4.Some? ==> Ipv4Valid(adapter.ipv4.value))
  }

  /** An open network has no key; WPA2 takes a passphrase or a raw key, WPA3 only a passphrase. */
  ghost predicate PskValid(authentication: WifiAuthentication, psk: Option<Secret>) {
    match psk
    case None => authentication == Open
    case Some(Env(name)) => authentication != Open && name != ""
    case Some(Literal(text)) =>
      && authentication != Open
      && (8 <= Utf8Length(text) <= 63 || (authentication == Wpa2Personal && Utf8Length(text) == 64 && IsHexText(text)))
  }

  ghost predicate WifiValid(config: NetplanConfig, wifi: WifiProfile) {
    && (wifi.selector.Some? ==> Unprotected(config, wifi.selector.value))
    && wifi.ssid != "" && Utf8Length(wifi.ssid) <= 32
    && (wifi.name.Some? ==> Named(wifi.name.value))
    && PskValid(wifi.authentication, wifi.psk)
  }

  ghost predicate ActionValid(config: NetplanConfig, action: WifiAction) {
    action.Connect? ==> exists profile :: profile in config.wifi && SameIgnoringCase(profile.ProfileName(), action.profile)
  }

  ghost predicate SecretValid(secret: Option<Secret>) {
    secret.Some? ==>
      match secret.value
      case Env(name) => Named(name)
      case Literal(text) => NoNul(text)
  }

  ghost predicate AccountValid(account: SmbAccount) {
    && Named(account.id) && Named(account.username)
    && (account.kind == Local ==> Utf8Length(account.username) <= 20 && forall c :: c in account.username ==> c !in USERNAME_FORBIDDEN)
    && SecretValid(account.password)
  }

  /** The reference names a declared account of the given kind. */
  ghost predicate Refers(config: NetplanConfig, reference: string, account: SmbAccount) {
    account in config.accounts && SameIgnoringCase(account.id, reference)
  }

  ghost predicate GrantValid(config: NetplanConfig, reference: string) {
    exists account :: Refers(config, reference, account) && account.kind == Local
  }

  ghost predicate GrantsValid(config: NetplanConfig, share: SmbShare) {
    && (forall r :: r in share.accounts ==> GrantValid(config, r))
    && (forall i, j :: 0 <= i < j < |share.accounts| ==> !SameIgnoringCase(share.accounts[i], share.accounts[j]))
  }

  ghost predicate ShareValid(config: NetplanConfig, share: SmbShare) {
    && (exists c :: c in share.name && !IsWhitespace(c)) && Utf8Length(share.name) <= 80
    && (forall c :: c in share.name ==> c !in {'\\', '/', '\0'})
    && Fold(share.name) != "pipe" && Fold(share.name) != "mailslot"
    && AbsolutePath(share.path) && NoNul(share.path)
    && (share.description.Some? ==> Utf8Length(share.description.value) <= 48 && NoNul(share.description.value))
    && GrantsValid(config, share)
  }

  ghost predicate Declared(config: NetplanConfig, reference: string) {
    exists account :: Refers(config, reference, account)
  }

  ghost predicate MappingValid(config: NetplanConfig, mapping: SmbMapping) {
    && UncShare(mapping.remote) && NoNul(mapping.remote)
    && (mapping.local.Some? ==> DriveLetter(mapping.local.value))
    && (mapping.account.Some? ==> Declared(config, mapping.account.value) && mapping.username.None? && mapping.password.None?)
    && (mapping.password.Some? ==> mapping.username.Some?)
    && SecretValid(mapping.password)
  }

  ghost predicate ServiceValid(service: Service) {
    && (exists c :: c in service.name && !IsWhitespace(c)) && Utf8Length(service.name) <= 256
    && (forall c :: c in service.name ==> c !in {'\\', '/', '\0'})
  }

  ghost predicate DriverValid(config: NetplanConfig, operation: DriverOperation) {
    match operation
    case Install(infPath, hardwareId, _, restart) =>
      && Named(infPath) && EndsWith(Fold(infPath), ".inf")
      && (hardwareId.Some? ==> Named(hardwareId.value))
      && (restart != Never ==> hardwareId.Some?)
    case RestartAdapter(selector) => Unprotected(config, selector)
  }

  ghost predicate HookValid(hook: Hook) {
    Named(hook.program) && forall a :: a in hook.args ==> NoNul(a)
  }

  /** No name occurs twice, ignoring ASCII case. */
  ghost predicate NamesDistinct(config: NetplanConfig) {
    && (forall i, j :: 0 <= i < j < |config.wifi| ==> !SameIgnoringCase(config.wifi[i].ProfileName(), config.wifi[j].ProfileName()))
    && (forall i, j :: 0 <= i < j < |config.accounts| ==> !SameIgnoringCase(config.accounts[i].id, config.accounts[j].id))
    && (forall i, j :: 0 <= i < j < |config.shares| ==> !SameIgnoringCase(config.shares[i].name, config.shares[j].name))
    && DrivesDistinct(config)
    && (forall i, j :: 0 <= i < j < |config.services| ==> !SameIgnoringCase(config.services[i].name, config.services[j].name))
  }

  /** No service that shares or mappings need is stopped. */
  ghost predicate ServicesCompatible(config: NetplanConfig) {
    forall s :: s in config.services && s.state == Stopped ==>
      && (config.shares != [] ==> !SameIgnoringCase(s.name, "LanmanServer"))
      && (config.mappings != [] ==> !SameIgnoringCase(s.name, "LanmanWorkstation"))
  }

  /** Every selector of the document is valid, wherever it stands. */
  ghost predicate SelectorsValid(config: NetplanConfig) {
    && (forall s :: s in config.protectedInterfaces ==> SelectorValid(s))
    && (forall a :: a in config.adapters ==> SelectorValid(a.selector))
    && (forall p :: p in config.wifi && p.selector.Some? ==> SelectorValid(p.selector.value))
    && (forall a :: a in config.wifiActions && a.selector.Some? ==> SelectorValid(a.selector.value))
    && (forall d :: d in config.drivers && d.RestartAdapter? ==> SelectorValid(d.selector))
  }

  ghost predicate WellFormed(config: NetplanConfig) {
    && config.version == 1
    && SelectorsValid(config)
    && (config.identity.Some? ==> IdentityValid(config.identity.value))
    && (forall a :: a in config.adapters ==> AdapterValid(config, a))
    && (forall p :: p in config.wifi ==> WifiValid(config, p))
    && (forall a :: a in config.wifiActions ==> ActionValid(config, a))
    && (forall a :: a in config.accounts ==> AccountValid(a))
    && (forall s :: s in config.shares ==> ShareValid(config, s))
    && MappingsValid(config)
    && (forall s :: s in config.services ==> ServiceValid(s))
    && (forall d :: d in config.drivers ==> DriverValid(config, d))
    && (forall h :: h in config.hooks ==> HookValid(h))
    && NamesDistinct(config)
    && ServicesCompatible(config)
  }

  // Each check decides its part of well-formedness.

  lemma {:induction false} AsciiLength(s: string)
    requires forall i :: 0 <= i < |s| ==> s[i] as int < 0x80
    ensures Utf8Length(s) == |s|
    decreases |s|
  {
    if s != "" {
      AsciiLength(s[1..]);
    }
  }

  lemma MacDecided(mac: string)
    ensures MacCheck(mac).None? <==> MacValid(mac)
  {
    var digits := Filter(mac, MAC_SEPARATORS);
    if forall c :: c in digits ==> IsHexDigit(c) {
      assert forall i :: 0 <= i < |digits| ==> digits[i] in digits;
      AsciiLength(digits);
      if |digits| == 12 {
        assert digits[0] in digits && digits[1] in digits;
        assert (16 * HexValue(digits[0]) + HexValue(digits[1])) % 4 == HexValue(digits[1]) % 4;
      }
    }
  }

  lemma SelectorDecided(s: InterfaceSelector)
    ensures SelectorCheck(s).None? <==> SelectorValid(s)
  {
    if s.mac.Some? {
      MacDecided(s.mac.value);
    }
  }

  lemma NulDecided(s: string)
    ensures HasNul(s) <==> !NoNul(s)
    ensures !Blank(s) && !HasNul(s) <==> Named(s)
  {
  }

  lemma AdapterDecided(config: NetplanConfig, adapter: AdapterConfig)
    ensures AdapterCheck(config, adapter).None? <==> AdapterValid(config, adapter)
  {
    if adapter.mac.Some? {
      MacDecided(adapter.mac.value);
    }
    if adapter.ipv4.Some? {
      Ipv4Decided(adapter.ipv4.value);
    }
  }

  lemma Ipv4Decided(ipv4: Ipv4Config)
    ensures Ipv4Check(ipv4).None? <==> Ipv4Valid(ipv4)
  {
  }

  lemma WifiDecided(config: NetplanConfig, wifi: WifiProfile)
    ensures WifiCheck(config, wifi).None? <==> WifiValid(config, wifi)
  {
    if wifi.name.Some? {
      NulDecided(wifi.name.value);
    }
  }

  lemma ActionDecided(config: NetplanConfig, action: WifiAction)
    ensures ActionCheck(config, action).None? <==> ActionValid(config, action)
  {
  }

  lemma SecretDecided(secret: Option<Secret>)
    ensures SecretCheck(secret).None? <==> SecretValid(secret)
  {
    if secret.Some? && secret.value.Env? {
      NulDecided(secret.value.name);
    }
  }

  lemma AccountDecided(config: NetplanConfig, i: nat)
    requires i < |config.accounts|
    ensures AccountCheck(config, i).None? <==>
      AccountValid(config.accounts[i]) && forall j :: 0 <= j < i ==> !SameIgnoringCase(config.accounts[j].id, config.accounts[i].id)
  {
    NulDecided(config.accounts[i].id);
    NulDecided(config.accounts[i].username);
    SecretDecided(config.accounts[i].password);
  }

  ghost predicate AccountIdsDistinct(config: NetplanConfig) {
    forall i, j :: 0 <= i < j < |config.accounts| ==> !SameIgnoringCase(config.accounts[i].id, config.accounts[j].id)
  }

  /** With distinct identifiers the first declared account that matches is the only one. */
  lemma FirstMatchIsOnlyMatch(config: NetplanConfig, reference: string, account: SmbAccount)
    requires AccountIdsDistinct(config) && Refers(config, reference, account)
    ensures Transaction.FindAccount(config.accounts, reference) == Some(account)
  {
    var found := Transaction.FindAccount(config.accounts, reference).value;
    var i :| 0 <= i < |config.accounts| && config.accounts[i] == account;
    var j :| 0 <= j < |config.accounts| && config.accounts[j] == found;
    if i < j || j < i {
      assert SameIgnoringCase(config.accounts[i].id, config.accounts[j].id);
    }
  }

  lemma GrantDecided(config: NetplanConfig, share: SmbShare, k: nat)
    requires AccountIdsDistinct(config) && k < |share.accounts|
    ensures GrantCheck(config, share, k).None? <==>
      GrantValid(config, share.accounts[k]) && forall j :: 0 <= j < k ==> !SameIgnoringCase(share.accounts[j], share.accounts[k])
  {
    var found := Transaction.FindAccount(config.accounts, share.accounts[k]);
    if GrantValid(config, share.accounts[k]) {
      var account :| Refers(config, share.accounts[k], account) && account.kind == Local;
      FirstMatchIsOnlyMatch(config, share.accounts[k], account);
    } else if found.Some? {
      assert Refers(config, share.accounts[k], found.value);
    }
  }

  lemma GrantsDecided(config: NetplanConfig, share: SmbShare)
    requires AccountIdsDistinct(config)
    ensures FirstFailure(seq(|share.accounts|, k requires 0 <= k < |share.accounts| => GrantCheck(config, share, k))).None? <==> GrantsValid(config, share)
  {
    var checks := seq(|share.accounts|, k requires 0 <= k < |share.accounts| => GrantCheck(config, share, k));
    forall k | 0 <= k < |share.accounts|
      ensures checks[k].None? <==> GrantValid(config, share.accounts[k]) && forall j :: 0 <= j < k ==> !SameIgnoringCase(share.accounts[j], share.accounts[k])
    {
      GrantDecided(config, share, k);
    }
  }

  lemma ShareDecided(config: NetplanConfig, i: nat)
    requires i < |config.shares| && AccountIdsDistinct(config)
    ensures ShareCheck(config, i).None? <==>
      ShareValid(config, config.shares[i]) && forall j :: 0 <= j < i ==> !SameIgnoringCase(config.shares[j].name, config.shares[i].name)
  {
    GrantsDecided(config, config.shares[i]);
  }

  /** No mapping before this one uses its drive letter. */
  ghost predicate DriveFree(config: NetplanConfig, i: nat)
    requires i < |config.mappings|
  {
    config.mappings[i].local.Some? ==> !DriveTaken(config, config.mappings[i].local.value, i)
  }

  ghost predicate SameDrive(a: SmbMapping, b: SmbMapping) {
    a.local.Some? && b.local.Some? && SameIgnoringCase(a.local.value, b.local.value)
  }

  ghost predicate DrivesDistinct(config: NetplanConfig) {
    forall i, j :: 0 <= i < j < |config.mappings| ==> !SameDrive(config.mappings[i], config.mappings[j])
  }

  lemma DrivesFreeIff(config: NetplanConfig)
    ensures (forall i :: 0 <= i < |config.mappings| ==> DriveFree(config, i)) <==> DrivesDistinct(config)
  {
    forall j | 0 <= j < |config.mappings|
      ensures DriveFree(config, j) <==> forall i :: 0 <= i < j ==> !SameDrive(config.mappings[i], config.mappings[j])
    {
    }
  }

  lemma DeclaredDecided(config: NetplanConfig, reference: string)
    ensures Transaction.FindAccount(config.accounts, reference).Some? <==> Declared(config, reference)
  {
    var found := Transaction.FindAccount(config.accounts, reference);
    assert found.Some? ==> Refers(config, reference, found.value);
  }

  lemma MappingDecided(config: NetplanConfig, i: nat)
    requires i < |config.mappings|
    ensures MappingCheck(config, i).None? <==> MappingValid(config, config.mappings[i]) && DriveFree(config, i)
  {
    var mapping := config.mappings[i];
    NulDecided(mapping.remote);
    SecretDecided(mapping.password);
    if mapping.account.Some? {
      DeclaredDecided(config, mapping.account.value);
    }
  }

  lemma ServiceDecided(config: NetplanConfig, i: nat)
    requires i < |config.services|
    ensures ServiceCheck(config, i).None? <==>
      ServiceValid(config.services[i]) && forall j :: 0 <= j < i ==> !SameIgnoringCase(config.services[j].name, config.services[i].name)
  {
  }

  lemma ConflictsDecided(config: NetplanConfig)
    ensures ConflictCheck(config, 0).None? && ConflictCheck(config, 1).None? <==> ServicesCompatible(config)
  {
    if !ServicesCompatible(config) {
      var s :| s in config.services && s.state == Stopped
        && ((config.shares != [] && SameIgnoringCase(s.name, "LanmanServer")) || (config.mappings != [] && SameIgnoringCase(s.name, "LanmanWorkstation")));
      var i :| 0 <= i < |config.services| && config.services[i] == s;
    }
  }

  lemma DriverDecided(config: NetplanConfig, operation: DriverOperation)
    ensures DriverCheck(config, operation).None? <==> DriverValid(config, operation)
  {
    if operation.Install? {
      NulDecided(operation.infPath);
      if operation.hardwareId.Some? {
        NulDecided(operation.hardwareId.value);
      }
    }
  }

  lemma HookDecided(hook: Hook)
    ensures HookCheck(hook).None? <==> HookValid(hook)
  {
    NulDecided(hook.program);
    forall a | a in hook.args
      ensures HasNul(a) <==> !NoNul(a)
    {
      NulDecided(a);
    }
  }

  // All checks together.

  ghost predicate GroupPassesAll(config: NetplanConfig, g: nat)
    requires g < GROUPS
  {
    GroupPasses(config, g, GroupSize(config, g))
  }

  /** The document contains the selector somewhere. */
  ghost predicate Contains(config: NetplanConfig, s: InterfaceSelector) {
    || s in config.protectedInterfaces
    || (exists a :: a in config.adapters && a.selector == s)
    || (exists p :: p in config.wifi && p.selector == Some(s))
    || (exists a :: a in config.wifiActions && a.selector == Some(s))
    || (exists d :: d in config.drivers && d.RestartAdapter? && d.selector == s)
  }

  lemma AdapterSelectorsIff(config: NetplanConfig, s: InterfaceSelector)
    ensures s in AdapterSelectors(config) <==> exists a :: a in config.adapters && a.selector == s
  {
    if exists a :: a in config.adapters && a.selector == s {
      var a :| a in config.adapters && a.selector == s;
      var i :| 0 <= i < |config.adapters| && config.adapters[i] == a;
      assert AdapterSelectors(config)[i] == s;
    }
  }

  lemma ProfileSelectorsIff(config: NetplanConfig, s: InterfaceSelector)
    ensures s in ProfileSelectors(config) <==> exists p :: p in config.wifi && p.selector == Some(s)
  {
    var options := seq(|config.wifi|, i requires 0 <= i < |config.wifi| => config.wifi[i].selector);
    assert s in ProfileSelectors(config) <==> Some(s) in options;
    if exists p :: p in config.wifi && p.selector == Some(s) {
      var p :| p in config.wifi && p.selector == Some(s);
      var i :| 0 <= i < |config.wifi| && config.wifi[i] == p;
      assert options[i] == Some(s);
    }
  }

  lemma ActionSelectorsIff(config: NetplanConfig, s: InterfaceSelector)
    ensures s in ActionSelectors(config) <==> exists a :: a in config.wifiActions && a.selector == Some(s)
  {
    var options := seq(|config.wifiActions|, i requires 0 <= i < |config.wifiActions| => config.wifiActions[i].selector);
    assert s in ActionSelectors(config) <==> Some(s) in options;
    if exists a :: a in config.wifiActions && a.selector == Some(s) {
      var a :| a in config.wifiActions && a.selector == Some(s);
      var i :| 0 <= i < |config.wifiActions| && config.wifiActions[i] == a;
      assert options[i] == Some(s);
    }
  }

  lemma RestartSelectorsIff(config: NetplanConfig, s: InterfaceSelector)
    ensures s in RestartSelectors(config) <==> exists d :: d in config.drivers && d.RestartAdapter? && d.selector == s
  {
    var options := seq(|config.drivers|, i requires 0 <= i < |config.drivers| =>
      if config.drivers[i].RestartAdapter? then Some(config.drivers[i].selector) else None);
    assert s in RestartSelectors(config) <==> Some(s) in options;
    if exists d :: d in config.drivers && d.RestartAdapter? && d.selector == s {
      var d :| d in config.drivers && d.RestartAdapter? && d.selector == s;
      var i :| 0 <= i < |config.drivers| && config.drivers[i] == d;
      assert options[i] == Some(s);
    }
  }

  /** The selectors checked are exactly those the document contains. */
  lemma AllSelectorsIff(config: NetplanConfig, s: InterfaceSelector)
    ensures s in AllSelectors(config) <==> Contains(config, s)
  {
    AdapterSelectorsIff(config, s);
    ProfileSelectorsIff(config, s);
    ActionSelectorsIff(config, s);
    RestartSelectorsIff(config, s);
  }

  lemma SelectorsDecided(config: NetplanConfig)
    ensures GroupPassesAll(config, 1) <==> SelectorsValid(config)
  {
    forall i | 0 <= i < |AllSelectors(config)|
      ensures CheckAt(config, 1, i).None? <==> SelectorValid(AllSelectors(config)[i])
    {
      SelectorDecided(AllSelectors(config)[i]);
    }
    forall s
      ensures s in AllSelectors(config) <==> Contains(config, s)
    {
      AllSelectorsIff(config, s);
    }
    SelectorsValidIff(config);
  }

  lemma SelectorsValidIff(config: NetplanConfig)
    ensures SelectorsValid(config) <==> forall s :: Contains(config, s) ==> SelectorValid(s)
  {
    if forall s :: Contains(config, s) ==> SelectorValid(s) {
      forall a | a in config.adapters
        ensures SelectorValid(a.selector)
      {
        assert Contains(config, a.selector);
      }
      forall p | p in config.wifi && p.selector.Some?
        ensures SelectorValid(p.selector.value)
      {
        assert Contains(config, p.selector.value);
      }
      forall a | a in config.wifiActions && a.selector.Some?
        ensures SelectorValid(a.selector.value)
      {
        assert Contains(config, a.selector.value);
      }
      forall d | d in config.drivers && d.RestartAdapter?
        ensures SelectorValid(d.selector)
      {
        assert Contains(config, d.selector);
      }
    }
  }

  lemma HeadDecided(config: NetplanConfig)
    ensures GroupPassesAll(config, 0) <==> config.version == 1
    ensures GroupPassesAll(config, 2) <==> (config.identity.Some? ==> IdentityValid(config.identity.value))
  {
    assert CheckAt(config, 0, 0).None? <==> config.version == 1;
    if config.identity.Some? {
      assert CheckAt(config, 2, 0) == IdentityCheck(config.identity.value);
    }
  }

  lemma AdaptersDecided(config: NetplanConfig)
    ensures GroupPassesAll(config, 3) <==> forall a :: a in config.adapters ==> AdapterValid(config, a)
  {
    forall i | 0 <= i < |config.adapters|
      ensures CheckAt(config, 3, i).None? <==> AdapterValid(config, config.adapters[i])
    {
      AdapterDecided(config, config.adapters[i]);
    }
  }

  lemma WifiGroupsDecided(config: NetplanConfig)
    ensures GroupPassesAll(config, 4) <==> forall p :: p in config.wifi ==> WifiValid(config, p)
    ensures GroupPassesAll(config, 5) <==>
      forall i, j :: 0 <= i < j < |config.wifi| ==> !SameIgnoringCase(config.wifi[i].ProfileName(), config.wifi[j].ProfileName())
    ensures GroupPassesAll(config, 6) <==> forall a :: a in config.wifiActions ==> ActionValid(config, a)
  {
    forall i | 0 <= i < |config.wifi|
      ensures CheckAt(config, 4, i).None? <==> WifiValid(config, config.wifi[i])
      ensures CheckAt(config, 5, i).None? <==> forall j :: 0 <= j < i ==> !SameIgnoringCase(config.wifi[j].ProfileName(), config.wifi[i].ProfileName())
    {
      WifiDecided(config, config.wifi[i]);
    }
    forall i | 0 <= i < |config.wifiActions|
      ensures CheckAt(config, 6, i).None? <==> ActionValid(config, config.wifiActions[i])
    {
      ActionDecided(config, config.wifiActions[i]);
    }
  }

  lemma AccountsDecided(config: NetplanConfig)
    ensures GroupPassesAll(config, 7) <==> (forall a :: a in config.accounts ==> AccountValid(a)) && AccountIdsDistinct(config)
  {
    forall i | 0 <= i < |config.accounts|
      ensures CheckAt(config, 7, i).None? <==>
        AccountValid(config.accounts[i]) && forall j :: 0 <= j < i ==> !SameIgnoringCase(config.accounts[j].id, config.accounts[i].id)
    {
      AccountDecided(config, i);
    }
  }

  lemma SharesDecided(config: NetplanConfig)
    requires AccountIdsDistinct(config)
    ensures GroupPassesAll(config, 8) <==>
      && (forall s :: s in config.shares ==> ShareValid(config, s))
      && (forall i, j :: 0 <= i < j < |config.shares| ==> !SameIgnoringCase(config.shares[i].name, config.shares[j].name))
  {
    forall i | 0 <= i < |config.shares|
      ensures CheckAt(config, 8, i).None? <==>
        ShareValid(config, config.shares[i]) && forall j :: 0 <= j < i ==> !SameIgnoringCase(config.shares[j].name, config.shares[i].name)
    {
      ShareDecided(config, i);
    }
  }

  ghost predicate MappingsValid(config: NetplanConfig) {
    forall m :: m in config.mappings ==> MappingValid(config, m)
  }

  lemma PassedMapping(config: NetplanConfig, i: nat)
    requires GroupPassesAll(config, 9) && i < |config.mappings|
    ensures MappingValid(config, config.mappings[i]) && DriveFree(config, i)
  {
    assert CheckAt(config, 9, i).None?;
    MappingDecided(config, i);
  }

  lemma MappingsDecided(config: NetplanConfig)
    ensures GroupPassesAll(config, 9) <==> MappingsValid(config) && DrivesDistinct(config)
  {
    DrivesFreeIff(config);
    if GroupPassesAll(config, 9) {
      forall i | 0 <= i < |config.mappings|
        ensures MappingValid(config, config.mappings[i]) && DriveFree(config, i)
      {
        PassedMapping(config, i);
      }
    } else if MappingsValid(config) && DrivesDistinct(config) {
      forall i | 0 <= i < |config.mappings|
        ensures CheckAt(config, 9, i).None?
      {
        assert config.mappings[i] in config.mappings && DriveFree(config, i);
        MappingDecided(config, i);
      }
    }
  }

  lemma ServicesDecided(config: NetplanConfig)
    ensures GroupPassesAll(config, 10) <==>
      && (forall s :: s in config.services ==> ServiceValid(s))
      && (forall i, j :: 0 <= i < j < |config.services| ==> !SameIgnoringCase(config.services[i].name, config.services[j].name))
  {
    forall i | 0 <= i < |config.services|
      ensures CheckAt(config, 10, i).None? <==>
        ServiceValid(config.services[i]) && forall j :: 0 <= j < i ==> !SameIgnoringCase(config.services[j].name, config.services[i].name)
    {
      ServiceDecided(config, i);
    }
  }

  lemma ConflictGroupDecided(config: NetplanConfig)
    ensures GroupPassesAll(config, 11) <==> ServicesCompatible(config)
  {
    ConflictsDecided(config);
    assert CheckAt(config, 11, 0) == ConflictCheck(config, 0) && CheckAt(config, 11, 1) == ConflictCheck(config, 1);
  }

  lemma TailDecided(config: NetplanConfig)
    ensures GroupPassesAll(config, 12) <==> forall d :: d in config.drivers ==> DriverValid(config, d)
    ensures GroupPassesAll(config, 13) <==> forall h :: h in config.hooks ==> HookValid(h)
  {
    forall i | 0 <= i < |config.drivers|
      ensures CheckAt(config, 12, i).None? <==> DriverValid(config, config.drivers[i])
    {
      DriverDecided(config, config.drivers[i]);
    }
    forall i | 0 <= i < |config.hooks|
      ensures CheckAt(config, 13, i).None? <==> HookValid(config.hooks[i])
    {
      HookDecided(config.hooks[i]);
    }
  }

  /** All groups of checks pass exactly for the well-formed documents. */
  lemma WellFormedIff(config: NetplanConfig)
    ensures WellFormed(config) <==> AllPass(config)
  {
    HeadDecided(config);
    SelectorsDecided(config);
    AdaptersDecided(config);
    WifiGroupsDecided(config);
    AccountsDecided(config);
    if AccountIdsDistinct(config) {
      SharesDecided(config);
    }
    MappingsDecided(config);
    ServicesDecided(config);
    ConflictGroupDecided(config);
    TailDecided(config);
  }

  // Which problem is reported.

  /** What a document must satisfy, in the order it is looked at. */
  ghost predicate Part(config: NetplanConfig, g: nat) {
    match g
    case 0 => config.version == 1
    case 1 => SelectorsValid(config)
    case 2 => config.identity.Some? ==> IdentityValid(config.identity.value)
    case 3 => forall a :: a in config.adapters ==> AdapterValid(config, a)
    case 4 => forall p :: p in config.wifi ==> WifiValid(config, p)
    case 5 => forall i, j :: 0 <= i < j < |config.wifi| ==> !SameIgnoringCase(config.wifi[i].ProfileName(), config.wifi[j].ProfileName())
    case 6 => forall a :: a in config.wifiActions ==> ActionValid(config, a)
    case 7 => (forall a :: a in config.accounts ==> AccountValid(a)) && AccountIdsDistinct(config)
    case 8 =>
      && (forall s :: s in config.shares ==> ShareValid(config, s))
      && (forall i, j :: 0 <= i < j < |config.shares| ==> !SameIgnoringCase(config.shares[i].name, config.shares[j].name))
    case 9 => MappingsValid(config) && DrivesDistinct(config)
    case 10 =>
      && (forall s :: s in config.services ==> ServiceValid(s))
      && (forall i, j :: 0 <= i < j < |config.services| ==> !SameIgnoringCase(config.services[i].name, config.services[j].name))
    case 11 => ServicesCompatible(config)
    case 12 => forall d :: d in config.drivers ==> DriverValid(config, d)
    case 13 => forall h :: h in config.hooks ==> HookValid(h)
    case _ => true
  }

  /** The problems a part can have. */
  function KindsOf(g: nat): set<Problem> {
    match g
    case 0 => {UnsupportedVersion}
    case 1 => {EmptySelector, BadMac}
    case 2 => {BadComputerName, BadWorkgroup, BadDnsSuffix}
    case 3 => {ProtectedInterface, BadMac, NoAddress, BadHostAddress, BadGateway, BadDnsServer, BadWinsServer}
    case 4 => {ProtectedInterface, BadSsid, BadProfileName, OpenWithPsk, SecuredWithoutPsk, BadPsk, RawPskForWpa3, EmptySecretName}
    case 5 => {DuplicateProfile}
    case 6 => {UnknownProfile}
    case 7 => {BadAccountId, BadUsername, BadLocalUsername, DuplicateAccount, BadSecret}
    case 8 => {BadShareName, DuplicateShare, BadSharePath, BadDescription, UnknownAccount, NotLocalAccount, DuplicateGrant}
    case 9 => {BadRemote, BadDriveLetter, DuplicateDrive, UnknownAccount, AccountAndCredentials, PasswordWithoutUser, BadSecret}
    case 10 => {BadServiceName, DuplicateService}
    case 11 => {StopsLanmanServer, StopsLanmanWorkstation}
    case 12 => {BadInfPath, BadHardwareId, RestartWithoutHardwareId, ProtectedInterface}
    case 13 => {BadHookProgram, BadHookArgument}
    case _ => {}
  }

  /** Everything before part `g` is right, part `g` is not, and the problem is one of its own. */
  ghost predicate FirstWrong(config: NetplanConfig, g: nat, problem: Problem) {
    (forall h: nat :: h < g ==> Part(config, h)) && !Part(config, g) && problem in KindsOf(g)
  }

  lemma PartDecided(config: NetplanConfig, g: nat)
    requires g < GROUPS && (g > 7 ==> AccountIdsDistinct(config))
    ensures GroupPassesAll(config, g) <==> Part(config, g)
  {
    match g
    case 0 => HeadDecided(config);
    case 1 => SelectorsDecided(config);
    case 2 => HeadDecided(config);
    case 3 => AdaptersDecided(config);
    case 4 => WifiGroupsDecided(config);
    case 5 => WifiGroupsDecided(config);
    case 6 => WifiGroupsDecided(config);
    case 7 => AccountsDecided(config);
    case 8 => SharesDecided(config);
    case 9 => MappingsDecided(config);
    case 10 => ServicesDecided(config);
    case 11 => ConflictGroupDecided(config);
    case 12 => TailDecided(config);
    case 13 => TailDecided(config);
  }

  lemma {:induction false} GrantKinds(checks: seq<Option<Problem>>, kinds: set<Problem>)
    requires forall i :: 0 <= i < |checks| ==> checks[i].None? || checks[i].value in kinds
    ensures FirstFailure(checks).None? || FirstFailure(checks).value in kinds
  {
    if checks != [] && checks[0].None? {
      GrantKinds(checks[1..], kinds);
    }
  }

  lemma ShareKinds(config: NetplanConfig, i: nat)
    requires i < |config.shares|
    ensures ShareCheck(config, i).None? || ShareCheck(config, i).value in KindsOf(8)
  {
    var share := config.shares[i];
    GrantKinds(seq(|share.accounts|, k requires 0 <= k < |share.accounts| => GrantCheck(config, share, k)), KindsOf(8));
  }

  lemma AdapterKinds(config: NetplanConfig, adapter: AdapterConfig)
    ensures AdapterCheck(config, adapter).None? || AdapterCheck(config, adapter).value in KindsOf(3)
  {
  }

  lemma WifiKinds(config: NetplanConfig, wifi: WifiProfile)
    ensures WifiCheck(config, wifi).None? || WifiCheck(config, wifi).value in KindsOf(4)
  {
  }

  lemma AccountKinds(config: NetplanConfig, i: nat)
    requires i < |config.accounts|
    ensures AccountCheck(config, i).None? || AccountCheck(config, i).value in KindsOf(7)
  {
  }

  lemma MappingKinds(config: NetplanConfig, i: nat)
    requires i < |config.mappings|
    ensures MappingCheck(config, i).None? || MappingCheck(config, i).value in KindsOf(9)
  {
  }

  lemma OtherKinds(config: NetplanConfig, g: nat, i: nat)
    requires g in {0, 1, 2, 5, 6} && i < GroupSize(config, g)
    ensures CheckAt(config, g, i).None? || CheckAt(config, g, i).value in KindsOf(g)
  {
  }

  lemma TailKinds(config: NetplanConfig, g: nat, i: nat)
    requires 10 <= g < GROUPS && i < GroupSize(config, g)
    ensures CheckAt(config, g, i).None? || CheckAt(config, g, i).value in KindsOf(g)
  {
  }

  lemma CheckKinds(config: NetplanConfig, g: nat, i: nat)
    requires g < GROUPS && i < GroupSize(config, g)
    ensures CheckAt(config, g, i).None? || CheckAt(config, g, i).value in KindsOf(g)
  {
    if g >= 10 {
      TailKinds(config, g, i);
    } else if g == 9 {
      MappingKinds(config, i);
    } else if g == 8 {
      ShareKinds(config, i);
    } else if g == 7 {
      AccountKinds(config, i);
    } else if g == 4 {
      WifiKinds(config, config.wifi[i]);
    } else if g == 3 {
      AdapterKinds(config, config.adapters[i]);
    } else {
      OtherKinds(config, g, i);
    }
  }

  /** The problem reported is about the first part that is wrong. */
  lemma FirstProblemIsFirst(config: NetplanConfig, g: nat, i: nat, problem: Problem)
    requires FirstProblem(config, g, i, problem)
    ensures FirstWrong(config, g, problem)
  {
    CheckKinds(config, g, i);
    if g > 7 {
      PartDecided(config, 7);
    }
    PartDecided(config, g);
    forall h: nat | h < g
      ensures Part(config, h)
    {
      PartDecided(config, h);
    }
  }

  // What apply relies on.

  lemma {:induction false} GrantedUsersKnown(config: NetplanConfig, references: seq<string>)
    requires forall r :: r in references ==> GrantValid(config, r)
    ensures Transaction.GrantedUsers(config, references).Some?
    decreases |references|
  {
    if references != [] {
      assert references[0] in references;
      var account :| Refers(config, references[0], account);
      assert forall r :: r in references[1..] ==> r in references;
      GrantedUsersKnown(config, references[1..]);
    }
  }

  /**
   For a well-formed document the lookups made while applying shares and mappings cannot miss:
   the failures for unknown account references are unreachable, and share names are distinct.
   */
  lemma ReferencesResolve(config: NetplanConfig)
    requires WellFormed(config)
    ensures forall s :: s in config.shares ==> Transaction.ShareSecurity(config, s).Some?
    ensures forall m :: m in config.mappings ==> Transaction.CredentialsKnown(config, m)
    ensures RunInvariant.SharesDistinct(config)
  {
    forall s | s in config.shares
      ensures Transaction.ShareSecurity(config, s).Some?
    {
      assert ShareValid(config, s);
      assert forall r :: r in s.accounts ==> GrantValid(config, r);
      GrantedUsersKnown(config, s.accounts);
    }
    forall m | m in config.mappings
      ensures Transaction.CredentialsKnown(config, m)
    {
      assert MappingValid(config, m);
      if m.account.Some? {
        var account :| Refers(config, m.account.value, account);
      }
    }
  }
}
