/** The configuration data model. Addresses are numbers; secrets, names and paths are text. */
module Config {
  import opened Std

  type Ipv4 = x: int | 0 <= x < 0x1_0000_0000
  type Ipv6 = x: int | 0 <= x < 0x1_0000_0000_0000_0000_0000_0000_0000_0000

  datatype IpAddr = V4(v4: Ipv4) | V6(v6: Ipv6)

  /** An IPv4 host address with its prefix length. */
  datatype Ipv4Net = Ipv4Net(address: Ipv4, prefix: u8)

  datatype InterfaceSelector = InterfaceSelector(
    ifIndex: Option<u32>,
    name: Option<string>,
    guid: Option<string>,
    mac: Option<string>,
    description: Option<string>)

  datatype Ipv4Config =
    | Dhcp(dnsFromDhcp: bool)
    | Static(addresses: seq<Ipv4Net>, gateways: seq<Ipv4>, dns: seq<IpAddr>, wins: seq<Ipv4>)

  datatype AdapterConfig = AdapterConfig(
    selector: InterfaceSelector,
    enabled: Option<bool>,
    mac: Option<string>,
    ipv4: Option<Ipv4Config>)

  datatype Identity = Identity(computerName: Option<string>, workgroup: Option<string>, dnsSuffix: Option<string>)

  datatype Secret = Env(name: string) | Literal(text: string)

  datatype WifiAuthentication = Open | Wpa2Personal | Wpa3Personal

  datatype WifiProfile = WifiProfile(
    selector: Option<InterfaceSelector>,
    name: Option<string>,
    ssid: string,
    authentication: WifiAuthentication,
    psk: Option<Secret>,
    autoConnect: bool,
    hidden: bool)
  {
    function ProfileName(): string {
      if name.Some? then name.value else ssid
    }
  }

  datatype WifiAction =
    | Scan(selector: Option<InterfaceSelector>)
    | Connect(selector: Option<InterfaceSelector>, profile: string)
    | Disconnect(selector: Option<InterfaceSelector>)

  datatype SmbAccountKind = Credential | Local

  datatype SmbAccount = SmbAccount(id: string, kind: SmbAccountKind, username: string, password: Option<Secret>)

  datatype SmbShare = SmbShare(
    name: string,
    path: string,
    description: Option<string>,
    readOnly: bool,
    accounts: seq<string>)

  datatype SmbMapping = SmbMapping(
    remote: string,
    local: Option<string>,
    account: Option<string>,
    username: Option<string>,
    password: Option<Secret>)

  datatype ServiceState = Running | Stopped

  datatype Service = Service(name: string, state: ServiceState)

  datatype RestartPolicy = Never | IfRequired | Always

  datatype DriverOperation =
    | Install(infPath: string, hardwareId: Option<string>, force: bool, restart: RestartPolicy)
    | RestartAdapter(selector: InterfaceSelector)

  datatype HookStage = BeforeApply | AfterApply | AfterRollback

  datatype Hook = Hook(stage: HookStage, program: string, args: seq<string>, wait: bool)

  datatype NetplanConfig = NetplanConfig(
    version: u32,
    protectedInterfaces: seq<InterfaceSelector>,
    identity: Option<Identity>,
    adapters: seq<AdapterConfig>,
    wifi: seq<WifiProfile>,
    wifiActions: seq<WifiAction>,
    accounts: seq<SmbAccount>,
    shares: seq<SmbShare>,
    mappings: seq<SmbMapping>,
    firewall: Option<bool>,
    services: seq<Service>,
    drivers: seq<DriverOperation>,
    hooks: seq<Hook>)

  /** The document that declares nothing. */
  const EMPTY_CONFIG: NetplanConfig :=
    NetplanConfig(1, [], None, [], [], [], [], [], [], None, [], [], [])
}
