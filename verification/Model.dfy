/** What the daemon reports: capabilities, adapters and Wi-Fi state. */
module Model {
  import opened Std

  datatype CapabilityState = Unavailable | ReadOnlyState | DryRun | Available

  datatype Capability = Capability(name: string, state: CapabilityState, reason: Option<string>)

  datatype IpAddressInfo = IpAddressInfo(address: string, prefixLength: u8)

  datatype AdapterInfo = AdapterInfo(
    ifIndex: u32,
    name: string,
    description: Option<string>,
    guid: Option<string>,
    mac: Option<string>,
    status: string,
    hardware: bool,
    ipv4: seq<IpAddressInfo>,
    ipv6: seq<IpAddressInfo>)

  datatype WifiInterfaceStatus = WifiInterfaceStatus(
    ifIndex: u32,
    name: string,
    guid: Option<string>,
    state: string,
    profileName: Option<string>,
    ssid: Option<string>,
    ssidHex: Option<string>,
    signalQuality: Option<u8>,
    securityEnabled: Option<bool>,
    authentication: Option<string>,
    cipher: Option<string>,
    rxRateKbps: Option<u32>,
    txRateKbps: Option<u32>)

  datatype WifiNetwork = WifiNetwork(
    interfaceIfIndex: u32,
    interfaceName: string,
    ssid: string,
    ssidHex: string,
    profileName: Option<string>,
    signalQuality: u8,
    securityEnabled: bool,
    authentication: string,
    cipher: string,
    connectable: bool,
    notConnectableReason: Option<u32>,
    connected: bool,
    bssCount: u32)
}
