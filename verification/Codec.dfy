/** Typed values to wire objects and back, the envelope, and whole frames. */
module Codec {
  import opened Std
  import opened Model
  import opened Wire
  import opened Protocol
  import Framing
  import Plan

  // Leaves.

  function Flag(b: bool): (v: Value)
    ensures Fits(FLAG, v) && IsSet(v) == b
  {
    Number(if b then 1 else 0)
  }

  predicate IsSet(v: Value)
    requires v.Number?
  {
    v.n != 0
  }

  function MaybeText(t: Option<string>): (v: Value)
    ensures Fits(NOTE, v) && !v.Many? && TextOf(v) == t
  {
    if t.Some? then Word(t.value) else Absent
  }

  function TextOf(v: Value): Option<string>
    requires v.Word? || v.Absent?
  {
    if v.Word? then Some(v.text) else None
  }

  function NumberOr0(n: Option<nat>): (v: Value)
    ensures v.Number? && (n.Some? ==> v.n == n.value) && (n.None? ==> v.n == 0)
  {
    Number(if n.Some? then n.value else 0)
  }

  const FLAG: Field := Scalar(0, BYTE)
  const ENUM: Field := Scalar(0, BYTE)
  const U8: Field := Scalar(0, BYTE)
  const U32: Field := Scalar(0, WORD)
  const U64: Field := Scalar(0, LONG)
  const NAME: Field := Text(true)
  const NOTE: Field := Text(false)

  function ActionToWire(a: ConfigAction): (v: Value)
    ensures Holds(ENUM, v) && ActionFromWire(v) == Some(a)
  {
    match a case Validate => Number(0) case MakePlan => Number(1) case Apply => Number(2)
  }

  function ActionFromWire(v: Value): Option<ConfigAction>
    requires v.Number?
  {
    match v.n case 0 => Some(Validate) case 1 => Some(MakePlan) case 2 => Some(Apply) case _ => None
  }

  function FormatToWire(f: ConfigFormat): (v: Value)
    ensures Holds(ENUM, v) && FormatFromWire(v) == Some(f)
  {
    match f case Auto => Number(0) case Yaml => Number(1) case Json => Number(2)
  }

  function FormatFromWire(v: Value): Option<ConfigFormat>
    requires v.Number?
  {
    match v.n case 0 => Some(Auto) case 1 => Some(Yaml) case 2 => Some(Json) case _ => None
  }

  function StateToWire(s: JobState): (v: Value)
    ensures Holds(ENUM, v) && StateFromWire(v) == Some(s)
  {
    match s
    case Queued => Number(0)
    case Running => Number(1)
    case Succeeded => Number(2)
    case Failed => Number(3)
    case RolledBack => Number(4)
  }

  function StateFromWire(v: Value): Option<JobState>
    requires v.Number?
  {
    match v.n
    case 0 => Some(Queued)
    case 1 => Some(Running)
    case 2 => Some(Succeeded)
    case 3 => Some(Failed)
    case 4 => Some(RolledBack)
    case _ => None
  }

  /** Code 0 is the wire's "none" and stands for no error code. */
  function CodeToWire(c: ErrorCode): (v: Value)
    ensures Holds(ENUM, v) && CodeFromWire(v) == Some(c)
  {
    match c
    case InvalidRequest => Number(1)
    case InvalidConfig => Number(2)
    case Unsupported => Number(3)
    case PermissionDenied => Number(4)
    case NotFound => Number(5)
    case Internal => Number(6)
  }

  function CodeFromWire(v: Value): Option<ErrorCode>
    requires v.Number?
  {
    match v.n
    case 1 => Some(InvalidRequest)
    case 2 => Some(InvalidConfig)
    case 3 => Some(Unsupported)
    case 4 => Some(PermissionDenied)
    case 5 => Some(NotFound)
    case 6 => Some(Internal)
    case _ => None
  }

  function RiskToWire(r: Plan.Risk): (v: Value)
    ensures Holds(ENUM, v) && RiskFromWire(v) == Some(r)
  {
    match r case ReadOnly => Number(0) case Low => Number(1) case Connectivity => Number(2) case Destructive => Number(3)
  }

  function RiskFromWire(v: Value): Option<Plan.Risk>
    requires v.Number?
  {
    match v.n
    case 0 => Some(Plan.ReadOnly)
    case 1 => Some(Plan.Low)
    case 2 => Some(Plan.Connectivity)
    case 3 => Some(Plan.Destructive)
    case _ => None
  }

  function CapabilityStateToWire(s: CapabilityState): (v: Value)
    ensures Holds(ENUM, v) && CapabilityStateFromWire(v) == Some(s)
  {
    match s case Unavailable => Number(0) case ReadOnlyState => Number(1) case DryRun => Number(2) case Available => Number(3)
  }

  function CapabilityStateFromWire(v: Value): Option<CapabilityState>
    requires v.Number?
  {
    match v.n
    case 0 => Some(Unavailable)
    case 1 => Some(ReadOnlyState)
    case 2 => Some(DryRun)
    case 3 => Some(Available)
    case _ => None
  }

  // Records.

  const CAPABILITY: seq<Field> := [NAME, ENUM, NOTE]

  function CapabilityToWire(c: Capability): (o: Object)
    ensures Conforms(CAPABILITY, o) && CapabilityFromWire(o) == Some(c)
  {
    [Word(c.name), CapabilityStateToWire(c.state), MaybeText(c.reason)]
  }

  function CapabilityFromWire(o: Object): Option<Capability>
    requires Conforms(CAPABILITY, o)
  {
    if CapabilityStateFromWire(o[1]).None? then None
    else Some(Capability(o[0].text, CapabilityStateFromWire(o[1]).value, TextOf(o[2])))
  }

  const IP_ADDRESS: seq<Field> := [NAME, U8]

  function AddressToWire(a: IpAddressInfo): (o: Object)
    ensures Conforms(IP_ADDRESS, o) && AddressFromWire(o) == Some(a)
  {
    [Word(a.address), Number(a.prefixLength)]
  }

  function AddressFromWire(o: Object): Option<IpAddressInfo>
    requires Conforms(IP_ADDRESS, o)
  {
    Some(IpAddressInfo(o[0].text, o[1].n))
  }

  const ADAPTER: seq<Field> := [U32, NAME, NOTE, NOTE, NOTE, NOTE, FLAG, Tables(false, IP_ADDRESS), Tables(false, IP_ADDRESS)]

  function AddressesToWire(addresses: seq<IpAddressInfo>): (v: Value)
    ensures Holds(Tables(false, IP_ADDRESS), v) && AddressesFromWire(v) == addresses
  {
    Many(Each(addresses, AddressToWire))
  }

  function AddressesFromWire(v: Value): seq<IpAddressInfo>
    requires Holds(Tables(false, IP_ADDRESS), v)
  {
    if v.Absent? then [] else Collect(v.objects, AddressFromWire).value
  }

  function AdapterToWire(a: AdapterInfo): (o: Object)
    ensures Conforms(ADAPTER, o) && AdapterFromWire(o) == Some(a)
  {
    [Number(a.ifIndex), Word(a.name), MaybeText(a.description), MaybeText(a.guid), MaybeText(a.mac),
     Word(a.status), Flag(a.hardware), AddressesToWire(a.ipv4), AddressesToWire(a.ipv6)]
  }

  function AdapterFromWire(o: Object): Option<AdapterInfo>
    requires Conforms(ADAPTER, o)
  {
    Some(AdapterInfo(
      o[0].n, o[1].text, TextOf(o[2]), TextOf(o[3]), TextOf(o[4]), if o[5].Word? then o[5].text else "unknown",
      IsSet(o[6]), AddressesFromWire(o[7]), AddressesFromWire(o[8])))
  }

  const WIFI_INTERFACE: seq<Field> :=
    [U32, NAME, NOTE, NAME, NOTE, NOTE, NOTE, FLAG, U8, FLAG, FLAG, NOTE, NOTE, FLAG, U32, FLAG, U32]

  function InterfaceFields(w: WifiInterfaceStatus): Object {
    [Number(w.ifIndex), Word(w.name), MaybeText(w.guid), Word(w.state),
     MaybeText(w.profileName), MaybeText(w.ssid), MaybeText(w.ssidHex),
     Flag(w.signalQuality.Some?), NumberOr0(w.signalQuality),
     Flag(w.securityEnabled.Some?), Flag(w.securityEnabled.Some? && w.securityEnabled.value),
     MaybeText(w.authentication), MaybeText(w.cipher),
     Flag(w.rxRateKbps.Some?), NumberOr0(w.rxRateKbps),
     Flag(w.txRateKbps.Some?), NumberOr0(w.txRateKbps)]
  }

  lemma InterfaceConforms(w: WifiInterfaceStatus)
    ensures Conforms(WIFI_INTERFACE, InterfaceFields(w))
  {
    InterfaceShape(InterfaceFields(w));
  }

  lemma InterfaceShape(o: Object)
    requires |o| == 17
    requires Fits(U32, o[0]) && Fits(NAME, o[1]) && Fits(NOTE, o[2]) && Fits(NAME, o[3])
    requires Fits(NOTE, o[4]) && Fits(NOTE, o[5]) && Fits(NOTE, o[6])
    requires Fits(FLAG, o[7]) && Fits(U8, o[8]) && Fits(FLAG, o[9]) && Fits(FLAG, o[10])
    requires Fits(NOTE, o[11]) && Fits(NOTE, o[12])
    requires Fits(FLAG, o[13]) && Fits(U32, o[14]) && Fits(FLAG, o[15]) && Fits(U32, o[16])
    ensures Conforms(WIFI_INTERFACE, o)
  {
  }

  lemma InterfaceReads(w: WifiInterfaceStatus)
    requires Conforms(WIFI_INTERFACE, InterfaceFields(w))
    ensures InterfaceFromWire(InterfaceFields(w)) == Some(w)
  {
    var o := InterfaceFields(w);
    var r := InterfaceFromWire(o).value;
    assert r.guid == w.guid && r.profileName == w.profileName && r.ssid == w.ssid && r.ssidHex == w.ssidHex;
    assert r.signalQuality == w.signalQuality && r.securityEnabled == w.securityEnabled;
    assert r.authentication == w.authentication && r.cipher == w.cipher;
    assert r.rxRateKbps == w.rxRateKbps && r.txRateKbps == w.txRateKbps;
  }

  function InterfaceToWire(w: WifiInterfaceStatus): (o: Object)
    ensures Conforms(WIFI_INTERFACE, o) && InterfaceFromWire(o) == Some(w)
  {
    InterfaceConforms(w);
    InterfaceReads(w);
    InterfaceFields(w)
  }

  function InterfaceFromWire(o: Object): Option<WifiInterfaceStatus>
    requires Conforms(WIFI_INTERFACE, o)
  {
    Some(WifiInterfaceStatus(
      o[0].n, o[1].text, TextOf(o[2]), o[3].text, TextOf(o[4]), TextOf(o[5]), TextOf(o[6]),
      if IsSet(o[7]) then Some(o[8].n) else None,
      if IsSet(o[9]) then Some(IsSet(o[10])) else None,
      TextOf(o[11]), TextOf(o[12]),
      if IsSet(o[13]) then Some(o[14].n) else None,
      if IsSet(o[15]) then Some(o[16].n) else None))
  }

  const WIFI_NETWORK: seq<Field> :=
    [U32, NAME, NAME, NAME, NOTE, U8, FLAG, NAME, NAME, FLAG, FLAG, U32, FLAG, U32]

  function NetworkToWire(n: WifiNetwork): (o: Object)
    ensures Conforms(WIFI_NETWORK, o) && NetworkFromWire(o) == Some(n)
  {
    [Number(n.interfaceIfIndex), Word(n.interfaceName), Word(n.ssid), Word(n.ssidHex), MaybeText(n.profileName),
     Number(n.signalQuality), Flag(n.securityEnabled), Word(n.authentication), Word(n.cipher), Flag(n.connectable),
     Flag(n.notConnectableReason.Some?), NumberOr0(n.notConnectableReason), Flag(n.connected), Number(n.bssCount)]
  }

  function NetworkFromWire(o: Object): Option<WifiNetwork>
    requires Conforms(WIFI_NETWORK, o)
  {
    Some(WifiNetwork(
      o[0].n, o[1].text, o[2].text, o[3].text, TextOf(o[4]), o[5].n, IsSet(o[6]), o[7].text, o[8].text, IsSet(o[9]),
      if IsSet(o[10]) then Some(o[11].n) else None, IsSet(o[12]), o[13].n))
  }

  const OPERATION: seq<Field> := [NAME, NAME, NAME, ENUM, NOTE]

  function OperationToWire(p: OperationInfo): (o: Object)
    ensures Conforms(OPERATION, o) && OperationFromWire(o) == Some(p)
  {
    [Word(p.id), Word(p.capability), Word(p.summary), RiskToWire(p.risk), MaybeText(p.target)]
  }

  function OperationFromWire(o: Object): Option<OperationInfo>
    requires Conforms(OPERATION, o)
  {
    if RiskFromWire(o[3]).None? then None
    else Some(OperationInfo(o[0].text, o[1].text, o[2].text, RiskFromWire(o[3]).value, TextOf(o[4])))
  }

  const JOB_SUMMARY: seq<Field> := [NAME, ENUM, NOTE, U64, U64]

  function SummaryToWire(j: JobSummary): (o: Object)
    ensures Conforms(JOB_SUMMARY, o) && SummaryFromWire(o) == Some(j)
  {
    [Word(j.jobId), StateToWire(j.state), MaybeText(j.message), Number(j.createdAtUnixMs), Number(j.updatedAtUnixMs)]
  }

  function SummaryFromWire(o: Object): Option<JobSummary>
    requires Conforms(JOB_SUMMARY, o)
  {
    if StateFromWire(o[1]).None? then None
    else Some(JobSummary(o[0].text, StateFromWire(o[1]).value, TextOf(o[2]), o[3].n, o[4].n))
  }

  const ISSUE: seq<Field> := [NOTE, NAME]

  function IssueToWire(i: ValidationIssue): (o: Object)
    ensures Conforms(ISSUE, o) && IssueFromWire(o) == Some(i)
  {
    [MaybeText(i.path), Word(i.message)]
  }

  function IssueFromWire(o: Object): Option<ValidationIssue>
    requires Conforms(ISSUE, o)
  {
    Some(ValidationIssue(TextOf(o[0]), o[1].text))
  }

  // Payloads, by union tag.

  /** The fields of a payload table; none for a tag the protocol does not define. */
  function PayloadSchema(tag: nat): (schema: Option<seq<Field>>)
    ensures schema.Some? <==> 1 <= tag <= 25
  {
    match tag
    case 1 => Some([])
    case 2 => Some([NAME, U32])
    case 3 => Some([])
    case 4 => Some([Tables(true, CAPABILITY)])
    case 5 => Some([])
    case 6 => Some([Tables(true, ADAPTER)])
    case 7 => Some([ENUM, ENUM, Bytes, Scalar(1, BYTE)])
    case 8 => Some([FLAG, Tables(true, ISSUE)])
    case 9 => Some([Tables(true, OPERATION)])
    case 10 => Some([NAME, ENUM, Tables(true, OPERATION)])
    case 11 => Some([NAME])
    case 12 => Some([NAME, ENUM, NOTE])
    case 13 => Some([ENUM, NAME])
    case 14 => Some([])
    case 15 => Some([NAME, U32, U64, U64, U32, U32, U32, U32, U32, U32])
    case 16 => Some([FLAG, ENUM, Scalar(100, WORD)])
    case 17 => Some([Tables(true, JOB_SUMMARY), U32])
    case 18 => Some([])
    case 19 => Some([U64, Tables(true, ADAPTER), Tables(true, WIFI_INTERFACE), NOTE])
    case 20 => Some([FLAG, U32])
    case 21 => Some([Tables(true, WIFI_INTERFACE)])
    case 22 => Some([FLAG, U32, Scalar(1, BYTE), Scalar(4000, WORD)])
    case 23 => Some([FLAG, Tables(true, WIFI_NETWORK)])
    case 24 => Some([])
    case 25 => Some([])
    case _ => None
  }

  datatype Payload = Payload(tag: nat, body: Object)

  predicate PayloadHolds(p: Payload) {
    PayloadSchema(p.tag).Some? && Conforms(PayloadSchema(p.tag).value, p.body)
  }

  function RequestToWire(request: Request): (p: Payload)
    ensures PayloadHolds(p) && RequestFromWire(p) == Some(request) && ResponseFromWire(p) == None
  {
    match request
    case Ping => Payload(1, [])
    case QueryDaemon => Payload(14, [])
    case QueryCapabilities => Payload(3, [])
    case ListAdapters => Payload(5, [])
    case Configure(action, format, document, dryRun) =>
      Payload(7, [ActionToWire(action), FormatToWire(format), Blob(document), Flag(dryRun)])
    case QueryJob(jobId) => Payload(11, [Word(jobId)])
    case ListJobs(filter, limit) =>
      Payload(16, [Flag(filter.Some?), StateToWire(if filter.Some? then filter.value else Queued), Number(limit)])
    case QueryNetwork => Payload(18, [])
    case QueryWifi(ifIndex) => Payload(20, [Flag(ifIndex.Some?), NumberOr0(ifIndex)])
    case WifiScan(ifIndex, refresh, timeoutMs) =>
      Payload(22, [Flag(ifIndex.Some?), NumberOr0(ifIndex), Flag(refresh), Number(timeoutMs)])
    case Shutdown => Payload(24, [])
  }

  function RequestFromWire(p: Payload): (r: Option<Request>)
    requires PayloadHolds(p)
  {
    var o := p.body;
    match p.tag
    case 1 => Some(Ping)
    case 14 => Some(QueryDaemon)
    case 3 => Some(QueryCapabilities)
    case 5 => Some(ListAdapters)
    case 7 =>
      if ActionFromWire(o[0]).None? || FormatFromWire(o[1]).None? then None
      else Some(Configure(ActionFromWire(o[0]).value, FormatFromWire(o[1]).value, o[2].bytes, IsSet(o[3])))
    case 11 => Some(QueryJob(o[0].text))
    case 16 =>
      if !IsSet(o[0]) then Some(ListJobs(None, o[2].n))
      else if StateFromWire(o[1]).None? then None
      else Some(ListJobs(Some(StateFromWire(o[1]).value), o[2].n))
    case 18 => Some(QueryNetwork)
    case 20 => Some(QueryWifi(if IsSet(o[0]) then Some(o[1].n) else None))
    case 22 => Some(WifiScan(if IsSet(o[0]) then Some(o[1].n) else None, IsSet(o[2]), o[3].n))
    case 24 => Some(Shutdown)
    case _ => None
  }

  function ResponseToWire(response: Response): Payload {
    match response
    case Pong(daemonVersion, protocolVersion) => Payload(2, [Word(daemonVersion), Number(protocolVersion)])
    case DaemonStatus(daemonVersion, protocolVersion, startedAtUnixMs, uptimeMs, c) =>
      Payload(15, [Word(daemonVersion), Number(protocolVersion), Number(startedAtUnixMs), Number(uptimeMs),
                   Number(c.total), Number(c.queued), Number(c.running), Number(c.succeeded), Number(c.failed), Number(c.rolledBack)])
    case Capabilities(capabilities) =>
      Payload(4, [Many(Each(capabilities, CapabilityToWire))])
    case Adapters(adapters) =>
      Payload(6, [Many(Each(adapters, AdapterToWire))])
    case Validation(valid, issues) =>
      Payload(8, [Flag(valid), Many(Each(issues, IssueToWire))])
    case Planned(operations) =>
      Payload(9, [Many(Each(operations, OperationToWire))])
    case Applied(jobId, state, operations) =>
      Payload(10, [Word(jobId), StateToWire(state), Many(Each(operations, OperationToWire))])
    case JobStatus(jobId, state, message) => Payload(12, [Word(jobId), StateToWire(state), MaybeText(message)])
    case Jobs(jobs, total) =>
      Payload(17, [Many(Each(jobs, SummaryToWire)), Number(total)])
    case NetworkStatus(capturedAtUnixMs, adapters, interfaces, wifiError) =>
      Payload(19, [Number(capturedAtUnixMs), Many(Each(adapters, AdapterToWire)), Many(Each(interfaces, InterfaceToWire)),
                   MaybeText(wifiError)])
    case WifiStatus(interfaces) =>
      Payload(21, [Many(Each(interfaces, InterfaceToWire))])
    case WifiNetworks(refreshed, networks) =>
      Payload(23, [Flag(refreshed), Many(Each(networks, NetworkToWire))])
    case ShutdownAccepted => Payload(25, [])
    case Error(code, message) => Payload(13, [CodeToWire(code), Word(message)])
  }

  function ResponseFromWire(p: Payload): (r: Option<Response>)
    requires PayloadHolds(p)
  {
    var o := p.body;
    match p.tag
    case 2 => Some(Pong(o[0].text, o[1].n))
    case 15 =>
      Some(DaemonStatus(o[0].text, o[1].n, o[2].n, o[3].n, JobCounts(o[4].n, o[5].n, o[6].n, o[7].n, o[8].n, o[9].n)))
    case 4 =>
      var capabilities := Collect(o[0].objects, CapabilityFromWire);
      if capabilities.None? then None else Some(Capabilities(capabilities.value))
    case 6 => Some(Adapters(Collect(o[0].objects, AdapterFromWire).value))
    case 8 => Some(Validation(IsSet(o[0]), Collect(o[1].objects, IssueFromWire).value))
    case 9 =>
      var operations := Collect(o[0].objects, OperationFromWire);
      if operations.None? then None else Some(Planned(operations.value))
    case 10 =>
      var operations := Collect(o[2].objects, OperationFromWire);
      if operations.None? || StateFromWire(o[1]).None? then None
      else Some(Applied(o[0].text, StateFromWire(o[1]).value, operations.value))
    case 12 =>
      if StateFromWire(o[1]).None? then None else Some(JobStatus(o[0].text, StateFromWire(o[1]).value, TextOf(o[2])))
    case 17 =>
      var jobs := Collect(o[0].objects, SummaryFromWire);
      if jobs.None? then None else Some(Jobs(jobs.value, o[1].n))
    case 19 =>
      Some(NetworkStatus(o[0].n, Collect(o[1].objects, AdapterFromWire).value, Collect(o[2].objects, InterfaceFromWire).value, TextOf(o[3])))
    case 21 => Some(WifiStatus(Collect(o[0].objects, InterfaceFromWire).value))
    case 23 => Some(WifiNetworks(IsSet(o[0]), Collect(o[1].objects, NetworkFromWire).value))
    case 25 => Some(ShutdownAccepted)
    case 13 => if CodeFromWire(o[0]).None? then None else Some(Error(CodeFromWire(o[0]).value, o[1].text))
    case _ => None
  }

  predicate Survives(response: Response) {
    var p := ResponseToWire(response);
    PayloadHolds(p) && ResponseFromWire(p) == Some(response) && RequestFromWire(p) == None
  }

  lemma StatusSurvives(response: Response)
    requires response.DaemonStatus? || response.JobStatus?
    ensures Survives(response)
  {
  }

  lemma PlainSurvives(response: Response)
    requires response.Pong? || response.ShutdownAccepted? || response.Error?
    ensures Survives(response)
  {
  }

  lemma InventorySurvives(response: Response)
    requires response.Capabilities? || response.Adapters? || response.WifiStatus? || response.WifiNetworks?
    ensures Survives(response)
  {
    match response
    case Capabilities(capabilities) => CollectEach(capabilities, CapabilityToWire, CapabilityFromWire);
    case Adapters(adapters) => CollectEach(adapters, AdapterToWire, AdapterFromWire);
    case WifiStatus(interfaces) => CollectEach(interfaces, InterfaceToWire, InterfaceFromWire);
    case WifiNetworks(_, networks) => CollectEach(networks, NetworkToWire, NetworkFromWire);
  }

  lemma NetworkStatusSurvives(response: Response)
    requires response.NetworkStatus?
    ensures Survives(response)
  {
    match response
    case NetworkStatus(_, adapters, interfaces, _) =>
      CollectEach(adapters, AdapterToWire, AdapterFromWire);
      CollectEach(interfaces, InterfaceToWire, InterfaceFromWire);
  }

  lemma ConfigurationSurvives(response: Response)
    requires response.Validation? || response.Planned? || response.Applied? || response.Jobs?
    ensures Survives(response)
  {
    match response
    case Validation(_, issues) => CollectEach(issues, IssueToWire, IssueFromWire);
    case Planned(operations) => CollectEach(operations, OperationToWire, OperationFromWire);
    case Applied(_, _, operations) => CollectEach(operations, OperationToWire, OperationFromWire);
    case Jobs(jobs, _) => CollectEach(jobs, SummaryToWire, SummaryFromWire);
  }

  /** A response survives the wire and is never taken for a request. */
  lemma ResponseSurvives(response: Response)
    ensures Survives(response)
  {
    match response
    case Capabilities(_) => InventorySurvives(response);
    case Adapters(_) => InventorySurvives(response);
    case WifiStatus(_) => InventorySurvives(response);
    case WifiNetworks(_, _) => InventorySurvives(response);
    case NetworkStatus(_, _, _, _) => NetworkStatusSurvives(response);
    case Validation(_, _) => ConfigurationSurvives(response);
    case Planned(_) => ConfigurationSurvives(response);
    case Applied(_, _, _) => ConfigurationSurvives(response);
    case Jobs(_, _) => ConfigurationSurvives(response);
    case DaemonStatus(_, _, _, _, _) => StatusSurvives(response);
    case JobStatus(_, _, _) => StatusSurvives(response);
    case _ => PlainSurvives(response);
  }
}
