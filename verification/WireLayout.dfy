/**
 Where each value stands on the wire and by which number, as the interface schema lays it down: the
 round trips alone would hold of any consistent numbering.
 */
module WireLayout {
  import opened Std
  import opened Model
  import opened Wire
  import opened Protocol
  import opened Codec
  import Envelope
  import Plan

  /** The field at position `i` of a schema is written at offset 4 + 2i, and not at all when it is absent or its default. */
  lemma FieldAt(schema: seq<Field>, fields: Object, i: nat)
    requires Conforms(schema, fields) && i < |schema|
    ensures var table, offset := Pack(schema, fields), 4 + 2 * i;
      (if offset in table then Some(table[offset]) else None) == PackField(schema[i], fields[i])
  {
    EntryOfPack(schema, fields, i);
    assert SlotOf(i) == 4 + 2 * i;
  }

  // Values: an absent text, a flag, and the pair of fields for a number that may be missing.

  function Note(t: Option<string>): Value {
    if t.Some? then Word(t.value) else Absent
  }

  function Bit(b: bool): Value {
    Number(if b then 1 else 0)
  }

  predicate IsPair(has: Value, value: Value, n: Option<nat>) {
    if n.Some? then has == Number(1) && value == Number(n.value) else has == Number(0)
  }

  // Enumerations.

  function StateNumber(s: JobState): nat {
    match s
    case Queued => 0
    case Running => 1
    case Succeeded => 2
    case Failed => 3
    case RolledBack => 4
  }

  function CodeNumber(c: ErrorCode): nat {
    match c
    case InvalidRequest => 1
    case InvalidConfig => 2
    case Unsupported => 3
    case PermissionDenied => 4
    case NotFound => 5
    case Internal => 6
  }

  function RiskNumber(r: Plan.Risk): nat {
    match r
    case ReadOnly => 0
    case Low => 1
    case Connectivity => 2
    case Destructive => 3
  }

  function CapabilityNumber(s: CapabilityState): nat {
    match s
    case Unavailable => 0
    case ReadOnlyState => 1
    case DryRun => 2
    case Available => 3
  }

  function ActionNumber(a: ConfigAction): nat {
    match a
    case Validate => 0
    case MakePlan => 1
    case Apply => 2
  }

  function FormatNumber(f: ConfigFormat): nat {
    match f
    case Auto => 0
    case Yaml => 1
    case Json => 2
  }

  // Requests.

  function RequestTag(request: Request): nat {
    match request
    case Ping => 1
    case QueryCapabilities => 3
    case ListAdapters => 5
    case Configure(_, _, _, _) => 7
    case QueryJob(_) => 11
    case QueryDaemon => 14
    case ListJobs(_, _) => 16
    case QueryNetwork => 18
    case QueryWifi(_) => 20
    case WifiScan(_, _, _) => 22
    case Shutdown => 24
  }

  predicate RequestFields(request: Request, o: Object) {
    match request
    case Configure(action, format, document, dryRun) =>
      o == [Number(ActionNumber(action)), Number(FormatNumber(format)), Blob(document), Bit(dryRun)]
    case QueryJob(jobId) => o == [Word(jobId)]
    case ListJobs(filter, limit) =>
      |o| == 3 && IsPair(o[0], o[1], if filter.Some? then Some(StateNumber(filter.value)) else None) && o[2] == Number(limit)
    case QueryWifi(ifIndex) => |o| == 2 && IsPair(o[0], o[1], if ifIndex.Some? then Some(ifIndex.value) else None)
    case WifiScan(ifIndex, refresh, timeoutMs) =>
      && |o| == 4 && IsPair(o[0], o[1], if ifIndex.Some? then Some(ifIndex.value) else None)
      && o[2] == Bit(refresh) && o[3] == Number(timeoutMs)
    case _ => o == []
  }

  /** A request is written under its tag with its values where the schema puts them. */
  lemma RequestLayout(request: Request)
    ensures var p := RequestToWire(request); p.tag == RequestTag(request) && RequestFields(request, p.body)
  {
  }

  /** What a request leaves out: a dry run, a refreshed scan, a limit of 100, a timeout of 4000 milliseconds. */
  lemma RequestDefaults()
    ensures PayloadSchema(7).value[3] == Scalar(1, BYTE) && PayloadSchema(16).value[2] == Scalar(100, WORD)
    ensures PayloadSchema(22).value[2] == Scalar(1, BYTE) && PayloadSchema(22).value[3] == Scalar(4000, WORD)
  {
  }

  // Responses.

  function ResponseTag(response: Response): nat {
    match response
    case Pong(_, _) => 2
    case Capabilities(_) => 4
    case Adapters(_) => 6
    case Validation(_, _) => 8
    case Planned(_) => 9
    case Applied(_, _, _) => 10
    case JobStatus(_, _, _) => 12
    case Error(_, _) => 13
    case DaemonStatus(_, _, _, _, _) => 15
    case Jobs(_, _) => 17
    case NetworkStatus(_, _, _, _) => 19
    case WifiStatus(_) => 21
    case WifiNetworks(_, _) => 23
    case ShutdownAccepted => 25
  }

  predicate ResponseFields(response: Response, o: Object) {
    match response
    case Pong(version, protocol) => o == [Word(version), Number(protocol)]
    case Error(code, message) => o == [Number(CodeNumber(code)), Word(message)]
    case JobStatus(jobId, state, message) => o == [Word(jobId), Number(StateNumber(state)), Note(message)]
    case DaemonStatus(version, protocol, startedAt, uptime, c) =>
      o == [Word(version), Number(protocol), Number(startedAt), Number(uptime), Number(c.total), Number(c.queued), Number(c.running),
            Number(c.succeeded), Number(c.failed), Number(c.rolledBack)]
    case Applied(jobId, state, operations) =>
      |o| == 3 && o[0] == Word(jobId) && o[1] == Number(StateNumber(state)) && o[2] == Many(Each(operations, OperationToWire))
    case Validation(valid, issues) => o == [Bit(valid), Many(Each(issues, IssueToWire))]
    case Planned(operations) => o == [Many(Each(operations, OperationToWire))]
    case Jobs(jobs, total) => o == [Many(Each(jobs, SummaryToWire)), Number(total)]
    case Capabilities(capabilities) => o == [Many(Each(capabilities, CapabilityToWire))]
    case Adapters(adapters) => o == [Many(Each(adapters, AdapterToWire))]
    case NetworkStatus(captured, adapters, interfaces, wifiError) =>
      |o| == 4 && o[0] == Number(captured) && o[1] == Many(Each(adapters, AdapterToWire))
      && o[2] == Many(Each(interfaces, InterfaceToWire)) && o[3] == Note(wifiError)
    case WifiStatus(interfaces) => o == [Many(Each(interfaces, InterfaceToWire))]
    case WifiNetworks(refreshed, networks) => o == [Bit(refreshed), Many(Each(networks, NetworkToWire))]
    case ShutdownAccepted => o == []
  }

  /** So is a response. */
  lemma ResponseLayout(response: Response)
    ensures var p := ResponseToWire(response); p.tag == ResponseTag(response) && ResponseFields(response, p.body)
  {
  }

  // Records.

  lemma CapabilityLayout(c: Capability)
    ensures CapabilityToWire(c) == [Word(c.name), Number(CapabilityNumber(c.state)), Note(c.reason)]
  {
  }

  lemma AddressLayout(a: IpAddressInfo)
    ensures AddressToWire(a) == [Word(a.address), Number(a.prefixLength)]
  {
  }

  lemma OperationLayout(p: OperationInfo)
    ensures OperationToWire(p) == [Word(p.id), Word(p.capability), Word(p.summary), Number(RiskNumber(p.risk)), Note(p.target)]
  {
  }

  lemma SummaryLayout(j: JobSummary)
    ensures SummaryToWire(j)
         == [Word(j.jobId), Number(StateNumber(j.state)), Note(j.message), Number(j.createdAtUnixMs), Number(j.updatedAtUnixMs)]
  {
  }

  lemma AdapterLayout(a: AdapterInfo)
    ensures AdapterToWire(a)
         == [Number(a.ifIndex), Word(a.name), Note(a.description), Note(a.guid), Note(a.mac), Word(a.status), Bit(a.hardware),
             Many(Each(a.ipv4, AddressToWire)), Many(Each(a.ipv6, AddressToWire))]
  {
  }

  lemma InterfaceLayout(w: WifiInterfaceStatus)
    ensures var o := InterfaceToWire(w);
      && |o| == 17
      && o[..7] == [Number(w.ifIndex), Word(w.name), Note(w.guid), Word(w.state), Note(w.profileName), Note(w.ssid), Note(w.ssidHex)]
      && IsPair(o[7], o[8], if w.signalQuality.Some? then Some(w.signalQuality.value) else None)
      && o[9] == Bit(w.securityEnabled.Some?) && o[10] == Bit(w.securityEnabled.Some? && w.securityEnabled.value)
      && o[11] == Note(w.authentication) && o[12] == Note(w.cipher)
      && IsPair(o[13], o[14], if w.rxRateKbps.Some? then Some(w.rxRateKbps.value) else None)
      && IsPair(o[15], o[16], if w.txRateKbps.Some? then Some(w.txRateKbps.value) else None)
  {
    assert InterfaceToWire(w) == InterfaceFields(w);
  }

  lemma NetworkLayout(n: WifiNetwork)
    ensures var o := NetworkToWire(n);
      && |o| == 14
      && o[..10] == [Number(n.interfaceIfIndex), Word(n.interfaceName), Word(n.ssid), Word(n.ssidHex), Note(n.profileName),
                     Number(n.signalQuality), Bit(n.securityEnabled), Word(n.authentication), Word(n.cipher), Bit(n.connectable)]
      && IsPair(o[10], o[11], if n.notConnectableReason.Some? then Some(n.notConnectableReason.value) else None)
      && o[12] == Bit(n.connected) && o[13] == Number(n.bssCount)
  {
  }

  /** The envelope: version, request identifier, tag of the payload, and the payload itself in its own slot. */
  lemma EnvelopeLayout()
    ensures Envelope.ENVELOPE == [Scalar(1, WORD), Scalar(0, LONG), Scalar(0, BYTE)] && PROTOCOL_VERSION == 1
  {
  }
}
