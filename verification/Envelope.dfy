/**
 Whole frames: the envelope table around a payload, the file identifier and the size prefix. How
 tables become bytes is a parameter; only the slots and their defaults matter here.
 */
module Envelope {
  import opened Std
  import opened Wire
  import opened Protocol
  import opened Codec
  import Framing

  /** Protocol version, request identifier and payload tag. */
  const ENVELOPE: seq<Field> := [Scalar(1, WORD), U64, ENUM]

  const TAG_SLOT: nat := SlotOf(2)

  /** An envelope table, its payload slot shown apart. */
  datatype Root = Root(head: Table, payload: Option<Table>)

  function EncodeEnvelope(requestId: u64, payload: Payload): Root
    requires PayloadHolds(payload)
  {
    Root(
      Pack(ENVELOPE, [Number(PROTOCOL_VERSION), Number(requestId), Number(payload.tag)]),
      Some(Pack(PayloadSchema(payload.tag).value, payload.body)))
  }

  /** The identifier and the payload; an unknown tag gives no payload, a malformed table gives nothing. */
  function DecodeEnvelope(root: Root): (r: Option<(u64, Option<Payload>)>)
    ensures r.Some? && r.value.1.Some? ==> PayloadHolds(r.value.1.value)
  {
    var head := Unpack(ENVELOPE, root.head);
    if head.None? || (TAG_SLOT in root.head) != root.payload.Some? then None
    else
      var tag := head.value[2].n;
      var schema := PayloadSchema(tag);
      var body := if schema.Some? && root.payload.Some? then Unpack(schema.value, root.payload.value) else None;
      if schema.Some? && body.None? then None
      else if head.value[0].n != PROTOCOL_VERSION then None
      else Some((head.value[1].n, if schema.Some? then Some(Payload(tag, body.value)) else None))
  }

  function RequestRoot(requestId: u64, request: Request): Root {
    EncodeEnvelope(requestId, RequestToWire(request))
  }

  function ResponseRoot(requestId: u64, response: Response): Root {
    ResponseSurvives(response);
    EncodeEnvelope(requestId, ResponseToWire(response))
  }

  function RequestOf(root: Root): Option<Frame<Request>> {
    var envelope := DecodeEnvelope(root);
    if envelope.None? || envelope.value.1.None? then None
    else
      var request := RequestFromWire(envelope.value.1.value);
      if request.None? then None else Some(Frame(envelope.value.0, request.value))
  }

  function ResponseOf(root: Root): Option<Frame<Response>> {
    var envelope := DecodeEnvelope(root);
    if envelope.None? || envelope.value.1.None? then None
    else
      var response := ResponseFromWire(envelope.value.1.value);
      if response.None? then None else Some(Frame(envelope.value.0, response.value))
  }

  lemma SchemasWellMade(tag: nat)
    requires 1 <= tag <= 25
    ensures WellMade(PayloadSchema(tag).value)
  {
    assert WellMade(CAPABILITY) && WellMade(IP_ADDRESS) && WellMade(WIFI_INTERFACE) && WellMade(WIFI_NETWORK);
    assert WellMade(OPERATION) && WellMade(JOB_SUMMARY) && WellMade(ISSUE) && WellMade(ADAPTER);
  }

  lemma EnvelopeRoundTrip(requestId: u64, payload: Payload)
    requires PayloadHolds(payload)
    ensures DecodeEnvelope(EncodeEnvelope(requestId, payload)) == Some((requestId, Some(payload)))
  {
    var fields := [Number(PROTOCOL_VERSION), Number(requestId), Number(payload.tag)];
    assert WellMade(ENVELOPE) && Conforms(ENVELOPE, fields);
    UnpackPacked(ENVELOPE, fields);
    SlotWrittenIff(ENVELOPE, fields, 2);
    SchemasWellMade(payload.tag);
    UnpackPacked(PayloadSchema(payload.tag).value, payload.body);
  }

  /** Every request comes back with its identifier, and never as a response. */
  lemma RequestRoundTrip(requestId: u64, request: Request)
    ensures RequestOf(RequestRoot(requestId, request)) == Some(Frame(requestId, request))
    ensures ResponseOf(RequestRoot(requestId, request)) == None
  {
    EnvelopeRoundTrip(requestId, RequestToWire(request));
  }

  /** Every response comes back with its identifier, and never as a request. */
  lemma ResponseRoundTrip(requestId: u64, response: Response)
    ensures ResponseOf(ResponseRoot(requestId, response)) == Some(Frame(requestId, response))
    ensures RequestOf(ResponseRoot(requestId, response)) == None
  {
    ResponseSurvives(response);
    EnvelopeRoundTrip(requestId, ResponseToWire(response));
  }

  /** A configuration request asks for live changes only by an explicit zero in its dry-run slot. */
  lemma LiveOnlyWhenExplicit(root: Root)
    requires RequestOf(root).Some? && RequestOf(root).value.payload.Configure? && !RequestOf(root).value.payload.dryRun
    ensures root.payload.Some? && SlotOf(3) in root.payload.value && root.payload.value[SlotOf(3)] == SlotNumber(0)
  {
    var payload := DecodeEnvelope(root).value.1.value;
    assert payload.tag == 7;
    var schema := PayloadSchema(7).value;
    var table := root.payload.value;
    assert Unpack(schema, table).value == payload.body;
    assert UnpackField(schema[3], Entry(table, 3)) == Some(payload.body[3]);
    assert !IsSet(payload.body[3]);
  }

  /** An envelope of another protocol version is refused, and one without a version is of version 1. */
  lemma OtherVersionRefused(root: Root)
    ensures DecodeEnvelope(root).Some? ==> 4 !in root.head || root.head[4] == SlotNumber(1)
  {
    var head := Unpack(ENVELOPE, root.head);
    if DecodeEnvelope(root).Some? && 4 in root.head {
      assert UnpackField(ENVELOPE[0], Entry(root.head, 0)) == Some(head.value[0]);
    }
  }

  // Bytes.

  /** How a serialiser writes an envelope and reads one back. */
  datatype Layout = Layout(write: Root -> seq<u8>, identified: seq<u8> -> bool, read: seq<u8> -> Option<Root>)

  /** What is asked of the serialiser: the envelope is written in a buffer it can read back. */
  predicate Carries(layout: Layout, root: Root) {
    var body := layout.write(root);
    |body| <= U32_MAX && layout.identified(body) && layout.read(body) == Some(root)
  }

  function EncodeFrame(layout: Layout, root: Root): seq<u8>
    requires |layout.write(root)| <= U32_MAX
  {
    Framing.ToLittleEndian(|layout.write(root)|) + layout.write(root)
  }

  function OpenFrame(layout: Layout, frame: seq<u8>): Option<Root> {
    if !Framing.IsFrame(frame) || !layout.identified(frame[4..]) then None else layout.read(frame[4..])
  }

  function DecodeRequest(layout: Layout, frame: seq<u8>): Option<Frame<Request>> {
    var root := OpenFrame(layout, frame);
    if root.None? then None else RequestOf(root.value)
  }

  function DecodeResponse(layout: Layout, frame: seq<u8>): Option<Frame<Response>> {
    var root := OpenFrame(layout, frame);
    if root.None? then None else ResponseOf(root.value)
  }

  lemma OpenEncoded(layout: Layout, root: Root)
    requires Carries(layout, root)
    ensures OpenFrame(layout, EncodeFrame(layout, root)) ==
      if Framing.LengthAllowed(|layout.write(root)|) then Some(root) else None
    ensures Framing.IsFrame(EncodeFrame(layout, root)) <==> Framing.LengthAllowed(|layout.write(root)|)
  {
    var body := layout.write(root);
    var frame := EncodeFrame(layout, root);
    Framing.LittleEndianRoundTrip(|body|);
    assert frame[..4] == Framing.ToLittleEndian(|body|) && frame[4..] == body;
  }

  /** A request's frame decodes to that request exactly when its body is within the frame bound. */
  lemma RequestFrameRoundTrip(layout: Layout, requestId: u64, request: Request)
    requires Carries(layout, RequestRoot(requestId, request))
    ensures var root := RequestRoot(requestId, request);
      var frame := EncodeFrame(layout, root);
      && (Framing.LengthAllowed(|layout.write(root)|) <==> DecodeRequest(layout, frame) == Some(Frame(requestId, request)))
      && DecodeResponse(layout, frame) == None
  {
    OpenEncoded(layout, RequestRoot(requestId, request));
    RequestRoundTrip(requestId, request);
  }

  lemma ResponseFrameRoundTrip(layout: Layout, requestId: u64, response: Response)
    requires Carries(layout, ResponseRoot(requestId, response))
    ensures var root := ResponseRoot(requestId, response);
      var frame := EncodeFrame(layout, root);
      && (Framing.LengthAllowed(|layout.write(root)|) <==> DecodeResponse(layout, frame) == Some(Frame(requestId, response)))
      && DecodeRequest(layout, frame) == None
  {
    OpenEncoded(layout, ResponseRoot(requestId, response));
    ResponseRoundTrip(requestId, response);
  }

  // A conversation.

  predicate Sendable(layout: Layout, sent: Frame<Request>) {
    var root := RequestRoot(sent.requestId, sent.payload);
    Carries(layout, root) && Framing.LengthAllowed(|layout.write(root)|)
  }

  function Encoded(layout: Layout, sent: seq<Frame<Request>>): (frames: seq<seq<u8>>)
    requires forall i :: 0 <= i < |sent| ==> Sendable(layout, sent[i])
    ensures |frames| == |sent|
  {
    seq(|sent|, i requires 0 <= i < |sent| && Sendable(layout, sent[i]) => EncodeFrame(layout, RequestRoot(sent[i].requestId, sent[i].payload)))
  }

  /** Requests written back to back on one stream are read and decoded in order, whatever bytes follow. */
  lemma ConversationRoundTrip(layout: Layout, sent: seq<Frame<Request>>, suffix: seq<u8>)
    requires forall i :: 0 <= i < |sent| ==> Sendable(layout, sent[i])
    ensures var received := Framing.ReadAll(Framing.Concat(Encoded(layout, sent)) + suffix).0;
      |received| >= |sent| && forall i :: 0 <= i < |sent| ==> DecodeRequest(layout, received[i]) == Some(sent[i])
  {
    var frames := Encoded(layout, sent);
    forall i | 0 <= i < |sent| ensures Framing.IsFrame(frames[i]) && DecodeRequest(layout, frames[i]) == Some(sent[i]) {
      assert Sendable(layout, sent[i]);
      OpenEncoded(layout, RequestRoot(sent[i].requestId, sent[i].payload));
      RequestFrameRoundTrip(layout, sent[i].requestId, sent[i].payload);
    }
    Framing.ReadConcat(frames, suffix);
  }
}
