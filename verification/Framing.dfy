/**
 Size-prefixed framing on a byte stream: a little-endian 32-bit length, between 1 byte and 16 MiB,
 followed by that many bytes.
 */
module Framing {
  import opened Std

  const MAX_FRAME_SIZE := 16 * 1024 * 1024

  datatype FrameError = Io | Protocol

  function FromLittleEndian(b: seq<u8>): (n: u32)
    requires |b| == 4
  {
    b[0] as int + 0x100 * (b[1] as int) + 0x1_0000 * (b[2] as int) + 0x100_0000 * (b[3] as int)
  }

  function ToLittleEndian(n: u32): (b: seq<u8>)
    ensures |b| == 4
  {
    [n % 0x100, n / 0x100 % 0x100, n / 0x1_0000 % 0x100, n / 0x100_0000]
  }

  lemma LittleEndianRoundTrip(n: u32)
    ensures FromLittleEndian(ToLittleEndian(n)) == n
  {
    assert n / 0x1_0000 == n / 0x100 / 0x100;
    assert n / 0x100_0000 == n / 0x100 / 0x100 / 0x100;
  }

  /** The number four bytes stand for, least byte first. */
  function Little(a: int, b: int, c: int, d: int): int {
    a + 256 * b + 65_536 * c + 16_777_216 * d
  }

  lemma LastByte(a: int, rest: int, other: int, more: int)
    requires 0 <= a < 256 && 0 <= other < 256 && a + 256 * rest == other + 256 * more
    ensures a == other && rest == more
  {
  }

  /** The prefix of a frame is its length, and no other four bytes are. */
  lemma PrefixIff(n: u32, p: seq<u8>)
    requires |p| == 4
    ensures ToLittleEndian(n) == p <==> n == Little(p[0], p[1], p[2], p[3])
  {
    var q := ToLittleEndian(n);
    LittleEndianRoundTrip(n);
    assert n == Little(q[0], q[1], q[2], q[3]);
    if n == Little(p[0], p[1], p[2], p[3]) {
      LastByte(q[0], q[1] as int + 256 * (q[2] as int) + 65_536 * (q[3] as int), p[0], p[1] as int + 256 * (p[2] as int) + 65_536 * (p[3] as int));
      LastByte(q[1], q[2] as int + 256 * (q[3] as int), p[1], p[2] as int + 256 * (p[3] as int));
      LastByte(q[2], q[3], p[2], p[3]);
      assert q == [q[0], q[1], q[2], q[3]] && p == [p[0], p[1], p[2], p[3]];
    }
  }

  predicate LengthAllowed(n: nat) {
    1 <= n <= MAX_FRAME_SIZE
  }

  /** What `validate_frame_length` accepts. */
  predicate IsFrame(frame: seq<u8>) {
    |frame| >= 4 && LengthAllowed(FromLittleEndian(frame[..4])) && FromLittleEndian(frame[..4]) + 4 == |frame|
  }

  /** Five bytes to sixteen mebibytes and four, the first four giving the number of the others, least byte first. */
  lemma FrameIff(frame: seq<u8>)
    ensures IsFrame(frame) <==>
      5 <= |frame| <= 16_777_220 && Little(frame[0], frame[1], frame[2], frame[3]) == |frame| - 4
  {
    if |frame| >= 4 {
      assert frame[..4] == [frame[0], frame[1], frame[2], frame[3]];
    }
  }

  method ValidateFrameLength(frame: seq<u8>) returns (r: Option<FrameError>)
    ensures r == if IsFrame(frame) then None else Some(Protocol)
  {
    if |frame| < 4 {
      return Some(Protocol);
    }
    var bodyLen: nat := FromLittleEndian(frame[..4]);
    if bodyLen == 0 || bodyLen > MAX_FRAME_SIZE || bodyLen + 4 != |frame| {
      return Some(Protocol);
    }
    return None;
  }

  /** The result of reading one frame, and what is left. Running out of bytes uses up the stream. */
  function Next(bytes: seq<u8>): (Result<seq<u8>, FrameError>, seq<u8>) {
    if |bytes| < 4 then (Failure(Io), [])
    else
      var bodyLen := FromLittleEndian(bytes[..4]);
      if !LengthAllowed(bodyLen) then (Failure(Protocol), bytes[4..])
      else if |bytes| < 4 + bodyLen then (Failure(Io), [])
      else (Success(bytes[..4 + bodyLen]), bytes[4 + bodyLen..])
  }

  /** One direction of a connection: the bytes written to it and not yet read. */
  class Stream {
    var bytes: seq<u8>

    constructor ()
      ensures bytes == []
    {
      bytes := [];
    }

    /** Fills a buffer of `n` bytes, or reaches the end and takes whatever there was. */
    method ReadExact(n: nat) returns (r: Option<seq<u8>>)
      modifies this
      ensures |old(bytes)| >= n ==> r == Some(old(bytes)[..n]) && bytes == old(bytes)[n..]
      ensures |old(bytes)| < n ==> r == None && bytes == []
    {
      if |bytes| < n {
        bytes := [];
        return None;
      }
      r := Some(bytes[..n]);
      bytes := bytes[n..];
    }

    method ReadFrame() returns (r: Result<seq<u8>, FrameError>)
      modifies this
      ensures (r, bytes) == Next(old(bytes))
      ensures r.Success? ==> IsFrame(r.value) && old(bytes) == r.value + bytes
    {
      ghost var before := bytes;
      var prefix := ReadExact(4);
      if prefix.None? {
        return Failure(Io);
      }
      var bodyLen: nat := FromLittleEndian(prefix.value);
      if bodyLen == 0 || bodyLen > MAX_FRAME_SIZE {
        return Failure(Protocol);
      }
      var body := ReadExact(bodyLen);
      if body.None? {
        return Failure(Io);
      }
      assert prefix.value + body.value == before[..4 + bodyLen];
      assert before[4..][bodyLen..] == before[4 + bodyLen..];
      return Success(prefix.value + body.value);
    }

    /** Writes a frame; the connection takes only the first `taken` bytes when that is fewer. */
    method WriteFrame(frame: seq<u8>, taken: nat) returns (r: Option<FrameError>)
      modifies this
      ensures !IsFrame(frame) ==> r == Some(Protocol) && bytes == old(bytes)
      ensures IsFrame(frame) && taken >= |frame| ==> r == None && bytes == old(bytes) + frame
      ensures IsFrame(frame) && taken < |frame| ==> r == Some(Io) && bytes == old(bytes) + frame[..taken]
    {
      r := ValidateFrameLength(frame);
      if r.Some? {
        return;
      }
      if taken < |frame| {
        bytes := bytes + frame[..taken];
        return Some(Io);
      }
      bytes := bytes + frame;
    }
  }

  /** A frame is read exactly when the stream starts with one; there is never a choice of frame. */
  lemma NextIff(bytes: seq<u8>, frame: seq<u8>)
    ensures Next(bytes).0 == Success(frame) <==> IsFrame(frame) && IsPrefix(frame, bytes)
    ensures Next(bytes).0 == Success(frame) ==> bytes == frame + Next(bytes).1
  {
    if |bytes| >= 4 && |frame| >= 4 && IsPrefix(frame, bytes) {
      assert frame[..4] == bytes[..4];
    }
    if Next(bytes).0 == Success(frame) {
      assert frame[..4] == bytes[..4];
    }
  }

  function Concat(frames: seq<seq<u8>>): seq<u8> {
    if frames == [] then [] else frames[0] + Concat(frames[1..])
  }

  /** The frames read one after another until the first failure, with that failure and what is left. */
  function ReadAll(bytes: seq<u8>): (r: (seq<seq<u8>>, FrameError, seq<u8>))
    decreases |bytes|
  {
    var (first, rest) := Next(bytes);
    if first.Failure? then ([], first.error, rest)
    else
      var later := ReadAll(rest);
      ([first.value] + later.0, later.1, later.2)
  }

  predicate AllFrames(frames: seq<seq<u8>>) {
    forall i :: 0 <= i < |frames| ==> IsFrame(frames[i])
  }

  lemma ReadStep(first: seq<u8>, rest: seq<u8>)
    requires IsFrame(first)
    ensures Next(first + rest) == (Success(first), rest)
  {
    NextIff(first + rest, first);
    assert (first + rest)[|first|..] == rest;
  }

  lemma ReadAllStep(first: seq<u8>, rest: seq<u8>)
    requires IsFrame(first)
    ensures ReadAll(first + rest) == ([first] + ReadAll(rest).0, ReadAll(rest).1, ReadAll(rest).2)
  {
    ReadStep(first, rest);
  }

  /** Frames written back to back are read one by one, and reading goes on with whatever follows them. */
  lemma {:induction false} ReadConcat(frames: seq<seq<u8>>, suffix: seq<u8>)
    requires AllFrames(frames)
    ensures ReadAll(Concat(frames) + suffix)
         == (frames + ReadAll(suffix).0, ReadAll(suffix).1, ReadAll(suffix).2)
    decreases |frames|
  {
    if frames == [] {
      assert Concat(frames) + suffix == suffix && frames + ReadAll(suffix).0 == ReadAll(suffix).0;
    } else {
      var first, more := frames[0], frames[1..];
      Assoc(first, Concat(more), suffix);
      ReadAllStep(first, Concat(more) + suffix);
      ReadConcat(more, suffix);
      Assoc([first], more, ReadAll(suffix).0);
      assert frames == [first] + more;
    }
  }

  /** Everything read is an accepted frame, and together with what is left it accounts for the stream. */
  lemma {:induction false} ReadAllFrames(bytes: seq<u8>)
    ensures AllFrames(ReadAll(bytes).0) && IsPrefix(Concat(ReadAll(bytes).0), bytes)
    decreases |bytes|
  {
    var (first, rest) := Next(bytes);
    if first.Success? {
      NextIff(bytes, first.value);
      ReadAllFrames(rest);
      var later := ReadAll(rest).0;
      assert ([first.value] + later)[1..] == later;
      assert bytes[..|first.value + Concat(later)|] == first.value + Concat(later);
    }
  }

  /** However a stream of frames is cut short, the reader gets the whole frames before the cut and then the end. */
  lemma {:induction false} ReadTruncated(frames: seq<seq<u8>>, cut: nat)
    requires AllFrames(frames) && cut <= |Concat(frames)|
    ensures IsPrefix(ReadAll(Concat(frames)[..cut]).0, frames)
    ensures ReadAll(Concat(frames)[..cut]).1 == Io && ReadAll(Concat(frames)[..cut]).2 == []
    decreases |frames|
  {
    var bytes := Concat(frames)[..cut];
    if frames != [] {
      var first := frames[0];
      if cut < |first| {
        assert bytes == first[..cut];
        assert cut >= 4 ==> bytes[..4] == first[..4];
      } else {
        var rest := Concat(frames[1..])[..cut - |first|];
        assert bytes == first + rest;
        ReadStep(first, rest);
        ReadTruncated(frames[1..], cut - |first|);
      }
    }
  }
}
