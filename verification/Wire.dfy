/**
 FedPro framing: big-endian integers, the 24-byte header, and the incremental frame decoder.
 */
module Wire {
  import opened Options
  import opened Sequences

  type Byte = x: int | 0 <= x < 0x100
  type U32 = x: int | 0 <= x < 0x1_0000_0000
  type I32 = x: int | -0x8000_0000 <= x < 0x8000_0000
  type U64 = x: int | 0 <= x < 0x1_0000_0000_0000_0000
  type Bytes = seq<Byte>

  const HEADER_SIZE := 24
  const MAX_PACKET_SIZE := 32 * 1024 * 1024

  // ---------------------------------------------------------------- integers

  function PutU32(x: U32): (b: Bytes)
    ensures |b| == 4
  {
    [x / 0x100_0000, x / 0x1_0000 % 0x100, x / 0x100 % 0x100, x % 0x100]
  }

  function GetU32(b: Bytes): U32
    requires |b| == 4
  {
    var b0: int, b1: int, b2: int := b[0], b[1], b[2];
    b0 * 0x100_0000 + b1 * 0x1_0000 + b2 * 0x100 + b[3]
  }

  lemma U32RoundTrip(x: U32)
    ensures GetU32(PutU32(x)) == x
  {
    assert x == x / 0x100 * 0x100 + x % 0x100;
    assert x / 0x100 == x / 0x1_0000 * 0x100 + x / 0x100 % 0x100;
    assert x / 0x1_0000 == x / 0x100_0000 * 0x100 + x / 0x1_0000 % 0x100;
  }

  lemma U32Reverse(b: Bytes)
    requires |b| == 4
    ensures PutU32(GetU32(b)) == b
  {
    var x: int, b0: int, b1: int, b2: int := GetU32(b), b[0], b[1], b[2];
    var x3: int := b0 * 0x1_0000 + b1 * 0x100 + b2;
    var x2: int := b0 * 0x100 + b1;
    assert x == x3 * 0x100 + b[3] && x / 0x100 == x3 && x % 0x100 == b[3];
    assert x3 == x2 * 0x100 + b2 && x3 / 0x100 == x2 && x3 % 0x100 == b2;
    assert x / 0x1_0000 == x2;
    assert x2 / 0x100 == b0 && x2 % 0x100 == b1;
    assert x / 0x100_0000 == b0;
  }

  /** Two's complement. */
  function PutI32(x: I32): (b: Bytes)
    ensures |b| == 4
  {
    PutU32(if x < 0 then x + 0x1_0000_0000 else x)
  }

  function GetI32(b: Bytes): I32
    requires |b| == 4
  {
    var x := GetU32(b);
    if x < 0x8000_0000 then x else x - 0x1_0000_0000
  }

  function PutU64(x: U64): (b: Bytes)
    ensures |b| == 8
  {
    PutU32(x / 0x1_0000_0000) + PutU32(x % 0x1_0000_0000)
  }

  function GetU64(b: Bytes): U64
    requires |b| == 8
  {
    GetU32(b[..4]) * 0x1_0000_0000 + GetU32(b[4..])
  }

  lemma I32RoundTrip(x: I32)
    ensures GetI32(PutI32(x)) == x
  {
    U32RoundTrip(if x < 0 then x + 0x1_0000_0000 else x);
  }

  lemma I32Reverse(b: Bytes)
    requires |b| == 4
    ensures PutI32(GetI32(b)) == b
  {
    U32Reverse(b);
  }

  lemma U64RoundTrip(x: U64)
    ensures GetU64(PutU64(x)) == x
  {
    var hi, lo := x / 0x1_0000_0000, x % 0x1_0000_0000;
    U32RoundTrip(hi);
    U32RoundTrip(lo);
    assert PutU64(x)[..4] == PutU32(hi) && PutU64(x)[4..] == PutU32(lo);
  }

  lemma U64Reverse(b: Bytes)
    requires |b| == 8
    ensures PutU64(GetU64(b)) == b
  {
    U32Reverse(b[..4]);
    U32Reverse(b[4..]);
    var hi, lo := GetU32(b[..4]), GetU32(b[4..]);
    assert GetU64(b) / 0x1_0000_0000 == hi && GetU64(b) % 0x1_0000_0000 == lo;
    assert b == b[..4] + b[4..];
  }

  // ---------------------------------------------------------------- the byte order

  /** The number that a string of bytes denotes, most significant byte first. */
  function BigEndian(b: Bytes): nat {
    if b == [] then 0 else BigEndian(b[..|b| - 1]) * 0x100 + b[|b| - 1]
  }

  function PowerOf256(n: nat): nat {
    if n == 0 then 1 else PowerOf256(n - 1) * 0x100
  }

  lemma {:induction false} BigEndianAppend(a: Bytes, b: Bytes)
    ensures BigEndian(a + b) == BigEndian(a) * PowerOf256(|b|) + BigEndian(b)
  {
    if b == [] {
      assert a + b == a;
    } else {
      var init, n := b[..|b| - 1], PowerOf256(|b| - 1);
      assert (a + b)[..|a + b| - 1] == a + init;
      BigEndianAppend(a, init);
      assert (BigEndian(a) * n + BigEndian(init)) * 0x100 == BigEndian(a) * (n * 0x100) + BigEndian(init) * 0x100;
    }
  }

  lemma FourBytes(b: Bytes)
    requires |b| == 4
    ensures var b0: int, b1: int, b2: int := b[0], b[1], b[2];
      BigEndian(b) == ((b0 * 0x100 + b1) * 0x100 + b2) * 0x100 + b[3]
  {
    var b0: int, b1: int, b2: int := b[0], b[1], b[2];
    assert b[..3][..2] == b[..2] && b[..2][..1] == b[..1] && b[..1][..0] == [];
    assert BigEndian(b[..1]) == b0;
    assert BigEndian(b[..2]) == b0 * 0x100 + b1;
    assert BigEndian(b[..3]) == (b0 * 0x100 + b1) * 0x100 + b2;
  }

  /** What is read is the big-endian value of the bytes, as two's complement where it is signed. */
  lemma GetBigEndian(b: Bytes)
    ensures |b| == 4 ==> GetU32(b) == BigEndian(b)
    ensures |b| == 4 ==> GetI32(b) == if BigEndian(b) < 0x8000_0000 then BigEndian(b) else BigEndian(b) - 0x1_0000_0000
    ensures |b| == 8 ==> GetU64(b) == BigEndian(b)
  {
    if |b| == 4 {
      FourBytes(b);
    } else if |b| == 8 {
      FourBytes(b[..4]);
      FourBytes(b[4..]);
      BigEndianAppend(b[..4], b[4..]);
      assert b == b[..4] + b[4..];
      assert PowerOf256(1) == 0x100 && PowerOf256(2) == 0x1_0000 && PowerOf256(3) == 0x100_0000;
      assert PowerOf256(4) == 0x1_0000_0000;
    }
  }

  // ---------------------------------------------------------------- headers

  datatype MessageType =
    | CtrlNewSession | CtrlNewSessionStatus | CtrlHeartbeat | CtrlHeartbeatResponse
    | CtrlTerminateSession | CtrlSessionTerminated
    | CtrlResumeRequest | CtrlResumeStatus
    | HlaCallRequest | HlaCallResponse | HlaCallbackRequest | HlaCallbackResponse

  function Code(m: MessageType): U32 {
    match m
    case CtrlNewSession => 1
    case CtrlNewSessionStatus => 2
    case CtrlHeartbeat => 3
    case CtrlHeartbeatResponse => 4
    case CtrlTerminateSession => 5
    case CtrlSessionTerminated => 6
    case CtrlResumeRequest => 10
    case CtrlResumeStatus => 11
    case HlaCallRequest => 20
    case HlaCallResponse => 21
    case HlaCallbackRequest => 22
    case HlaCallbackResponse => 23
  }

  function FromCode(x: U32): (r: Option<MessageType>)
    ensures r.Some? ==> Code(r.value) == x
    ensures r.None? ==> forall m :: Code(m) != x
  {
    match x
    case 1 => Some(CtrlNewSession)
    case 2 => Some(CtrlNewSessionStatus)
    case 3 => Some(CtrlHeartbeat)
    case 4 => Some(CtrlHeartbeatResponse)
    case 5 => Some(CtrlTerminateSession)
    case 6 => Some(CtrlSessionTerminated)
    case 10 => Some(CtrlResumeRequest)
    case 11 => Some(CtrlResumeStatus)
    case 20 => Some(HlaCallRequest)
    case 21 => Some(HlaCallResponse)
    case 22 => Some(HlaCallbackRequest)
    case 23 => Some(HlaCallbackResponse)
    case _ => None
  }

  datatype Header = Header(
    packetSize: U32,
    sequenceNumber: I32,
    sessionId: U64,
    lastReceived: I32,
    messageType: MessageType)

  datatype FrameError =
    | PacketTooSmall(size: U32)
    | PacketTooLarge(size: U32)
    | Truncated(needed: nat, had: nat)
    | UnknownMessageType(code: U32)

  datatype Decoded<T> = Ok(value: T) | Err(error: FrameError)

  function EncodeHeader(h: Header): (b: Bytes)
    ensures |b| == HEADER_SIZE
  {
    PutU32(h.packetSize) + PutI32(h.sequenceNumber) + PutU64(h.sessionId) +
    PutI32(h.lastReceived) + PutU32(Code(h.messageType))
  }

  function DecodeHeader(b: Bytes): Decoded<Header> {
    if |b| < HEADER_SIZE then Err(Truncated(HEADER_SIZE, |b|))
    else
      var size := GetU32(b[0..4]);
      if size < HEADER_SIZE then Err(PacketTooSmall(size))
      else
        var kind := FromCode(GetU32(b[20..24]));
        if kind.None? then Err(UnknownMessageType(GetU32(b[20..24])))
        else Ok(Header(size, GetI32(b[4..8]), GetU64(b[8..16]), GetI32(b[16..20]), kind.value))
  }

  lemma HeaderParts(h: Header)
    ensures var b := EncodeHeader(h);
      && b[0..4] == PutU32(h.packetSize)
      && b[4..8] == PutI32(h.sequenceNumber)
      && b[8..16] == PutU64(h.sessionId)
      && b[16..20] == PutI32(h.lastReceived)
      && b[20..24] == PutU32(Code(h.messageType))
  {
  }

  /** Decoding what was encoded gives the header back, unless its size cannot even hold itself. */
  lemma HeaderRoundTrip(h: Header)
    ensures DecodeHeader(EncodeHeader(h)) ==
      if h.packetSize < HEADER_SIZE then Err(PacketTooSmall(h.packetSize)) else Ok(h)
  {
    HeaderParts(h);
    U32RoundTrip(h.packetSize);
    I32RoundTrip(h.sequenceNumber);
    U64RoundTrip(h.sessionId);
    I32RoundTrip(h.lastReceived);
    U32RoundTrip(Code(h.messageType));
    CodesDiffer(h.messageType);
  }

  lemma CodesDiffer(m: MessageType)
    ensures FromCode(Code(m)) == Some(m)
  {
  }

  /** The numbers on the wire.  Control messages are exactly those below 20, and among the others a
      response has the number after its request. */
  lemma CodesOnTheWire(m: MessageType)
    ensures [Code(CtrlNewSession), Code(CtrlNewSessionStatus), Code(CtrlHeartbeat), Code(CtrlHeartbeatResponse),
             Code(CtrlTerminateSession), Code(CtrlSessionTerminated)] == [1, 2, 3, 4, 5, 6]
    ensures [Code(CtrlResumeRequest), Code(CtrlResumeStatus)] == [10, 11]
    ensures [Code(HlaCallRequest), Code(HlaCallResponse)] == [20, 21]
    ensures [Code(HlaCallbackRequest), Code(HlaCallbackResponse)] == [22, 23]
    ensures Code(m) >= 20 <==>
      m == HlaCallRequest || m == HlaCallResponse || m == HlaCallbackRequest || m == HlaCallbackResponse
  {
  }

  /** The header byte by byte: where each field lies, and the number its bytes denote. */
  lemma HeaderLayout(h: Header)
    ensures var b := EncodeHeader(h);
      && BigEndian(b[0..4]) == h.packetSize
      && BigEndian(b[4..8]) == (if h.sequenceNumber < 0 then h.sequenceNumber + 0x1_0000_0000 else h.sequenceNumber)
      && BigEndian(b[8..16]) == h.sessionId
      && BigEndian(b[16..20]) == (if h.lastReceived < 0 then h.lastReceived + 0x1_0000_0000 else h.lastReceived)
      && BigEndian(b[20..24]) == Code(h.messageType)
  {
    HeaderParts(h);
    PutBigEndian(h.packetSize);
    PutBigEndian(if h.sequenceNumber < 0 then h.sequenceNumber + 0x1_0000_0000 else h.sequenceNumber);
    U64RoundTrip(h.sessionId);
    GetBigEndian(PutU64(h.sessionId));
    PutBigEndian(if h.lastReceived < 0 then h.lastReceived + 0x1_0000_0000 else h.lastReceived);
    PutBigEndian(Code(h.messageType));
  }

  lemma PutBigEndian(x: U32)
    ensures BigEndian(PutU32(x)) == x
  {
    U32RoundTrip(x);
    GetBigEndian(PutU32(x));
  }

  /** And encoding what was decoded gives the bytes back. */
  lemma HeaderReverse(b: Bytes)
    requires |b| == HEADER_SIZE && DecodeHeader(b).Ok?
    ensures EncodeHeader(DecodeHeader(b).value) == b
  {
    U32Reverse(b[0..4]);
    I32Reverse(b[4..8]);
    U64Reverse(b[8..16]);
    I32Reverse(b[16..20]);
    U32Reverse(b[20..24]);
    assert b == b[0..4] + b[4..8] + b[8..16] + b[16..20] + b[20..24];
  }

  // ---------------------------------------------------------------- frames

  datatype Frame = Frame(header: Header, payload: Bytes)

  function EncodeFrame(f: Frame): Bytes {
    EncodeHeader(f.header) + f.payload
  }

  /** The header announces the frame's true size, within the limit. */
  predicate WellSized(f: Frame) {
    f.header.packetSize == HEADER_SIZE + |f.payload| <= MAX_PACKET_SIZE
  }

  datatype Attempt = NeedMore | Got(frame: Frame, rest: Bytes) | Bad(error: FrameError)

  /** One call of the decoder on the bytes buffered so far. */
  function Decode(src: Bytes): Attempt {
    if |src| < 4 then NeedMore
    else
      var size := GetU32(src[..4]);
      if size < HEADER_SIZE then Bad(PacketTooSmall(size))
      else if size > MAX_PACKET_SIZE then Bad(PacketTooLarge(size))
      else if |src| < size then NeedMore
      else
        var h := DecodeHeader(src[..HEADER_SIZE]);
        if h.Err? then Bad(h.error)
        else Got(Frame(h.value, src[HEADER_SIZE..size]), src[size..])
  }

  lemma DecodeEncoded(f: Frame, rest: Bytes)
    requires WellSized(f)
    ensures Decode(EncodeFrame(f) + rest) == Got(f, rest)
  {
    var src := EncodeFrame(f) + rest;
    HeaderParts(f.header);
    U32RoundTrip(f.header.packetSize);
    HeaderRoundTrip(f.header);
    assert src[..4] == EncodeHeader(f.header)[0..4];
    assert src[..HEADER_SIZE] == EncodeHeader(f.header);
    assert src[HEADER_SIZE..f.header.packetSize] == f.payload;
    assert src[f.header.packetSize..] == rest;
  }

  lemma EncodeDecoded(src: Bytes)
    requires Decode(src).Got?
    ensures WellSized(Decode(src).frame)
    ensures src == EncodeFrame(Decode(src).frame) + Decode(src).rest
  {
    var size := GetU32(src[..4]);
    var head := src[..HEADER_SIZE];
    HeaderReverse(head);
    assert head[0..4] == src[..4];
    assert src == head + src[HEADER_SIZE..size] + src[size..];
  }

  /** The decoder yields a frame exactly when the buffer starts with that frame's encoding. */
  lemma DecodeExact(src: Bytes, f: Frame, rest: Bytes)
    ensures Decode(src) == Got(f, rest) <==> WellSized(f) && src == EncodeFrame(f) + rest
  {
    if WellSized(f) && src == EncodeFrame(f) + rest {
      DecodeEncoded(f, rest);
    }
    if Decode(src) == Got(f, rest) {
      EncodeDecoded(src);
    }
  }

  /** Everything the decoder says short of a frame, by the big-endian number in the first four bytes:
      a size below 24 or above 32 MiB is an error at once, a size in range is waited for, and a packet
      that is complete is an error only for the number of its type. */
  lemma DecodeVerdicts(src: Bytes)
    ensures Decode(src).NeedMore? <==>
      |src| < 4 || (24 <= BigEndian(src[..4]) <= 0x200_0000 && |src| < BigEndian(src[..4]))
    ensures var d := Decode(src);
      d.Bad? && d.error.PacketTooSmall? <==> |src| >= 4 && BigEndian(src[..4]) < 24
    ensures var d := Decode(src);
      d.Bad? && d.error.PacketTooLarge? <==> |src| >= 4 && BigEndian(src[..4]) > 0x200_0000
    ensures var d := Decode(src); d.Bad? ==>
      match d.error
      case PacketTooSmall(n) => n == BigEndian(src[..4])
      case PacketTooLarge(n) => n == BigEndian(src[..4])
      case UnknownMessageType(n) => |src| >= 24 && n == BigEndian(src[20..24]) && forall m :: Code(m) != n
      case Truncated(_, _) => false
  {
    if |src| >= 4 {
      GetBigEndian(src[..4]);
      if 24 <= BigEndian(src[..4]) <= |src| {
        var head := src[..HEADER_SIZE];
        assert head[0..4] == src[..4] && head[20..24] == src[20..24];
        GetBigEndian(src[20..24]);
      }
    }
  }

  /** Bytes that arrive later change no verdict already reached. */
  lemma DecodeStable(src: Bytes, more: Bytes)
    ensures Decode(src).Got? ==> Decode(src + more) == Got(Decode(src).frame, Decode(src).rest + more)
    ensures Decode(src).Bad? ==> Decode(src + more) == Decode(src)
  {
    if |src| >= 4 {
      assert (src + more)[..4] == src[..4];
      var size := GetU32(src[..4]);
      if HEADER_SIZE <= size <= |src| {
        assert (src + more)[..HEADER_SIZE] == src[..HEADER_SIZE];
        assert (src + more)[HEADER_SIZE..size] == src[HEADER_SIZE..size];
        assert (src + more)[size..] == src[size..] + more;
      }
    }
  }

  // ---------------------------------------------------------------- streams

  /** Frames read, bytes still buffered, and the error that ended the stream, if any. */
  datatype Reader = Reader(frames: seq<Frame>, buffer: Bytes, error: Option<FrameError>)

  /** Decode as often as the buffer allows. */
  function Drain(src: Bytes): (r: Reader)
    ensures |r.buffer| <= |src|
    decreases |src|
  {
    match Decode(src)
    case NeedMore => Reader([], src, None)
    case Bad(e) => Reader([], [], Some(e))
    case Got(f, rest) =>
      var r := Drain(rest);
      r.(frames := [f] + r.frames)
  }

  /** A chunk of bytes arrives; after an error nothing is read any more. */
  function Feed(r: Reader, chunk: Bytes): Reader {
    if r.error.Some? then r
    else
      var d := Drain(r.buffer + chunk);
      Reader(r.frames + d.frames, d.buffer, d.error)
  }

  const START := Reader([], [], None)

  function FeedAll(chunks: seq<Bytes>): Reader {
    if chunks == [] then START else Feed(FeedAll(chunks[..|chunks| - 1]), chunks[|chunks| - 1])
  }

  function Join(chunks: seq<Bytes>): Bytes {
    if chunks == [] then [] else Join(chunks[..|chunks| - 1]) + chunks[|chunks| - 1]
  }

  lemma FeedOnTop(f: Frame, r: Reader, chunk: Bytes)
    ensures Feed(r.(frames := [f] + r.frames), chunk) ==
      Feed(r, chunk).(frames := [f] + Feed(r, chunk).frames)
  {
    var d := Drain(r.buffer + chunk);
    assert [f] + (r.frames + d.frames) == ([f] + r.frames) + d.frames;
  }

  lemma {:induction false} DrainInTwo(a: Bytes, b: Bytes)
    ensures Feed(Drain(a), b) == Drain(a + b)
    decreases |a|
  {
    DecodeStable(a, b);
    if Decode(a).Got? {
      DrainInTwo(Decode(a).rest, b);
      FeedOnTop(Decode(a).frame, Drain(Decode(a).rest), b);
    }
  }

  lemma DrainNothing()
    ensures Drain([]) == START
  {
  }

  /** However a byte stream is cut into chunks, the reader ends with the same frames, the same
      buffered bytes and the same error as if it had come whole. */
  lemma {:induction false} ChunkingDoesNotMatter(chunks: seq<Bytes>)
    ensures FeedAll(chunks) == Drain(Join(chunks))
  {
    if chunks == [] {
      DrainNothing();
    } else {
      var init, last := chunks[..|chunks| - 1], chunks[|chunks| - 1];
      ChunkingDoesNotMatter(init);
      DrainInTwo(Join(init), last);
    }
  }

  function EncodeAll(fs: seq<Frame>): Bytes {
    if fs == [] then [] else EncodeFrame(fs[0]) + EncodeAll(fs[1..])
  }

  lemma DrainEncoded(f: Frame, tail: Bytes)
    requires WellSized(f)
    ensures Drain(EncodeFrame(f) + tail) == Drain(tail).(frames := [f] + Drain(tail).frames)
  {
    DecodeEncoded(f, tail);
  }

  /** Decoding the encodings of any well-sized frames returns those frames, and whatever follows. */
  lemma {:induction false} StreamRoundTrip(fs: seq<Frame>, rest: Bytes, r: Reader)
    requires forall f :: f in fs ==> WellSized(f)
    requires r == Drain(rest)
    ensures Drain(EncodeAll(fs) + rest) == r.(frames := fs + r.frames)
  {
    if fs == [] {
      assert EncodeAll(fs) + rest == rest;
      assert fs + r.frames == r.frames;
    } else {
      var f, more := fs[0], EncodeAll(fs[1..]);
      StreamRoundTrip(fs[1..], rest, r);
      Regrouped(EncodeFrame(f), more, rest);
      DrainEncoded(f, more + rest);
      Regrouped([f], fs[1..], r.frames);
      assert [f] + fs[1..] == fs;
    }
  }

  /** Conversely, frames read without error re-encode to exactly the bytes consumed. */
  lemma {:induction false} StreamReverse(src: Bytes)
    requires Drain(src).error.None?
    ensures forall f :: f in Drain(src).frames ==> WellSized(f)
    ensures EncodeAll(Drain(src).frames) + Drain(src).buffer == src
    decreases |src|
  {
    if Decode(src).Got? {
      var f, rest := Decode(src).frame, Decode(src).rest;
      EncodeDecoded(src);
      StreamReverse(rest);
      var r := Drain(rest);
      assert Drain(src).frames == [f] + r.frames;
      assert ([f] + r.frames)[1..] == r.frames;
    } else {
      assert EncodeAll([]) + src == src;
    }
  }

  // ---------------------------------------------------------------- the codec, as it runs

  class Buffer {
    var data: Bytes

    constructor (data: Bytes)
      ensures this.data == data
    {
      this.data := data;
    }

    method SplitTo(n: nat) returns (front: Bytes)
      requires n <= |data|
      modifies this
      ensures front == old(data)[..n] && data == old(data)[n..]
    {
      front := data[..n];
      data := data[n..];
    }
  }

  /** `None` asks for more bytes.  A frame is cut off the front of the buffer, an undersized or
      oversized packet is not, and a packet with a bad header is. */
  method DecodeFrom(src: Buffer) returns (r: Decoded<Option<Frame>>)
    modifies src
    ensures match Decode(old(src.data))
      case NeedMore => r == Ok(None) && src.data == old(src.data)
      case Got(f, rest) => r == Ok(Some(f)) && src.data == rest
      case Bad(e) =>
        r == Err(e) &&
        src.data == (if e.UnknownMessageType? then old(src.data)[GetU32(old(src.data)[..4])..] else old(src.data))
  {
    if |src.data| < 4 {
      return Ok(None);
    }
    var size := GetU32(src.data[..4]);
    if size < HEADER_SIZE {
      return Err(PacketTooSmall(size));
    }
    if size > MAX_PACKET_SIZE {
      return Err(PacketTooLarge(size));
    }
    if |src.data| < size {
      return Ok(None);
    }
    var packet := src.SplitTo(size);
    assert packet[..HEADER_SIZE] == old(src.data)[..HEADER_SIZE];
    var header := DecodeHeader(packet[..HEADER_SIZE]);
    if header.Err? {
      return Err(header.error);
    }
    return Ok(Some(Frame(header.value, packet[HEADER_SIZE..])));
  }

  /** Whoever drains a buffer of whole frames gets those frames and then this one. */
  method EncodeInto(f: Frame, dst: Buffer)
    modifies dst
    ensures dst.data == old(dst.data) + EncodeFrame(f)
    ensures WellSized(f) && Drain(old(dst.data)).error.None? && Drain(old(dst.data)).buffer == [] ==>
      Drain(dst.data) == Reader(Drain(old(dst.data)).frames + [f], [], None)
  {
    dst.data := dst.data + EncodeHeader(f.header);
    dst.data := dst.data + f.payload;
    assert dst.data == old(dst.data) + EncodeFrame(f);
    DrainOneMore(old(dst.data), f);
  }

  lemma DrainOneMore(data: Bytes, f: Frame)
    ensures WellSized(f) && Drain(data).error.None? && Drain(data).buffer == [] ==>
      Drain(data + EncodeFrame(f)) == Reader(Drain(data).frames + [f], [], None)
  {
    if WellSized(f) {
      DrainFrame(f);
      DrainInTwo(data, EncodeFrame(f));
      FeedWhole(Drain(data), f, EncodeFrame(f));
    }
  }

  lemma DrainFrame(f: Frame)
    requires WellSized(f)
    ensures Drain(EncodeFrame(f)) == Reader([f], [], None)
  {
    DrainEncoded(f, []);
    DrainNothing();
    assert EncodeFrame(f) + [] == EncodeFrame(f);
  }

  lemma FeedWhole(r: Reader, f: Frame, bytes: Bytes)
    requires Drain(bytes) == Reader([f], [], None)
    ensures r.error.None? && r.buffer == [] ==> Feed(r, bytes) == Reader(r.frames + [f], [], None)
  {
    assert [] + bytes == bytes;
  }

  lemma NextFrame(data: Bytes, rest: Bytes, frames: seq<Frame>, f: Frame)
    requires Decode(data) == Got(f, rest)
    ensures var d, d' := Drain(data), Drain(rest);
      d.(frames := frames + d.frames) == d'.(frames := (frames + [f]) + d'.frames)
  {
    Regrouped(frames, [f], Drain(rest).frames);
  }

  /** Read frames until the buffer runs dry or the stream breaks. */
  method ReadFrames(src: Buffer) returns (frames: seq<Frame>, error: Option<FrameError>)
    modifies src
    ensures frames == Drain(old(src.data)).frames && error == Drain(old(src.data)).error
    ensures error.None? ==> src.data == Drain(old(src.data)).buffer
  {
    frames, error := [], None;
    ghost var whole := Drain(src.data);
    while true
      invariant whole == (var d := Drain(src.data); d.(frames := frames + d.frames))
      decreases |src.data|
    {
      ghost var before := src.data;
      var r := DecodeFrom(src);
      if r.Err? {
        error := Some(r.error);
        return;
      }
      if r.value.None? {
        return;
      }
      NextFrame(before, src.data, frames, r.value.value);
      frames := frames + [r.value.value];
    }
  }
}
