/** The wire framing: a compression flag, a 16-bit length and the body. */
module Codec {
  import opened Wrappers
  import opened Messages

  const MTU: nat := 1500
  const HEADER_SIZE: nat := 3
  const MAX_PAYLOAD_SIZE: nat := MTU - HEADER_SIZE - 100

  datatype CodecError = TooLarge(len: nat) | Compressed(flag: Byte) | BadBody

  /** The cast of a length to 16 bits. */
  function Truncated(len: nat): nat {
    len % 0x1_0000
  }

  function Header(len: nat): Bytes {
    [0, Truncated(len) / 0x100, Truncated(len) % 0x100]
  }

  function HeaderLength(header: Bytes): nat
    requires |header| >= HEADER_SIZE
  {
    (header[1] as int) * 0x100 + header[2] as int
  }

  /** A frame as it is on the wire: no compression, the length with its high byte
      first, and the body. */
  function Frame(body: Bytes): (frame: Bytes)
    ensures |frame| == 3 + |body| && frame[3..] == body
    ensures frame[0] == 0
    ensures |body| < 0x1_0000 ==> (frame[1] as int) * 0x100 + frame[2] as int == |body|
  {
    Header(|body|) + body
  }

  /** A buffer that the codec reads from and writes to in place. */
  class BytesMut {
    var data: Bytes

    constructor ()
      ensures data == []
    {
      data := [];
    }
  }

  class Encoder {
    const wire: Protobuf

    constructor (wire: Protobuf)
      ensures this.wire == wire
    {
      this.wire := wire;
    }

    /** Appends a frame: room for the header, then the body, then the header
        written over the start of the buffer. `garbage` is what the room for the
        header happens to hold. */
    method Encode(item: RawMessage, dst: BytesMut, garbage: Bytes) returns (r: Result<(), CodecError>)
      requires |garbage| == HEADER_SIZE
      modifies dst
      ensures (r, dst.data) == EncodeInto(wire, old(dst.data), garbage, item)
    {
      dst.data := dst.data + garbage;
      dst.data := dst.data + wire.encode(item);
      var len := |dst.data| - HEADER_SIZE;
      if len > MAX_PAYLOAD_SIZE {
        return Err(TooLarge(len));
      }
      dst.data := Header(len) + dst.data[HEADER_SIZE..];
      r := Ok(());
    }
  }

  function EncodeInto(wire: Protobuf, dst: Bytes, garbage: Bytes, item: RawMessage): (Result<(), CodecError>, Bytes)
    requires |garbage| == HEADER_SIZE
  {
    var filled := dst + garbage + wire.encode(item);
    var len := |filled| - HEADER_SIZE;
    if len > MAX_PAYLOAD_SIZE then (Err(TooLarge(len)), filled)
    else (Ok(()), Header(len) + filled[HEADER_SIZE..])
  }

  datatype DecoderState = ReadHeader | ReadBody(len: nat)

  datatype Position = Position(state: DecoderState, src: Bytes)

  type Reading = Result<Option<RawMessage>, CodecError>

  class Decoder {
    const wire: Protobuf
    var state: DecoderState

    constructor (wire: Protobuf)
      ensures this.wire == wire && state == ReadHeader
    {
      this.wire := wire;
      state := ReadHeader;
    }

    /** Reads one message, or nothing if the buffer does not hold all of it yet. */
    method Decode(src: BytesMut) returns (r: Reading)
      modifies this, src
      ensures (Position(state, src.data), r) == DecodeFrom(wire, Position(old(state), old(src.data)))
    {
      if state.ReadHeader? {
        if |src.data| < HEADER_SIZE {
          return Ok(None);
        }
        var flag := src.data[0];
        src.data := src.data[1..];
        if flag != 0 {
          return Err(Compressed(flag));
        }
        var len := (src.data[0] as int) * 0x100 + src.data[1] as int;
        src.data := src.data[2..];
        state := ReadBody(len);
      }
      if |src.data| < state.len {
        return Ok(None);
      }
      var item := wire.decode(src.data);
      if item.None? {
        src.data := wire.residue(src.data);
        return Err(BadBody);
      }
      src.data := [];
      state := ReadHeader;
      r := Ok(item);
    }
  }

  function DecodeFrom(wire: Protobuf, p: Position): (Position, Reading) {
    match p.state
    case ReadBody(len) => DecodeBody(wire, len, p.src)
    case ReadHeader =>
      if |p.src| < HEADER_SIZE then (p, Ok(None))
      else if p.src[0] != 0 then (Position(ReadHeader, p.src[1..]), Err(Compressed(p.src[0])))
      else DecodeBody(wire, HeaderLength(p.src), p.src[HEADER_SIZE..])
  }

  /** The body is whatever the buffer holds, once it holds at least `len` bytes. */
  function DecodeBody(wire: Protobuf, len: nat, src: Bytes): (Position, Reading) {
    if |src| < len then (Position(ReadBody(len), src), Ok(None))
    else match wire.decode(src)
      case None => (Position(ReadBody(len), wire.residue(src)), Err(BadBody))
      case Some(msg) => (Position(ReadHeader, []), Ok(Some(msg)))
  }

  /** Feeds chunks into one buffer, reading after each. */
  function Feed(wire: Protobuf, p: Position, chunks: seq<Bytes>): (Position, seq<Reading>)
    decreases chunks
  {
    if chunks == [] then (p, [])
    else
      var (q, r) := DecodeFrom(wire, p.(src := p.src + chunks[0]));
      var (final, rest) := Feed(wire, q, chunks[1..]);
      (final, [r] + rest)
  }

  /** Reads datagrams, each in a buffer of its own. */
  function ReadDatagrams(wire: Protobuf, state: DecoderState, datagrams: seq<Bytes>): (DecoderState, seq<Reading>)
    decreases datagrams
  {
    if datagrams == [] then (state, [])
    else
      var (q, r) := DecodeFrom(wire, Position(state, datagrams[0]));
      var (final, rest) := ReadDatagrams(wire, q.state, datagrams[1..]);
      (final, [r] + rest)
  }

  function Joined(chunks: seq<Bytes>): Bytes {
    if chunks == [] then [] else chunks[0] + Joined(chunks[1..])
  }

  /** The messages read, when nothing failed. */
  function Delivered(rs: seq<Reading>): seq<RawMessage>
    requires forall r | r in rs :: r.Ok?
  {
    if rs == [] then []
    else (if rs[0].value.Some? then [rs[0].value.value] else []) + Delivered(rs[1..])
  }

  // ---- The laws

  /** A length that fits a payload survives the 16-bit header. */
  lemma HeaderHoldsLength(len: nat, rest: Bytes)
    requires len <= MAX_PAYLOAD_SIZE
    ensures Truncated(len) == len
    ensures HeaderLength(Header(len) + rest) == len
  {
  }

  /** Into an empty buffer, encoding writes exactly the frame of a message whose
      body fits, whose bytes past the header are the body; a larger message is
      refused. */
  lemma EncodesOneFrame(wire: Protobuf, garbage: Bytes, item: RawMessage)
    requires |garbage| == HEADER_SIZE
    ensures var (r, data) := EncodeInto(wire, [], garbage, item);
            var body := wire.encode(item);
            && (|body| <= MAX_PAYLOAD_SIZE ==> r == Ok(()) && data == Frame(body) && data[HEADER_SIZE..] == body)
            && (|body| > MAX_PAYLOAD_SIZE ==> r == Err(TooLarge(|body|)))
  {
    assert [] + garbage + wire.encode(item) == garbage + wire.encode(item);
  }

  /** Whatever the buffer holds, encoding is refused exactly if more than 1397 bytes
      would follow the header; otherwise the header written over the buffer's
      start gives their number. */
  lemma EncodeRefusesIff(wire: Protobuf, dst: Bytes, garbage: Bytes, item: RawMessage)
    requires |garbage| == HEADER_SIZE
    ensures var (r, data) := EncodeInto(wire, dst, garbage, item);
            var filled, len := dst + garbage + wire.encode(item), |dst| + |wire.encode(item)|;
            && |data| == 3 + len && data[3..] == filled[3..]
            && (r == Err(TooLarge(len)) <==> len > 1397)
            && (r == Ok(()) <==> len <= 1397)
            && (if r.Ok? then data[0] == 0 && (data[1] as int) * 0x100 + data[2] as int == len else data == filled)
  {
  }

  // ---- One read

  /** The length and the bytes of the body a read has begun, once its header is there. */
  function Awaited(p: Position): Option<(nat, Bytes)> {
    match p.state
    case ReadBody(len) => Some((len, p.src))
    case ReadHeader =>
      if |p.src| >= 3 && p.src[0] == 0 then Some(((p.src[1] as int) * 0x100 + p.src[2] as int, p.src[3..])) else None
  }

  /** A read returns a message, nothing, or one of the two errors, each in exactly
      these cases. */
  lemma DecodeReturnsIff(wire: Protobuf, p: Position)
    ensures var (q, r) := DecodeFrom(wire, p);
            var whole := Awaited(p).Some? && |Awaited(p).value.1| >= Awaited(p).value.0;
            && (forall flag :: r == Err(Compressed(flag)) <==> p.state == ReadHeader && |p.src| >= 3 && p.src[0] == flag != 0)
            && (r == Err(BadBody) <==> whole && wire.decode(Awaited(p).value.1) == None)
            && (forall msg :: r == Ok(Some(msg)) <==> whole && wire.decode(Awaited(p).value.1) == Some(msg))
            && (r == Ok(None) <==> if Awaited(p).Some? then !whole else |p.src| < 3)
  {
  }

  /** What a read leaves: after a message nothing, at rest; while bytes are missing
      all of the body so far; after a bad flag everything behind it; after a bad
      body what the body's decoder left, still inside the body. */
  lemma DecodeLeaves(wire: Protobuf, p: Position)
    ensures var (q, r) := DecodeFrom(wire, p);
            && (r.Ok? && r.value.Some? ==> q == Position(ReadHeader, []))
            && (r == Ok(None) ==>
                  if Awaited(p).Some? then q == Position(ReadBody(Awaited(p).value.0), Awaited(p).value.1) else q == p)
            && (r.Err? && r.error.Compressed? ==> q == Position(ReadHeader, p.src[1..]))
            && (r == Err(BadBody) ==> q == Position(ReadBody(Awaited(p).value.0), wire.residue(Awaited(p).value.1)))
  {
  }

  /** Whenever encoding succeeds it has written the message's frame exactly when
      the buffer it was given was empty. */
  lemma EncodesFrameIffEmpty(wire: Protobuf, dst: Bytes, garbage: Bytes, item: RawMessage)
    requires |garbage| == HEADER_SIZE
    requires EncodeInto(wire, dst, garbage, item).0.Ok?
    ensures EncodeInto(wire, dst, garbage, item).1 == Frame(wire.encode(item)) <==> dst == []
  {
    EncodesOneFrame(wire, garbage, item);
    assert |EncodeInto(wire, dst, garbage, item).1| == |dst| + |Frame(wire.encode(item))|;
  }

  /** Where the decoder is after a proper prefix of the frame. */
  function Within(body: Bytes, read: nat): Position
    requires read < HEADER_SIZE + |body|
  {
    var prefix := Frame(body)[..read];
    if read < HEADER_SIZE then Position(ReadHeader, prefix)
    else Position(ReadBody(|body|), prefix[HEADER_SIZE..])
  }

  lemma FeedsPrefix(wire: Protobuf, body: Bytes, read: nat, chunk: Bytes)
    requires |body| <= MAX_PAYLOAD_SIZE
    requires read + |chunk| < HEADER_SIZE + |body|
    requires Frame(body)[..read] + chunk == Frame(body)[..read + |chunk|]
    ensures var p := Within(body, read);
            DecodeFrom(wire, p.(src := p.src + chunk)) == (Within(body, read + |chunk|), Ok(None))
  {
    var prefix, longer := Frame(body)[..read], Frame(body)[..read + |chunk|];
    HeaderHoldsLength(|body|, longer);
    if read >= HEADER_SIZE {
      assert prefix[HEADER_SIZE..] + chunk == (prefix + chunk)[HEADER_SIZE..];
    } else if |longer| >= HEADER_SIZE {
      assert longer[0] == Frame(body)[0] && longer[1] == Frame(body)[1] && longer[2] == Frame(body)[2];
    }
  }

  lemma FeedsLast(wire: Protobuf, m: RawMessage, read: nat, chunk: Bytes)
    requires wire.RoundTrips()
    requires var body := wire.encode(m);
             && |body| <= MAX_PAYLOAD_SIZE
             && read < HEADER_SIZE + |body|
             && Frame(body)[..read] + chunk == Frame(body)
    ensures var p := Within(wire.encode(m), read);
            DecodeFrom(wire, p.(src := p.src + chunk)) == (Position(ReadHeader, []), Ok(Some(m)))
  {
    var body := wire.encode(m);
    var prefix := Frame(body)[..read];
    HeaderHoldsLength(|body|, body);
    assert Frame(body)[HEADER_SIZE..] == body;
    if read >= HEADER_SIZE {
      assert prefix[HEADER_SIZE..] + chunk == (prefix + chunk)[HEADER_SIZE..];
    }
  }

  lemma {:induction false} FeedsNothing(wire: Protobuf, chunks: seq<Bytes>)
    requires Joined(chunks) == []
    ensures var (p, rs) := Feed(wire, Position(ReadHeader, []), chunks);
            && p == Position(ReadHeader, [])
            && (forall r | r in rs :: r == Ok(None))
            && Delivered(rs) == []
  {
    if chunks != [] {
      assert chunks[0] == [];
      FeedsNothing(wire, chunks[1..]);
    }
  }

  /** Chunks that stop short of the end of the frame yield nothing. */
  lemma {:induction false} ProperPrefixYieldsNothing(wire: Protobuf, body: Bytes, read: nat, chunks: seq<Bytes>)
    requires |body| <= MAX_PAYLOAD_SIZE
    requires read + |Joined(chunks)| < HEADER_SIZE + |body|
    requires Frame(body)[..read] + Joined(chunks) == Frame(body)[..read + |Joined(chunks)|]
    ensures var (p, rs) := Feed(wire, Within(body, read), chunks);
            && p == Within(body, read + |Joined(chunks)|)
            && |rs| == |chunks| && forall r | r in rs :: r == Ok(None)
    decreases chunks
  {
    if chunks != [] {
      var c, rest := chunks[0], Joined(chunks[1..]);
      PrefixSplit(Frame(body), read, c, rest);
      FeedsPrefix(wire, body, read, c);
      ProperPrefixYieldsNothing(wire, body, read + |c|, chunks[1..]);
    }
  }

  lemma PrefixSplit(s: Bytes, read: nat, a: Bytes, b: Bytes)
    requires read + |a| + |b| <= |s|
    requires s[..read] + (a + b) == s[..read + |a + b|]
    ensures s[..read] + a == s[..read + |a|]
    ensures s[..read + |a|] + b == s[..read + |a| + |b|]
  {
    var t := s[..read] + (a + b);
    assert t[..read + |a|] == s[..read] + a;
    assert t[..read + |a|] == s[..read + |a|];
    assert t == s[..read] + a + b;
  }

  /** Round trip: the frame of a message, cut into any chunks, yields that
      message exactly once and leaves the decoder as it started. */
  lemma {:induction false} AnyChunkingRoundTrips(wire: Protobuf, m: RawMessage, read: nat, chunks: seq<Bytes>)
    requires wire.RoundTrips()
    requires |wire.encode(m)| <= MAX_PAYLOAD_SIZE
    requires read < HEADER_SIZE + |wire.encode(m)|
    requires Frame(wire.encode(m))[..read] + Joined(chunks) == Frame(wire.encode(m))
    ensures var (p, rs) := Feed(wire, Within(wire.encode(m), read), chunks);
            && p == Position(ReadHeader, [])
            && (forall r | r in rs :: r.Ok?)
            && Delivered(rs) == [m]
    decreases chunks
  {
    var body := wire.encode(m);
    assert chunks != [];
    var c, rest := chunks[0], Joined(chunks[1..]);
    assert Frame(body) == Frame(body)[..read + |c + rest|];
    PrefixSplit(Frame(body), read, c, rest);
    if rest == [] {
      assert c + rest == c;
      FeedsLast(wire, m, read, c);
      FeedsNothing(wire, chunks[1..]);
    } else {
      FeedsPrefix(wire, body, read, c);
      AnyChunkingRoundTrips(wire, m, read + |c|, chunks[1..]);
    }
  }

  /** The same from a decoder at rest. */
  lemma FrameRoundTrips(wire: Protobuf, m: RawMessage, chunks: seq<Bytes>)
    requires wire.RoundTrips()
    requires |wire.encode(m)| <= MAX_PAYLOAD_SIZE
    requires Joined(chunks) == Frame(wire.encode(m))
    ensures var (p, rs) := Feed(wire, Position(ReadHeader, []), chunks);
            && p == Position(ReadHeader, [])
            && (forall r | r in rs :: r.Ok?)
            && Delivered(rs) == [m]
  {
    assert Frame(wire.encode(m))[..0] + Joined(chunks) == Joined(chunks);
    AnyChunkingRoundTrips(wire, m, 0, chunks);
  }

  /** A list of datagrams, one frame each, decodes to the list of messages. */
  lemma {:induction false} DatagramsRoundTrip(wire: Protobuf, msgs: seq<RawMessage>, datagrams: seq<Bytes>)
    requires wire.RoundTrips()
    requires |datagrams| == |msgs|
    requires forall i | 0 <= i < |msgs| :: |wire.encode(msgs[i])| <= MAX_PAYLOAD_SIZE && datagrams[i] == Frame(wire.encode(msgs[i]))
    ensures var (state, rs) := ReadDatagrams(wire, ReadHeader, datagrams);
            && state == ReadHeader
            && (forall r | r in rs :: r.Ok?)
            && Delivered(rs) == msgs
    decreases msgs
  {
    if msgs != [] {
      FrameAndMore(wire, wire.encode(msgs[0]), []);
      DatagramsRoundTrip(wire, msgs[1..], datagrams[1..]);
    }
  }

  /** With `more` behind the frame in the same buffer, the decoder hands all of
      it to the body. */
  lemma FrameAndMore(wire: Protobuf, body: Bytes, more: Bytes)
    requires |body| <= MAX_PAYLOAD_SIZE
    ensures DecodeFrom(wire, Position(ReadHeader, Frame(body) + more)) == DecodeBody(wire, |body|, body + more)
    ensures more == [] ==> Frame(body) + more == Frame(body) && body + more == body
  {
    HeaderHoldsLength(|body|, body + more);
    assert Frame(body) + more == Header(|body|) + (body + more);
    assert (Frame(body) + more)[HEADER_SIZE..] == body + more;
    if more == [] {
      assert Frame(body) + more == Frame(body) && body + more == body;
    }
  }

  /** Reading one message and leaving the rest of the buffer for the next read
      works exactly when there is no rest. */
  lemma LeavesRestIffNone(wire: Protobuf, m: RawMessage, more: Bytes)
    requires wire.RoundTrips()
    requires |wire.encode(m)| <= MAX_PAYLOAD_SIZE
    ensures DecodeFrom(wire, Position(ReadHeader, Frame(wire.encode(m)) + more)) == (Position(ReadHeader, more), Ok(Some(m)))
            <==> more == []
  {
    FrameAndMore(wire, wire.encode(m), more);
  }
}
