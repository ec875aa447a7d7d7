/** The envelope that travels from the publisher to its subscribers, and the
    application it carries deltas for. */
module Messages {
  import opened Wrappers

  const I64_MIN: int := -0x8000_0000_0000_0000
  const I64_MAX: int := 0x7FFF_FFFF_FFFF_FFFF

  type I64 = x: int | I64_MIN <= x <= I64_MAX witness 0

  /** The id after this one; the counter wraps around, as release builds do. */
  function NextId(id: I64): (next: I64)
    ensures id < I64_MAX ==> next == id + 1
    ensures id == I64_MAX ==> next == I64_MIN
  {
    if id == I64_MAX then I64_MIN else id + 1
  }

  type Byte = x: int | 0 <= x < 256 witness 0
  type Bytes = seq<Byte>

  datatype Payload = Heartbeat | Started | Delta(body: Bytes)

  datatype RawMessage = RawMessage(timestamp: I64, sequence: I64, payload: Option<Payload>)

  datatype Origin = Sync | Udp | Missing

  /** A message as the subscriber sees it: when it arrived and over which path. */
  datatype ReceivedMessage = ReceivedMessage(recvTs: int, origin: Origin, raw: RawMessage) {
    function Id(): I64 {
      raw.sequence
    }
  }

  /** The protobuf coding of the envelope. `residue` is what a failed decode
      leaves unread in its buffer. */
  datatype Protobuf = Protobuf(encode: RawMessage -> Bytes,
                               decode: Bytes -> Option<RawMessage>,
                               residue: Bytes -> Bytes) {
    ghost predicate RoundTrips() {
      forall m :: decode(encode(m)) == Some(m)
    }
  }

  /** What applying a delta does: the delta works in place, so even a failed
      one may have changed the state. */
  datatype Applied<+S> = Applied(state: S, ok: bool)

  /** The synchronised application: its initial state, its deltas and their coding. */
  datatype StateSync<!S, !D> = StateSync(init: S,
                                         apply: (S, D) -> Applied<S>,
                                         encode: D -> Bytes,
                                         decode: Bytes -> Option<D>)

  ghost predicate DeltasRoundTrip<S, D(!new)>(app: StateSync<S, D>) {
    forall d :: app.decode(app.encode(d)) == Some(d)
  }
}
