/** The publisher in the form it runs: its stamped state, its two senders and
    their shared log and socket. */
module Publishing {
  import opened Wrappers
  import opened Messages
  import opened Codec
  import opened MasterLogs
  import opened Recovery

  /** What the environment decides for one publication. `garbage` is what the
      room for the header happens to hold before it is written. */
  datatype Weather = Weather(garbage: Bytes, logs: bool, sends: bool)

  datatype PublishError = ApplyFailed | EncodeFailed(codec: CodecError) | LogFailed(log: LogError) | SendFailed

  class StateWrapper<S> {
    var state: S
    var sequence: I64

    constructor WithSequence(init: S, sequence: I64)
      ensures state == init && this.sequence == sequence
    {
      state, this.sequence := init, sequence;
    }

    /** Returns the current sequence and increments it. */
    method Stamp() returns (id: I64)
      modifies this`sequence
      ensures id == old(sequence)
      ensures sequence == if old(sequence) < I64_MAX then old(sequence) + 1 else I64_MIN
    {
      id := sequence;
      sequence := NextId(sequence);
    }
  }

  class Socket {
    var sent: seq<Bytes>

    constructor ()
      ensures sent == []
    {
      sent := [];
    }

    method Send(frame: Bytes, ok: bool) returns (r: Result<nat, ()>)
      modifies this
      ensures r == if ok then Ok(|frame|) else Err(())
      ensures sent == if ok then old(sent) + [frame] else old(sent)
    {
      if !ok {
        return Err(());
      }
      sent := sent + [frame];
      r := Ok(|frame|);
    }
  }

  /** The log and the wire, as one publication leaves them. */
  datatype Published = Published(rows: Rows, sent: seq<Bytes>, result: Result<nat, PublishError>)

  /** What publishing does with what the buffer holds: nothing for a message that
      does not fit; otherwise the bytes past the header go to the log, and only
      once they are there the whole buffer to the wire. */
  function PublishFrom(wire: Protobuf, rows: Rows, sent: seq<Bytes>, message: RawMessage, buffer: Bytes, w: Weather): Published
    requires |w.garbage| == HEADER_SIZE
  {
    var (encoded, data) := EncodeInto(wire, buffer, w.garbage, message);
    if encoded.Err? then Published(rows, sent, Err(EncodeFailed(encoded.error)))
    else
      var (written, after) := Insert(rows, message.sequence, data[HEADER_SIZE..], w.logs);
      if written.Err? then Published(rows, sent, Err(LogFailed(written.error)))
      else if !w.sends then Published(after, sent, Err(SendFailed))
      else Published(after, sent + [data], Ok(|data|))
  }

  /** What publishing leaves, said of the log and the wire: the message is logged
      exactly if it fits, the log answers and its id is new; it is sent only then,
      and what is logged is what is sent without its header. */
  lemma PublishedIff(wire: Protobuf, rows: Rows, sent: seq<Bytes>, message: RawMessage, w: Weather)
    ensures var p := PublishTo(wire, rows, sent, message, w);
            var body := wire.encode(message);
            var logged := |body| <= MAX_PAYLOAD_SIZE && w.logs && message.sequence !in rows;
            && p.rows == (if logged then rows[message.sequence := body] else rows)
            && p.sent == (if logged && w.sends then sent + [Frame(body)] else sent)
            && (p.result.Ok? <==> logged && w.sends)
            && (p.result.Ok? ==> p.result.value == HEADER_SIZE + |body|)
            && (p.result == Err(EncodeFailed(TooLarge(|body|))) <==> |body| > MAX_PAYLOAD_SIZE)
            && (p.result == Err(LogFailed(Io)) <==> |body| <= MAX_PAYLOAD_SIZE && !w.logs)
            && (p.result == Err(LogFailed(Exists)) <==> |body| <= MAX_PAYLOAD_SIZE && w.logs && message.sequence in rows)
            && (p.result == Err(SendFailed) <==> logged && !w.sends)
  {
  }

  /** From any buffer: what is logged is what is sent without its first bytes, and
      nothing else changes; it works exactly if all of it fits, the log and the
      socket answer and the id is new. */
  lemma PublishedAnyBuffer(wire: Protobuf, rows: Rows, sent: seq<Bytes>, message: RawMessage, buffer: Bytes, w: Weather)
    requires |w.garbage| == HEADER_SIZE
    ensures var p := PublishFrom(wire, rows, sent, message, buffer, w);
            && (p.result.Ok? ==>
                  exists datagram :: |datagram| == HEADER_SIZE + |buffer| + |wire.encode(message)| == p.result.value
                                     && p.sent == sent + [datagram] && p.rows == rows[message.sequence := datagram[HEADER_SIZE..]])
            && (p.result.Ok? <==> |buffer| + |wire.encode(message)| <= 1397 && w.logs && w.sends && message.sequence !in rows)
            && (p.result.Err? ==> p.sent == sent)
            && (p.result.Err? && p.result.error != SendFailed ==> p.rows == rows)
            && (p.result.Ok? || p.result == Err(SendFailed) ==> message.sequence !in rows && message.sequence in p.rows)
  {
  }

  /** The same from the empty buffer every sender passes. */
  function PublishTo(wire: Protobuf, rows: Rows, sent: seq<Bytes>, message: RawMessage, w: Weather): Published {
    var body := wire.encode(message);
    if |body| > MAX_PAYLOAD_SIZE then Published(rows, sent, Err(EncodeFailed(TooLarge(|body|))))
    else
      var (written, after) := Insert(rows, message.sequence, body, w.logs);
      if written.Err? then Published(rows, sent, Err(LogFailed(written.error)))
      else if !w.sends then Published(after, sent, Err(SendFailed))
      else Published(after, sent + [Frame(body)], Ok(|Frame(body)|))
  }

  /** From an empty buffer the body goes to the log and its frame to the wire. */
  lemma PublishesBody(wire: Protobuf, rows: Rows, sent: seq<Bytes>, message: RawMessage, w: Weather)
    requires |w.garbage| == HEADER_SIZE
    ensures PublishFrom(wire, rows, sent, message, [], w) == PublishTo(wire, rows, sent, message, w)
  {
    EncodesOneFrame(wire, w.garbage, message);
  }

  method Publish(log: MasterLog, encoder: Encoder, socket: Socket, message: RawMessage, buffer: BytesMut, w: Weather)
    returns (r: Result<nat, PublishError>)
    requires |w.garbage| == HEADER_SIZE
    modifies log, socket, buffer
    ensures Published(log.rows, socket.sent, r)
            == PublishFrom(encoder.wire, old(log.rows), old(socket.sent), message, old(buffer.data), w)
    ensures log.timestamps == Timestamped(old(log.timestamps), old(log.rows), log.rows, message.sequence, message.timestamp)
  {
    var encoded := encoder.Encode(message, buffer, w.garbage);
    if encoded.Err? {
      return Err(EncodeFailed(encoded.error));
    }
    var written := log.WriteMessage(message.sequence, message.timestamp, buffer.data[HEADER_SIZE..], w.logs);
    if written.Err? {
      return Err(LogFailed(written.error));
    }
    var bytes := socket.Send(buffer.data, w.sends);
    if bytes.Err? {
      return Err(SendFailed);
    }
    r := Ok(bytes.value);
  }

  // ---- The three senders

  /** Stamps and applies a delta, and publishes it if it applied. */
  class PublisherContext<S, D> {
    const app: StateSync<S, D>
    const state: StateWrapper<S>
    const log: MasterLog
    const socket: Socket
    const encoder: Encoder

    constructor (app: StateSync<S, D>, state: StateWrapper<S>, log: MasterLog, socket: Socket, encoder: Encoder)
      ensures this.app == app && this.state == state && this.log == log && this.socket == socket && this.encoder == encoder
    {
      this.app, this.state, this.log, this.socket, this.encoder := app, state, log, socket, encoder;
    }

    /** The id is used up, and the state changed, even when an error is returned. */
    method ApplyDelta(delta: D, timestamp: I64, w: Weather) returns (r: Result<I64, PublishError>)
      requires |w.garbage| == HEADER_SIZE
      modifies state, log, socket
      ensures old(state.sequence) < I64_MAX ==> state.sequence == old(state.sequence) + 1
      ensures old(state.sequence) == I64_MAX ==> state.sequence == I64_MIN
      ensures state.state == app.apply(old(state.state), delta).state
      ensures log.timestamps == Timestamped(old(log.timestamps), old(log.rows), log.rows, old(state.sequence), timestamp)
      ensures !app.apply(old(state.state), delta).ok ==>
                r == Err(ApplyFailed) && log.rows == old(log.rows) && socket.sent == old(socket.sent)
      ensures app.apply(old(state.state), delta).ok ==>
                var message := RawMessage(timestamp, old(state.sequence), Some(Delta(app.encode(delta))));
                var p := PublishTo(encoder.wire, old(log.rows), old(socket.sent), message, w);
                && log.rows == p.rows && socket.sent == p.sent
                && r == if p.result.Ok? then Ok(old(state.sequence)) else Err(p.result.error)
    {
      var sequence := state.Stamp();
      var body := app.encode(delta);
      var applied := app.apply(state.state, delta);
      state.state := applied.state;
      if !applied.ok {
        return Err(ApplyFailed);
      }
      var message := RawMessage(timestamp, sequence, Some(Delta(body)));
      var buffer := new BytesMut();
      PublishesBody(encoder.wire, log.rows, socket.sent, message, w);
      var bytes := Publish(log, encoder, socket, message, buffer, w);
      r := if bytes.Ok? then Ok(sequence) else Err(bytes.error);
    }
  }

  /** The second sender; it shares the counter, the log and the socket, and goes on after a failure. */
  class HeartBeatLoop<S> {
    const state: StateWrapper<S>
    const log: MasterLog
    const socket: Socket
    const encoder: Encoder

    constructor (state: StateWrapper<S>, log: MasterLog, socket: Socket, encoder: Encoder)
      ensures this.state == state && this.log == log && this.socket == socket && this.encoder == encoder
    {
      this.state, this.log, this.socket, this.encoder := state, log, socket, encoder;
    }

    method HeartBeat(timestamp: I64, w: Weather)
      requires |w.garbage| == HEADER_SIZE
      modifies state`sequence, log, socket
      ensures old(state.sequence) < I64_MAX ==> state.sequence == old(state.sequence) + 1
      ensures old(state.sequence) == I64_MAX ==> state.sequence == I64_MIN
      ensures var message := RawMessage(timestamp, old(state.sequence), Some(Heartbeat));
              var p := PublishTo(encoder.wire, old(log.rows), old(socket.sent), message, w);
              log.rows == p.rows && socket.sent == p.sent
      ensures log.timestamps == Timestamped(old(log.timestamps), old(log.rows), log.rows, old(state.sequence), timestamp)
    {
      var sequence := state.Stamp();
      var message := RawMessage(timestamp, sequence, Some(Heartbeat));
      var buffer := new BytesMut();
      PublishesBody(encoder.wire, log.rows, socket.sent, message, w);
      var _ := Publish(log, encoder, socket, message, buffer, w);
    }
  }

  /** What a started publisher leaves running. */
  datatype Running<S, D> = Running(context: PublisherContext<S, D>, heartbeat: HeartBeatLoop<S>, recovery: PublisherRecovery)

  /** The id is beyond every logged one, and zero or right after a logged one. */
  ghost predicate Follows(rows: Rows, id: int) {
    && (forall x | x in rows :: x < id)
    && if rows == map[] then id == 0 else id - 1 in rows
  }

  /** The id a publisher begins with: the one after the last logged one. */
  function FirstId(rows: Rows): (first: I64)
    requires forall id | id in rows :: I64_MIN <= id <= I64_MAX
    ensures I64_MAX !in rows ==> Follows(rows, first)
    ensures I64_MAX in rows ==> first == I64_MIN
  {
    if NextSequence(rows) > I64_MAX then I64_MIN else NextSequence(rows)
  }

  /** Starts from the end of the log: a default state, the id after the last
      logged one, and a first message announcing the start. Both senders then
      share one state, and they and the recovery server one log. */
  method Start<S, D>(app: StateSync<S, D>, log: MasterLog, socket: Socket, encoder: Encoder, timestamp: I64, io: bool, w: Weather)
    returns (r: Result<Running<S, D>, PublishError>)
    requires forall id | id in log.rows :: I64_MIN <= id <= I64_MAX
    requires |w.garbage| == HEADER_SIZE
    modifies log, socket
    ensures !io ==> r == Err(LogFailed(Io)) && log.rows == old(log.rows) && log.timestamps == old(log.timestamps) && socket.sent == old(socket.sent)
    ensures io ==>
              var base := FirstId(old(log.rows));
              var p := PublishTo(encoder.wire, old(log.rows), old(socket.sent), RawMessage(timestamp, base, Some(Started)), w);
              && log.rows == p.rows && socket.sent == p.sent
              && log.timestamps == Timestamped(old(log.timestamps), old(log.rows), log.rows, base, timestamp)
              && (r.Ok? <==> p.result.Ok?)
              && (r.Err? ==> r.error == p.result.error)
              && (I64_MAX !in old(log.rows) ==> Follows(old(log.rows), base))
              && (r.Ok? ==>
                    var state := r.value.context.state;
                    && fresh(state) && state.state == app.init
                    && state.sequence == if base < I64_MAX then base + 1 else I64_MIN)
    ensures r.Ok? ==>
              var Running(context, heartbeat, recovery) := r.value;
              && context.app == app
              && context.state == heartbeat.state
              && context.log == heartbeat.log == recovery.log == log
              && context.socket == heartbeat.socket == socket
              && context.encoder.wire == heartbeat.encoder.wire == recovery.wire == encoder.wire
  {
    var next := log.GetNextSequence(io);
    if next.Err? {
      return Err(LogFailed(next.error));
    }
    var base := FirstId(log.rows);
    var state := new StateWrapper<S>.WithSequence(app.init, base);
    var recovery := new PublisherRecovery(log, encoder.wire);
    var sequence := state.Stamp();
    var message := RawMessage(timestamp, sequence, Some(Started));
    var buffer := new BytesMut();
    PublishesBody(encoder.wire, log.rows, socket.sent, message, w);
    var bytes := Publish(log, encoder, socket, message, buffer, w);
    if bytes.Err? {
      return Err(bytes.error);
    }
    var beats := new Encoder(encoder.wire);
    var heartbeat := new HeartBeatLoop<S>(state, log, socket, beats);
    var deltas := new Encoder(encoder.wire);
    var context := new PublisherContext<S, D>(app, state, log, socket, deltas);
    r := Ok(Running(context, heartbeat, recovery));
  }
}
