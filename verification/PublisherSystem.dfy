/** The publisher as a transition system: its two senders stamp under the lock
    but encode, log and send outside it, so their steps interleave; it may crash
    at any point and start again from its log. */
module PublisherSystem {
  import opened Wrappers
  import opened Messages
  import opened Codec
  import opened MasterLogs

  datatype Sender = Main | Beat

  /** How far a sender is with the message it has stamped. */
  datatype Task =
    | Idle
    | Stamped(msg: RawMessage)
    | Encoded(msg: RawMessage, frame: Bytes)
    | Written(msg: RawMessage, frame: Bytes)

  /** What an id was stamped for. */
  datatype Stamp<+D> = Announce | Pulse | Change(delta: D)

  datatype Status = Down | Starting | Up

  /** `history[k]` is the state after the first `k` stamps of the current
      incarnation, `stamps[k]` what the k-th was for, `burned` the ids of this
      incarnation that were given up. */
  datatype Publisher<+S, +D> = Publisher(status: Status,
                                         base: int,
                                         history: seq<S>,
                                         stamps: seq<Stamp<D>>,
                                         burned: set<int>,
                                         main: Task,
                                         beat: Task,
                                         rows: Rows,
                                         sent: seq<Bytes>) {
    function Counter(): int {
      base + |stamps|
    }

    function At(who: Sender): Task {
      if who.Main? then main else beat
    }

    function Put(who: Sender, t: Task): Publisher<S, D> {
      if who.Main? then this.(main := t) else this.(beat := t)
    }
  }

  datatype Action<+D> =
    | Boot
    | StampStarted(timestamp: I64)
    | StampDelta(delta: D, timestamp: I64)
    | StampHeartbeat(timestamp: I64)
    | Encode(who: Sender)
    | Write(who: Sender, ok: bool)
    | Send(who: Sender, ok: bool)
    | Crash

  function Initial<S, D>(app: StateSync<S, D>): Publisher<S, D> {
    Publisher(Down, 0, [app.init], [], {}, Idle, Idle, map[], [])
  }

  // ---- The steps

  /** The id of a message that is stamped and not yet logged. */
  function InFlight(t: Task): set<int> {
    match t
    case Stamped(msg) => {msg.sequence as int}
    case Encoded(msg, _) => {msg.sequence as int}
    case _ => {}
  }

  /** The process ends: what it had in flight is given up. */
  function Halt<S, D>(p: Publisher<S, D>): Publisher<S, D> {
    p.(status := Down, main := Idle, beat := Idle, burned := p.burned + InFlight(p.main) + InFlight(p.beat))
  }

  /** A sender gives up on its message; a failure to announce the start ends the process. */
  function GiveUp<S, D>(p: Publisher<S, D>, who: Sender): Publisher<S, D> {
    if p.status.Starting? then Halt(p)
    else p.Put(who, Idle).(burned := p.burned + InFlight(p.At(who)))
  }

  function Record<S, D>(p: Publisher<S, D>, state: S, what: Stamp<D>): Publisher<S, D> {
    p.(history := p.history + [state], stamps := p.stamps + [what])
  }

  /** The counter still has room; past it, incrementing overflows. */
  predicate CanStamp<S, D>(p: Publisher<S, D>) {
    I64_MIN <= p.Counter() < I64_MAX && p.history != []
  }

  function DoBoot<S, D>(app: StateSync<S, D>, p: Publisher<S, D>): Publisher<S, D> {
    if p.status.Down? && I64_MIN <= NextSequence(p.rows) < I64_MAX then
      Publisher(Starting, NextSequence(p.rows), [app.init], [], {}, Idle, Idle, p.rows, p.sent)
    else p
  }

  function DoStampStarted<S, D>(p: Publisher<S, D>, timestamp: I64): Publisher<S, D> {
    if p.status.Starting? && p.stamps == [] && p.main.Idle? && CanStamp(p) then
      Record(p, p.history[|p.history| - 1], Announce).(main := Stamped(RawMessage(timestamp, p.Counter(), Some(Started))))
    else p
  }

  function DoStampHeartbeat<S, D>(p: Publisher<S, D>, timestamp: I64): Publisher<S, D> {
    if p.status.Up? && p.beat.Idle? && CanStamp(p) then
      Record(p, p.history[|p.history| - 1], Pulse).(beat := Stamped(RawMessage(timestamp, p.Counter(), Some(Heartbeat))))
    else p
  }

  /** Stamping comes first, so an id is used up even if the delta does not apply. */
  function DoStampDelta<S, D>(app: StateSync<S, D>, p: Publisher<S, D>, delta: D, timestamp: I64): Publisher<S, D> {
    if p.status.Up? && p.main.Idle? && CanStamp(p) then
      var r := app.apply(p.history[|p.history| - 1], delta);
      var q := Record(p, r.state, Change(delta));
      if r.ok then q.(main := Stamped(RawMessage(timestamp, p.Counter(), Some(Delta(app.encode(delta))))))
      else q.(burned := p.burned + {p.Counter()})
    else p
  }

  function DoEncode<S, D>(wire: Protobuf, p: Publisher<S, D>, who: Sender): Publisher<S, D> {
    match p.At(who)
    case Stamped(msg) =>
      var body := wire.encode(msg);
      if |body| > MAX_PAYLOAD_SIZE then GiveUp(p, who) else p.Put(who, Encoded(msg, Frame(body)))
    case _ => p
  }

  function DoWrite<S, D>(p: Publisher<S, D>, who: Sender, ok: bool): Publisher<S, D> {
    match p.At(who)
    case Encoded(msg, frame) =>
      if |frame| < HEADER_SIZE then p
      else
        var (r, rows) := Insert(p.rows, msg.sequence, frame[HEADER_SIZE..], ok);
        if r.Err? then GiveUp(p, who) else p.Put(who, Written(msg, frame)).(rows := rows)
    case _ => p
  }

  function DoSend<S, D>(p: Publisher<S, D>, who: Sender, ok: bool): Publisher<S, D> {
    match p.At(who)
    case Written(msg, frame) =>
      if !ok then GiveUp(p, who)
      else p.Put(who, Idle).(sent := p.sent + [frame], status := if p.status.Starting? then Up else p.status)
    case _ => p
  }

  /** One step; a step that is not enabled changes nothing. */
  function Do<S, D>(app: StateSync<S, D>, wire: Protobuf, p: Publisher<S, D>, a: Action<D>): Publisher<S, D> {
    match a
    case Boot => DoBoot(app, p)
    case StampStarted(timestamp) => DoStampStarted(p, timestamp)
    case StampDelta(delta, timestamp) => DoStampDelta(app, p, delta, timestamp)
    case StampHeartbeat(timestamp) => DoStampHeartbeat(p, timestamp)
    case Encode(who) => DoEncode(wire, p, who)
    case Write(who, ok) => DoWrite(p, who, ok)
    case Send(who, ok) => DoSend(p, who, ok)
    case Crash => if p.status.Down? then p else Halt(p)
  }

  function Run<S, D>(app: StateSync<S, D>, wire: Protobuf, p: Publisher<S, D>, actions: seq<Action<D>>): Publisher<S, D>
    decreases actions
  {
    if actions == [] then p else Run(app, wire, Do(app, wire, p, actions[0]), actions[1..])
  }
}
