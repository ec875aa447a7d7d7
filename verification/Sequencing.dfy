/** The sequencer as a state machine over values: which message it hands out
    next, given what the network, the recovery service and the clock answer.
    `MessageSequencer.dfy` runs it in place. */
module Sequencing {
  import opened Wrappers
  import opened Messages
  import opened MinMaxHeaps

  // ---- What the environment answers

  /** One item of a batch recovery stream: a message, or a transport or decoding error. */
  datatype StreamItem = Item(msg: RawMessage) | Broken

  datatype UdpPoll = Packet(msg: RawMessage) | Undecodable | Closed | Elapsed
  datatype SingleReply = Got(msg: RawMessage) | Refused
  datatype BatchReply = Opened(items: seq<StreamItem>) | Unavailable

  /** The readings made when a call enters, before it starts to listen. */
  datatype Entry = Entry(clock: int, recvTs: int)

  /** What one iteration of the listening loop would see: its clock reading, and
      the answer to each wait it could make; it makes at most one of them.
      `slot` places a buffered message among those with an equal id. */
  datatype Round = Round(clock: int, recvTs: int, slot: nat, udp: UdpPoll, single: SingleReply, batch: BatchReply)

  // ---- What the sequencer hands out

  datatype StreamMessage<+D> = Delta(delta: D) | Started | Heartbeat

  datatype SequencerError = InvalidSequence | EmptyStream | StreamFailed | RpcFailed | UdpFailed | MissingPayload | BadDelta

  datatype Outcome<+D> =
    | Message(sendTs: I64, recvTs: int, origin: Origin, msg: StreamMessage<D>)
    | Disconnected
    | Failed(error: SequencerError)

  datatype Config<!D> = Config(timeout: nat, decode: Bytes -> Option<D>)

  datatype View = View(want: int,
                       heap: seq<ReceivedMessage>,
                       recovery: Option<seq<StreamItem>>,
                       connected: bool,
                       deadline: int)

  /** The effect of one step: the new state, what the call returns (nothing while
      it goes on listening) and the message whose id the step used up. */
  datatype Turn<+D> = Turn(view: View, outcome: Option<Outcome<D>>, consumed: Option<ReceivedMessage>)

  function Fresh(start: int, clock: int): View {
    View(start, [], None, false, clock)
  }

  /** Turns an envelope into what the application sees. */
  function Parse<D>(cfg: Config<D>, m: ReceivedMessage): Outcome<D> {
    match m.raw.payload
    case None => Failed(MissingPayload)
    case Some(Heartbeat) => Message(m.raw.timestamp, m.recvTs, m.origin, StreamMessage.Heartbeat)
    case Some(Started) => Message(m.raw.timestamp, m.recvTs, m.origin, StreamMessage.Started)
    case Some(Delta(body)) =>
      match cfg.decode(body)
      case None => Failed(BadDelta)
      case Some(delta) => Message(m.raw.timestamp, m.recvTs, m.origin, StreamMessage.Delta(delta))
  }

  /** The id is used up before the payload is parsed. */
  function Deliver<D>(cfg: Config<D>, v: View, clock: int, m: ReceivedMessage): Turn<D> {
    Turn(v.(want := v.want + 1, deadline := clock + cfg.timeout), Some(Parse(cfg, m)), Some(m))
  }

  function Return<D>(v: View, o: Outcome<D>): Turn<D> {
    Turn(v, Some(o), None)
  }

  function Continue<D>(v: View): Turn<D> {
    Turn(v, None, None)
  }

  /** The heap without the messages whose ids are already used up. */
  function DropStale(h: seq<ReceivedMessage>, want: int): seq<ReceivedMessage> {
    if h != [] && h[0].Id() < want then DropStale(h[1..], want) else h
  }

  /** The part of a call before it listens: the recovery stream, then the heap. */
  function Enter<D>(cfg: Config<D>, v: View, e: Entry): Turn<D> {
    if v.recovery.Some? && v.recovery.value != [] then
      EnterRecovery(cfg, v.(recovery := Some(v.recovery.value[1..])), e, v.recovery.value[0])
    else
      EnterHeap(cfg, v.(recovery := None), e)
  }

  function EnterRecovery<D>(cfg: Config<D>, v: View, e: Entry, item: StreamItem): Turn<D> {
    match item
    case Broken => Return(v, Failed(StreamFailed))
    case Item(msg) =>
      if msg.sequence != v.want then
        Return(v, Failed(InvalidSequence))
      else
        Deliver(cfg, v, e.clock, ReceivedMessage(e.recvTs, Sync, msg))
  }

  function EnterHeap<D>(cfg: Config<D>, v: View, e: Entry): Turn<D> {
    var h := DropStale(v.heap, v.want);
    if h != [] && h[0].Id() == v.want then
      Deliver(cfg, v.(heap := h[1..]), e.clock, h[0])
    else
      Continue(v.(heap := h, deadline := if v.connected then v.deadline else e.clock + cfg.timeout))
  }

  /** Only the wanted message is missing below the largest buffered one. */
  predicate SingleMissing(v: View)
    requires v.heap != []
  {
    v.want + 1 == v.heap[0].Id() && Gapless(v.heap)
  }

  /** One iteration of the listening loop. */
  function Listen<D>(cfg: Config<D>, v: View, r: Round): Turn<D> {
    if r.clock > v.deadline then
      if v.heap == [] then Return(v.(connected := false), Disconnected)
      else if SingleMissing(v) then RecoverOne(cfg, v, r)
      else RecoverBatch(cfg, v, r)
    else
      match r.udp
      case Elapsed => Continue(v)
      case Undecodable => Return(v, Failed(UdpFailed))
      case Closed => Return(v, Disconnected)
      case Packet(msg) => Hear(cfg, v.(connected := true), r, ReceivedMessage(r.recvTs, Udp, msg))
  }

  function RecoverOne<D>(cfg: Config<D>, v: View, r: Round): Turn<D> {
    match r.single
    case Refused => Return(v, Failed(RpcFailed))
    case Got(msg) =>
      if msg.sequence != v.want then
        Return(v, Failed(InvalidSequence))
      else
        Deliver(cfg, v, r.clock, ReceivedMessage(r.recvTs, Missing, msg))
  }

  function RecoverBatch<D>(cfg: Config<D>, v: View, r: Round): Turn<D> {
    match r.batch
    case Unavailable => Return(v, Failed(RpcFailed))
    case Opened(items) =>
      if items == [] then Return(v, Failed(EmptyStream))
      else match items[0]
        case Broken => Return(v, Failed(StreamFailed))
        case Item(msg) =>
          if msg.sequence != v.want then
            Return(v, Failed(InvalidSequence))
          else
            Deliver(cfg, v.(recovery := Some(items[1..])), r.clock, ReceivedMessage(r.recvTs, Sync, msg))
  }

  function Hear<D>(cfg: Config<D>, v: View, r: Round, m: ReceivedMessage): Turn<D> {
    if m.Id() < v.want then Continue(v)
    else if m.Id() == v.want then Deliver(cfg, v, r.clock, m)
    else Continue(v.(heap := Insert(v.heap, m, r.slot)))
  }

  // ---- A whole call, and whole runs

  /** The listening loop on a finite tape of rounds; no outcome means the call is
      still waiting when the tape ends. */
  function Loop<D>(cfg: Config<D>, v: View, rounds: seq<Round>): Turn<D>
    decreases rounds
  {
    if rounds == [] then Continue(v)
    else
      var t := Listen(cfg, v, rounds[0]);
      if t.outcome.Some? then t else Loop(cfg, t.view, rounds[1..])
  }

  function Next<D>(cfg: Config<D>, v: View, e: Entry, rounds: seq<Round>): Turn<D> {
    var t := Enter(cfg, v, e);
    if t.outcome.Some? then t else Loop(cfg, t.view, rounds)
  }

  /** A sequencer between two steps: either no call is active, or one is listening. */
  datatype Machine = Machine(view: View, listening: bool)

  datatype Step = Call(entry: Entry) | Wait(round: Round)

  /** A step that does not fit the phase changes nothing. */
  function Fire<D>(cfg: Config<D>, mc: Machine, s: Step): Turn<D> {
    match s
    case Call(e) => if mc.listening then Continue(mc.view) else Enter(cfg, mc.view, e)
    case Wait(r) => if mc.listening then Listen(cfg, mc.view, r) else Continue(mc.view)
  }

  function After<D>(mc: Machine, s: Step, t: Turn<D>): Machine {
    if s.Call? == mc.listening then mc else Machine(t.view, t.outcome.None?)
  }

  datatype Trace<+D> = Trace(final: Machine, consumed: seq<ReceivedMessage>, outcomes: seq<Outcome<D>>)

  function Listed<T>(o: Option<T>): seq<T> {
    if o.Some? then [o.value] else []
  }

  /** A trace and what follows it. */
  function Joined<D>(first: Trace<D>, second: Trace<D>): Trace<D> {
    Trace(second.final, first.consumed + second.consumed, first.outcomes + second.outcomes)
  }

  /** The trace of one step. */
  function FireTrace<D>(cfg: Config<D>, mc: Machine, s: Step): Trace<D> {
    var t := Fire(cfg, mc, s);
    Trace(After(mc, s, t), Listed(t.consumed), Listed(t.outcome))
  }

  /** A run over any sequence of steps: the messages consumed and the results returned, in order. */
  function Exec<D>(cfg: Config<D>, mc: Machine, steps: seq<Step>): Trace<D>
    decreases steps
  {
    if steps == [] then Trace(mc, [], [])
    else
      var first := FireTrace(cfg, mc, steps[0]);
      Joined(first, Exec(cfg, first.final, steps[1..]))
  }
}
