/** What the publisher keeps over every interleaving, failure, crash and restart. */
module PublisherSafety {
  import opened Wrappers
  import opened Messages
  import opened Codec
  import opened MasterLogs
  import opened PublisherSystem

  /** What a stamp does to the state it finds. */
  function Effect<S, D>(app: StateSync<S, D>, s: S, stamp: Stamp<D>): Applied<S> {
    match stamp
    case Change(delta) => app.apply(s, delta)
    case _ => Applied(s, true)
  }

  function PayloadOf<S, D>(app: StateSync<S, D>, stamp: Stamp<D>): Payload {
    match stamp
    case Announce => Started
    case Pulse => Heartbeat
    case Change(delta) => Delta(app.encode(delta))
  }

  /** The state after each stamp is the effect of the stamps so far, in id order. */
  ghost predicate HistoryFolds<S, D>(app: StateSync<S, D>, p: Publisher<S, D>) {
    && |p.history| == |p.stamps| + 1
    && p.history[0] == app.init
    && forall i | 0 <= i < |p.stamps| :: p.history[i + 1] == Effect(app, p.history[i], p.stamps[i]).state
  }

  /** The message carries what its id was stamped for, and that applied. */
  ghost predicate Carries<S, D>(app: StateSync<S, D>, p: Publisher<S, D>, msg: RawMessage)
    requires HistoryFolds(app, p)
  {
    && p.base <= msg.sequence < p.Counter()
    && var k := msg.sequence - p.base;
    && msg.payload == Some(PayloadOf(app, p.stamps[k]))
    && Effect(app, p.history[k], p.stamps[k]).ok
  }

  /** A log row decodes to a message with the row's id that subscribers can read. */
  ghost predicate Readable<S, D>(app: StateSync<S, D>, wire: Protobuf, id: int, body: Bytes) {
    && |body| <= MAX_PAYLOAD_SIZE
    && match wire.decode(body)
       case None => false
       case Some(msg) =>
         && msg.sequence == id
         && msg.payload.Some?
         && (msg.payload.value.Delta? ==> app.decode(msg.payload.value.body).Some?)
  }

  ghost predicate LogHolds<S, D>(app: StateSync<S, D>, wire: Protobuf, p: Publisher<S, D>)
    requires HistoryFolds(app, p)
  {
    && (forall id | id in p.rows :: id < p.Counter() && Readable(app, wire, id, p.rows[id]))
    && (forall id | id in p.rows && p.base <= id :: Carries(app, p, wire.decode(p.rows[id]).value))
  }

  ghost predicate TaskHolds<S, D>(app: StateSync<S, D>, wire: Protobuf, p: Publisher<S, D>, t: Task)
    requires HistoryFolds(app, p)
  {
    match t
    case Idle => true
    case Stamped(msg) => Carries(app, p, msg)
    case Encoded(msg, frame) =>
      Carries(app, p, msg) && |wire.encode(msg)| <= MAX_PAYLOAD_SIZE && frame == Frame(wire.encode(msg))
    case Written(msg, frame) =>
      msg.sequence in p.rows && frame == Frame(p.rows[msg.sequence])
  }

  /** How many of logged, in flight with either sender, and given up an id is. */
  ghost function Claims<S, D>(p: Publisher<S, D>, id: int): nat {
    (if id in p.rows then 1 else 0) + (if id in InFlight(p.main) then 1 else 0)
    + (if id in InFlight(p.beat) then 1 else 0) + (if id in p.burned then 1 else 0)
  }

  /** Every id stamped by the incarnation is exactly one of logged, in flight and
      given up; any other is at most logged, by an earlier incarnation. */
  ghost predicate Accounts<S, D>(p: Publisher<S, D>) {
    forall id :: Claims(p, id) == if p.base <= id < p.Counter() || id in p.rows then 1 else 0
  }

  /** Everything sent is the frame of a log row. */
  ghost predicate SentIsLogged<S, D>(p: Publisher<S, D>) {
    forall frame | frame in p.sent :: exists id :: id in p.rows && frame == Frame(p.rows[id])
  }

  ghost predicate Inv<S, D>(app: StateSync<S, D>, wire: Protobuf, p: Publisher<S, D>) {
    && HistoryFolds(app, p)
    && LogHolds(app, wire, p)
    && TaskHolds(app, wire, p, p.main)
    && TaskHolds(app, wire, p, p.beat)
    && Accounts(p)
    && SentIsLogged(p)
    && (p.status.Down? ==> p.main.Idle? && p.beat.Idle?)
  }

  ghost predicate Codes<S, D(!new)>(app: StateSync<S, D>, wire: Protobuf) {
    wire.RoundTrips() && DeltasRoundTrip(app)
  }

  lemma InitialInv<S, D(!new)>(app: StateSync<S, D>, wire: Protobuf)
    ensures Inv(app, wire, Initial(app))
  {
  }

  lemma HaltKeepsInv<S, D(!new)>(app: StateSync<S, D>, wire: Protobuf, p: Publisher<S, D>)
    requires Inv(app, wire, p)
    ensures Inv(app, wire, Halt(p))
  {
    SameRecord(app, wire, p, Halt(p));
    GiveUpAccounts(p, Main);
    GiveUpAccounts(p.(main := Idle, burned := p.burned + InFlight(p.main)), Beat);
  }

  /** What does not touch the stamps, the log and the wire keeps what is said of them. */
  lemma SameRecord<S, D(!new)>(app: StateSync<S, D>, wire: Protobuf, p: Publisher<S, D>, q: Publisher<S, D>)
    requires Inv(app, wire, p)
    requires q.base == p.base && q.history == p.history && q.stamps == p.stamps && q.rows == p.rows && q.sent == p.sent
    ensures HistoryFolds(app, q) && LogHolds(app, wire, q) && SentIsLogged(q)
    ensures forall t :: TaskHolds(app, wire, p, t) ==> TaskHolds(app, wire, q, t)
  {
  }

  lemma GiveUpAccounts<S, D(!new)>(p: Publisher<S, D>, who: Sender)
    requires Accounts(p)
    ensures Accounts(p.Put(who, Idle).(burned := p.burned + InFlight(p.At(who))))
  {
    var q := p.Put(who, Idle).(burned := p.burned + InFlight(p.At(who)));
    forall id
      ensures Claims(q, id) == Claims(p, id)
    {
      assert Claims(p, id) <= 1;
    }
  }

  lemma GiveUpKeepsInv<S, D(!new)>(app: StateSync<S, D>, wire: Protobuf, p: Publisher<S, D>, who: Sender)
    requires Inv(app, wire, p)
    ensures Inv(app, wire, GiveUp(p, who))
  {
    HaltKeepsInv(app, wire, p);
    GiveUpAccounts(p, who);
    SameRecord(app, wire, p, p.Put(who, Idle).(burned := p.burned + InFlight(p.At(who))));
  }

  lemma BootKeepsInv<S, D(!new)>(app: StateSync<S, D>, wire: Protobuf, p: Publisher<S, D>)
    requires Inv(app, wire, p)
    ensures Inv(app, wire, DoBoot(app, p))
  {
  }

  /** Recording one more stamp leaves what was stamped before alone. */
  lemma RecordKeeps<S, D(!new)>(app: StateSync<S, D>, wire: Protobuf, p: Publisher<S, D>, stamp: Stamp<D>)
    requires Inv(app, wire, p)
    ensures var q := Record(p, Effect(app, p.history[|p.history| - 1], stamp).state, stamp);
            && HistoryFolds(app, q) && LogHolds(app, wire, q)
            && TaskHolds(app, wire, q, p.main) && TaskHolds(app, wire, q, p.beat)
            && q.Counter() == p.Counter() + 1
            && q.history[|p.stamps|] == p.history[|p.stamps|]
  {
    var q := Record(p, Effect(app, p.history[|p.history| - 1], stamp).state, stamp);
    forall msg: RawMessage | Carries(app, p, msg)
      ensures Carries(app, q, msg)
    {
    }
  }

  lemma StampAccounts<S, D(!new)>(p: Publisher<S, D>, state: S, stamp: Stamp<D>, who: Sender, msg: RawMessage)
    requires Accounts(p) && p.Counter() !in p.rows && p.At(who).Idle? && msg.sequence == p.Counter()
    ensures Accounts(Record(p, state, stamp).Put(who, Stamped(msg)))
    ensures Accounts(Record(p, state, stamp).(burned := p.burned + {p.Counter()}))
  {
    var q := Record(p, state, stamp);
    var flying, burned := q.Put(who, Stamped(msg)), q.(burned := p.burned + {p.Counter()});
    forall id
      ensures Claims(flying, id) == Claims(burned, id) == Claims(p, id) + if id == p.Counter() then 1 else 0
    {
      assert Claims(p, p.Counter()) == 0;
    }
  }

  lemma StampKeepsInv<S, D(!new)>(app: StateSync<S, D>, wire: Protobuf, p: Publisher<S, D>, who: Sender, stamp: Stamp<D>, timestamp: I64)
    requires Inv(app, wire, p) && p.At(who).Idle? && !p.status.Down? && CanStamp(p)
    ensures var r := Effect(app, p.history[|p.history| - 1], stamp);
            var q := Record(p, r.state, stamp);
            && (r.ok ==> Inv(app, wire, q.Put(who, Stamped(RawMessage(timestamp, p.Counter(), Some(PayloadOf(app, stamp)))))))
            && (!r.ok ==> Inv(app, wire, q.(burned := p.burned + {p.Counter()})))
  {
    var r := Effect(app, p.history[|p.history| - 1], stamp);
    var q := Record(p, r.state, stamp);
    var msg := RawMessage(timestamp, p.Counter(), Some(PayloadOf(app, stamp)));
    RecordKeeps(app, wire, p, stamp);
    StampAccounts(p, r.state, stamp, who, msg);
    if r.ok {
      var flying := q.Put(who, Stamped(msg));
      SameStamps(app, wire, q, flying);
      assert Carries(app, flying, msg);
    } else {
      SameStamps(app, wire, q, q.(burned := p.burned + {p.Counter()}));
    }
  }

  lemma StampedStartKeepsInv<S, D(!new)>(app: StateSync<S, D>, wire: Protobuf, p: Publisher<S, D>, timestamp: I64)
    requires Inv(app, wire, p)
    ensures Inv(app, wire, DoStampStarted(p, timestamp))
  {
    if p.status.Starting? && p.stamps == [] && p.main.Idle? && CanStamp(p) {
      StampKeepsInv(app, wire, p, Main, Announce, timestamp);
    }
  }

  lemma StampedDeltaKeepsInv<S, D(!new)>(app: StateSync<S, D>, wire: Protobuf, p: Publisher<S, D>, delta: D, timestamp: I64)
    requires Inv(app, wire, p)
    ensures Inv(app, wire, DoStampDelta(app, p, delta, timestamp))
  {
    if p.status.Up? && p.main.Idle? && CanStamp(p) {
      StampKeepsInv(app, wire, p, Main, Change(delta), timestamp);
    }
  }

  lemma StampedHeartbeatKeepsInv<S, D(!new)>(app: StateSync<S, D>, wire: Protobuf, p: Publisher<S, D>, timestamp: I64)
    requires Inv(app, wire, p)
    ensures Inv(app, wire, DoStampHeartbeat(p, timestamp))
  {
    if p.status.Up? && p.beat.Idle? && CanStamp(p) {
      StampKeepsInv(app, wire, p, Beat, Pulse, timestamp);
    }
  }

  lemma SameStamps<S, D(!new)>(app: StateSync<S, D>, wire: Protobuf, p: Publisher<S, D>, q: Publisher<S, D>)
    requires HistoryFolds(app, p) && LogHolds(app, wire, p)
    requires q.base == p.base && q.history == p.history && q.stamps == p.stamps && q.rows == p.rows
    ensures HistoryFolds(app, q) && LogHolds(app, wire, q)
    ensures forall t :: TaskHolds(app, wire, p, t) ==> TaskHolds(app, wire, q, t)
  {
  }

  lemma EncodeKeepsInv<S, D(!new)>(app: StateSync<S, D>, wire: Protobuf, p: Publisher<S, D>, who: Sender)
    requires Inv(app, wire, p)
    ensures Inv(app, wire, DoEncode(wire, p, who))
  {
    GiveUpKeepsInv(app, wire, p, who);
    if p.At(who).Stamped? {
      var msg := p.At(who).msg;
      var q := p.Put(who, Encoded(msg, Frame(wire.encode(msg))));
      SameRecord(app, wire, p, q);
      forall id
        ensures Claims(q, id) == Claims(p, id)
      {
      }
    }
  }

  lemma RowAdded<S, D(!new)>(app: StateSync<S, D>, wire: Protobuf, p: Publisher<S, D>, msg: RawMessage)
    requires Inv(app, wire, p) && Codes(app, wire)
    requires Carries(app, p, msg) && |wire.encode(msg)| <= MAX_PAYLOAD_SIZE && msg.sequence !in p.rows
    ensures LogHolds(app, wire, p.(rows := p.rows[msg.sequence := wire.encode(msg)]))
  {
    var q := p.(rows := p.rows[msg.sequence := wire.encode(msg)]);
    assert wire.decode(wire.encode(msg)) == Some(msg);
    assert Readable(app, wire, msg.sequence, wire.encode(msg));
    forall id | id in q.rows && p.base <= id
      ensures Carries(app, q, wire.decode(q.rows[id]).value)
    {
      assert id != msg.sequence ==> Carries(app, p, wire.decode(p.rows[id]).value);
    }
  }

  lemma RowAddedKeepsSent<S, D>(p: Publisher<S, D>, id: int, body: Bytes)
    requires SentIsLogged(p) && id !in p.rows
    ensures SentIsLogged(p.(rows := p.rows[id := body]))
  {
    var q := p.(rows := p.rows[id := body]);
    forall frame | frame in q.sent
      ensures exists id :: id in q.rows && frame == Frame(q.rows[id])
    {
      var id :| id in p.rows && frame == Frame(p.rows[id]);
      assert id in q.rows && q.rows[id] == p.rows[id];
    }
  }

  lemma WriteAccounts<S, D(!new)>(p: Publisher<S, D>, who: Sender, msg: RawMessage, frame: Bytes, body: Bytes)
    requires Accounts(p) && p.At(who) == Encoded(msg, frame)
    ensures msg.sequence !in p.rows
    ensures Accounts(p.Put(who, Written(msg, frame)).(rows := p.rows[msg.sequence := body]))
  {
    var q := p.Put(who, Written(msg, frame)).(rows := p.rows[msg.sequence := body]);
    assert msg.sequence in InFlight(p.At(who));
    assert Claims(p, msg.sequence) == 1;
    forall id
      ensures Claims(q, id) == Claims(p, id)
    {
    }
  }

  /** The log may grow without disturbing a sender, unless it is the sender's own id. */
  lemma RowAddedKeepsTask<S, D(!new)>(app: StateSync<S, D>, wire: Protobuf, p: Publisher<S, D>, id: int, body: Bytes, t: Task)
    requires HistoryFolds(app, p) && TaskHolds(app, wire, p, t) && id !in p.rows
    ensures TaskHolds(app, wire, p.(rows := p.rows[id := body]), t)
  {
  }

  lemma RowWrittenKeepsInv<S, D(!new)>(app: StateSync<S, D>, wire: Protobuf, p: Publisher<S, D>, who: Sender, msg: RawMessage, frame: Bytes)
    requires Inv(app, wire, p) && Codes(app, wire) && p.At(who) == Encoded(msg, frame) && msg.sequence !in p.rows
    ensures Inv(app, wire, p.Put(who, Written(msg, frame)).(rows := p.rows[msg.sequence := wire.encode(msg)]))
  {
    var body := wire.encode(msg);
    var q := p.(rows := p.rows[msg.sequence := body]);
    WriteAccounts(p, who, msg, frame, body);
    RowAdded(app, wire, p, msg);
    RowAddedKeepsSent(p, msg.sequence, body);
    RowAddedKeepsTask(app, wire, p, msg.sequence, body, p.main);
    RowAddedKeepsTask(app, wire, p, msg.sequence, body, p.beat);
    SameStamps(app, wire, q, q.Put(who, Written(msg, frame)));
  }

  lemma WriteKeepsInv<S, D(!new)>(app: StateSync<S, D>, wire: Protobuf, p: Publisher<S, D>, who: Sender, ok: bool)
    requires Inv(app, wire, p) && Codes(app, wire)
    ensures Inv(app, wire, DoWrite(p, who, ok))
  {
    if p.At(who).Encoded? {
      var msg, frame := p.At(who).msg, p.At(who).frame;
      WriteAccounts(p, who, msg, frame, wire.encode(msg));
      assert frame[HEADER_SIZE..] == wire.encode(msg);
      if ok {
        RowWrittenKeepsInv(app, wire, p, who, msg, frame);
      } else {
        GiveUpKeepsInv(app, wire, p, who);
      }
    }
  }

  lemma SendAccounts<S, D(!new)>(p: Publisher<S, D>, q: Publisher<S, D>, who: Sender)
    requires Accounts(p) && p.At(who).Written?
    requires q.base == p.base && q.stamps == p.stamps && q.rows == p.rows && q.burned == p.burned
    requires q.main == p.Put(who, Idle).main && q.beat == p.Put(who, Idle).beat
    ensures Accounts(q)
  {
    forall id
      ensures Claims(q, id) == Claims(p, id)
    {
    }
  }

  lemma SentKeepsInv<S, D(!new)>(app: StateSync<S, D>, wire: Protobuf, p: Publisher<S, D>, who: Sender)
    requires Inv(app, wire, p) && p.At(who).Written?
    ensures Inv(app, wire, DoSend(p, who, true))
  {
    var q := DoSend(p, who, true);
    SameStamps(app, wire, p, q);
    SendAccounts(p, q, who);
    assert q.sent == p.sent + [p.At(who).frame];
  }

  lemma SendKeepsInv<S, D(!new)>(app: StateSync<S, D>, wire: Protobuf, p: Publisher<S, D>, who: Sender, ok: bool)
    requires Inv(app, wire, p)
    ensures Inv(app, wire, DoSend(p, who, ok))
  {
    if p.At(who).Written? {
      if ok {
        SentKeepsInv(app, wire, p, who);
      } else {
        GiveUpKeepsInv(app, wire, p, who);
      }
    }
  }

  lemma DoKeepsInv<S, D(!new)>(app: StateSync<S, D>, wire: Protobuf, p: Publisher<S, D>, a: Action<D>)
    requires Inv(app, wire, p) && Codes(app, wire)
    ensures Inv(app, wire, Do(app, wire, p, a))
  {
    match a
    case Boot => BootKeepsInv(app, wire, p);
    case StampStarted(timestamp) => StampedStartKeepsInv(app, wire, p, timestamp);
    case StampDelta(delta, timestamp) => StampedDeltaKeepsInv(app, wire, p, delta, timestamp);
    case StampHeartbeat(timestamp) => StampedHeartbeatKeepsInv(app, wire, p, timestamp);
    case Encode(who) => EncodeKeepsInv(app, wire, p, who);
    case Write(who, ok) => WriteKeepsInv(app, wire, p, who, ok);
    case Send(who, ok) => SendKeepsInv(app, wire, p, who, ok);
    case Crash => HaltKeepsInv(app, wire, p);
  }

  lemma {:induction false} RunKeepsInv<S, D(!new)>(app: StateSync<S, D>, wire: Protobuf, p: Publisher<S, D>, actions: seq<Action<D>>)
    requires Inv(app, wire, p) && Codes(app, wire)
    ensures Inv(app, wire, Run(app, wire, p, actions))
    decreases actions
  {
    if actions != [] {
      DoKeepsInv(app, wire, p, actions[0]);
      RunKeepsInv(app, wire, Do(app, wire, p, actions[0]), actions[1..]);
    }
  }

  // ---- Wire uniqueness

  /** What a subscriber's decoder, at rest, makes of one datagram. */
  function ReadDatagram(wire: Protobuf, datagram: Bytes): Reading {
    DecodeFrom(wire, Position(ReadHeader, datagram)).1
  }

  /** Everything sent is in the log, and reads as the logged message. */
  lemma SentReadsAsLogged<S, D(!new)>(app: StateSync<S, D>, wire: Protobuf, p: Publisher<S, D>, frame: Bytes) returns (id: int)
    requires Inv(app, wire, p) && frame in p.sent
    ensures id in p.rows && frame == Frame(p.rows[id])
    ensures wire.decode(p.rows[id]).Some? && wire.decode(p.rows[id]).value.sequence == id
    ensures DecodeFrom(wire, Position(ReadHeader, frame)) == (Position(ReadHeader, []), Ok(wire.decode(p.rows[id])))
  {
    id :| id in p.rows && frame == Frame(p.rows[id]);
    FrameAndMore(wire, p.rows[id], []);
  }

  /** Over every run, with concurrent heartbeats, failures, crashes and
      restarts: what is sent is logged under its id, and two datagrams with the
      same id are the same message. */
  lemma WireIdsAreUnique<S, D(!new)>(app: StateSync<S, D>, wire: Protobuf, actions: seq<Action<D>>, one: Bytes, other: Bytes)
    requires Codes(app, wire)
    requires var p := Run(app, wire, Initial(app), actions); one in p.sent && other in p.sent
    ensures var p := Run(app, wire, Initial(app), actions);
            && ReadDatagram(wire, one).Ok? && ReadDatagram(wire, one).value.Some?
            && ReadDatagram(wire, other).Ok? && ReadDatagram(wire, other).value.Some?
            && var m1, m2 := ReadDatagram(wire, one).value.value, ReadDatagram(wire, other).value.value;
            && m1.sequence in p.rows && one == Frame(p.rows[m1.sequence])
            && (m1.sequence == m2.sequence ==> m1 == m2 && one == other)
  {
    InitialInv(app, wire);
    RunKeepsInv(app, wire, Initial(app), actions);
    var p := Run(app, wire, Initial(app), actions);
    var id1 := SentReadsAsLogged(app, wire, p, one);
    var id2 := SentReadsAsLogged(app, wire, p, other);
  }

  lemma DoGrowsLog<S, D(!new)>(app: StateSync<S, D>, wire: Protobuf, p: Publisher<S, D>, a: Action<D>)
    ensures var q := Do(app, wire, p, a);
            forall id | id in p.rows :: id in q.rows && q.rows[id] == p.rows[id]
  {
  }

  /** A logged row is never changed or removed, by any later incarnation either. */
  lemma {:induction false} LogOnlyGrows<S, D(!new)>(app: StateSync<S, D>, wire: Protobuf, p: Publisher<S, D>, actions: seq<Action<D>>)
    ensures var q := Run(app, wire, p, actions);
            forall id | id in p.rows :: id in q.rows && q.rows[id] == p.rows[id]
    decreases actions
  {
    if actions != [] {
      var next := Do(app, wire, p, actions[0]);
      DoGrowsLog(app, wire, p, actions[0]);
      LogOnlyGrows(app, wire, next, actions[1..]);
    }
  }

  /** A restart continues after the last logged id, whatever was given up, and
      from the initial state. */
  lemma RestartContinuesIds<S, D(!new)>(app: StateSync<S, D>, wire: Protobuf, p: Publisher<S, D>)
    requires Inv(app, wire, p) && I64_MIN <= NextSequence(p.rows) < I64_MAX
    ensures var q := Do(app, wire, Do(app, wire, p, Crash), Boot);
            && q.status.Starting? && q.rows == p.rows && q.sent == p.sent
            && (forall id | id in q.rows :: id < q.base)
            && (q.base == 0 || q.base - 1 in q.rows)
            && q.Counter() == q.base
            && (q.rows != map[] ==> q.base <= p.Counter())
            && q.history == [app.init]
  {
    HaltKeepsInv(app, wire, p);
  }

  // ---- Id accounting

  /** Within an incarnation the ids from its base to the counter are the disjoint
      union of the logged, the in-flight and the given-up ones, and at most two
      are in flight. */
  lemma IdsAreAccountedFor<S, D(!new)>(app: StateSync<S, D>, wire: Protobuf, actions: seq<Action<D>>)
    requires Codes(app, wire)
    ensures var p := Run(app, wire, Initial(app), actions);
            var logged := set id | id in p.rows && p.base <= id;
            var flying := InFlight(p.main) + InFlight(p.beat);
            && (forall id :: id in logged + flying + p.burned <==> p.base <= id < p.Counter())
            && logged !! flying && logged !! p.burned && flying !! p.burned
            && |flying| <= 2
  {
    InitialInv(app, wire);
    RunKeepsInv(app, wire, Initial(app), actions);
    var p := Run(app, wire, Initial(app), actions);
    var logged := set id | id in p.rows && p.base <= id;
    var flying := InFlight(p.main) + InFlight(p.beat);
    forall id
      ensures id in logged + flying + p.burned <==> p.base <= id < p.Counter()
      ensures !(id in logged && id in flying) && !(id in logged && id in p.burned) && !(id in flying && id in p.burned)
    {
      assert Claims(p, id) == if p.base <= id < p.Counter() || id in p.rows then 1 else 0;
    }
    assert |InFlight(p.main)| <= 1 && |InFlight(p.beat)| <= 1;
    assert |flying| <= |InFlight(p.main)| + |InFlight(p.beat)|;
  }

  // ---- Effects in id order

  /** What a reader of the log does with a message. */
  function Replay<S, D>(app: StateSync<S, D>, s: S, msg: RawMessage): Applied<S> {
    if msg.payload.Some? && msg.payload.value.Delta? && app.decode(msg.payload.value.body).Some? then
      app.apply(s, app.decode(msg.payload.value.body).value)
    else
      Applied(s, true)
  }

  /** Replaying the row with id `base + k` from the publisher's state after `k`
      stamps succeeds and gives its state after `k + 1`, in whatever order the
      rows were written. */
  lemma RowReplaysStamp<S, D(!new)>(app: StateSync<S, D>, wire: Protobuf, p: Publisher<S, D>, id: int)
    requires Inv(app, wire, p) && Codes(app, wire) && id in p.rows && p.base <= id
    ensures wire.decode(p.rows[id]).Some? && wire.decode(p.rows[id]).value.sequence == id
    ensures p.base <= id < p.Counter()
    ensures Replay(app, p.history[id - p.base], wire.decode(p.rows[id]).value) == Applied(p.history[id - p.base + 1], true)
  {
    var msg := wire.decode(p.rows[id]).value;
    assert Readable(app, wire, id, p.rows[id]);
    assert Carries(app, p, msg);
    var stamp := p.stamps[id - p.base];
    if stamp.Change? {
      assert app.decode(app.encode(stamp.delta)) == Some(stamp.delta);
    }
  }

  /** The two senders' log writes can land out of id order: a heartbeat stamped
      after a delta may be logged while the delta is not. */
  lemma LogWritesMayOvertake<S, D(!new)>(app: StateSync<S, D>, wire: Protobuf, p: Publisher<S, D>, delta: D, timestamp: I64)
    requires Inv(app, wire, p)
    requires p.status.Up? && p.main.Idle? && p.beat.Idle? && I64_MIN <= p.Counter() && p.Counter() + 1 < I64_MAX
    requires app.apply(p.history[|p.history| - 1], delta).ok
    requires |wire.encode(RawMessage(timestamp, p.Counter() + 1, Some(Heartbeat)))| <= MAX_PAYLOAD_SIZE
    ensures var p1 := Do(app, wire, p, StampDelta(delta, timestamp));
            var p2 := Do(app, wire, p1, StampHeartbeat(timestamp));
            var p3 := Do(app, wire, p2, Encode(Beat));
            var p4 := Do(app, wire, p3, Write(Beat, true));
            p.Counter() !in p4.rows && p.Counter() + 1 in p4.rows
  {
    var p1 := Do(app, wire, p, StampDelta(delta, timestamp));
    var p2 := Do(app, wire, p1, StampHeartbeat(timestamp));
    var msg := RawMessage(timestamp, p.Counter() + 1, Some(Heartbeat));
    assert p2.rows == p.rows && p2.beat == Stamped(msg);
    var p3 := Do(app, wire, p2, Encode(Beat));
    assert p3.rows == p.rows && p3.beat == Encoded(msg, Frame(wire.encode(msg)));
    assert p.Counter() !in p.rows && p.Counter() + 1 !in p.rows;
  }

  // ---- When a step takes effect

  /** Each step changes the publisher in exactly these situations: it boots only
      when down, stamps a delta or a heartbeat only when up and with that sender
      idle, and takes a sender's message from stage to stage. */
  lemma TakesEffectIff<S, D>(app: StateSync<S, D>, wire: Protobuf, p: Publisher<S, D>, a: Action<D>)
    requires |p.history| == |p.stamps| + 1
    requires forall who | p.At(who).Encoded? :: |p.At(who).frame| >= HEADER_SIZE
    ensures var room := I64_MIN <= p.Counter() < I64_MAX;
            Do(app, wire, p, a) != p
            <==> match a
                 case Boot => p.status.Down? && I64_MIN <= NextSequence(p.rows) < I64_MAX
                 case StampStarted(_) => p.status.Starting? && p.stamps == [] && p.main.Idle? && room
                 case StampDelta(_, _) => p.status.Up? && p.main.Idle? && room
                 case StampHeartbeat(_) => p.status.Up? && p.beat.Idle? && room
                 case Encode(who) => p.At(who).Stamped?
                 case Write(who, _) => p.At(who).Encoded?
                 case Send(who, _) => p.At(who).Written?
                 case Crash => !p.status.Down?
  {
    match a
    case StampStarted(_) => StampsOneMore(app, wire, p, a);
    case StampDelta(_, _) => StampsOneMore(app, wire, p, a);
    case StampHeartbeat(_) => StampsOneMore(app, wire, p, a);
    case _ =>
  }

  /** A stamp that takes effect adds one to the history. */
  lemma StampsOneMore<S, D>(app: StateSync<S, D>, wire: Protobuf, p: Publisher<S, D>, a: Action<D>)
    requires a.StampStarted? || a.StampDelta? || a.StampHeartbeat?
    ensures var q := Do(app, wire, p, a); q != p ==> |q.stamps| == |p.stamps| + 1 && |q.history| == |p.history| + 1
    ensures a.StampStarted? && p.status.Starting? && p.stamps == [] && p.main.Idle? && CanStamp(p) ==> |Do(app, wire, p, a).stamps| == |p.stamps| + 1
    ensures a.StampDelta? && p.status.Up? && p.main.Idle? && CanStamp(p) ==> |Do(app, wire, p, a).stamps| == |p.stamps| + 1
    ensures a.StampHeartbeat? && p.status.Up? && p.beat.Idle? && CanStamp(p) ==> |Do(app, wire, p, a).stamps| == |p.stamps| + 1
  {
  }

  // ---- The announcement

  /** The first stamp of an incarnation is its announcement and no later one is;
      until that is sent nothing else is stamped, and a publisher that is up has
      logged and sent it. */
  ghost predicate Announced<S, D>(p: Publisher<S, D>) {
    && (p.stamps != [] ==> p.stamps[0].Announce?)
    && (forall i | 0 < i < |p.stamps| :: !p.stamps[i].Announce?)
    && (p.status.Starting? ==> p.beat.Idle? && |p.stamps| <= 1 && (p.stamps == [] ==> p.main.Idle?) && (p.stamps != [] ==> OnItsWay(p)))
    && (p.status.Up? ==> p.stamps != [] && p.base in p.rows && Frame(p.rows[p.base]) in p.sent)
  }

  /** The main sender is busy with the incarnation's first message. */
  ghost predicate OnItsWay<S, D>(p: Publisher<S, D>) {
    match p.main
    case Idle => false
    case Stamped(msg) => msg.sequence == p.base
    case Encoded(msg, _) => msg.sequence == p.base
    case Written(msg, frame) => msg.sequence == p.base && p.base in p.rows && frame == Frame(p.rows[p.base])
  }

  lemma EncodeKeepsAnnounced<S, D>(wire: Protobuf, p: Publisher<S, D>, who: Sender)
    requires Announced(p)
    ensures Announced(DoEncode(wire, p, who))
  {
  }

  lemma WriteKeepsAnnounced<S, D(!new)>(app: StateSync<S, D>, wire: Protobuf, p: Publisher<S, D>, who: Sender, ok: bool)
    requires Inv(app, wire, p) && Announced(p)
    ensures Announced(DoWrite(p, who, ok))
  {
    if p.At(who).Encoded? {
      var msg, frame := p.At(who).msg, p.At(who).frame;
      WriteAccounts(p, who, msg, frame, wire.encode(msg));
      assert frame[HEADER_SIZE..] == wire.encode(msg);
      WrittenKeepsAnnounced(p, who, msg, frame, wire.encode(msg), ok);
    }
  }

  lemma WrittenKeepsAnnounced<S, D>(p: Publisher<S, D>, who: Sender, msg: RawMessage, frame: Bytes, body: Bytes, ok: bool)
    requires Announced(p) && p.At(who) == Encoded(msg, frame)
    requires msg.sequence !in p.rows && frame == Frame(body)
    ensures Announced(DoWrite(p, who, ok))
  {
  }

  lemma SendKeepsAnnounced<S, D>(p: Publisher<S, D>, who: Sender, ok: bool)
    requires Announced(p)
    ensures Announced(DoSend(p, who, ok))
  {
    if p.At(who).Written? && ok {
      assert p.sent + [p.At(who).frame] == DoSend(p, who, ok).sent;
      assert p.At(who).frame in DoSend(p, who, ok).sent;
    }
  }

  lemma DoKeepsAnnounced<S, D(!new)>(app: StateSync<S, D>, wire: Protobuf, p: Publisher<S, D>, a: Action<D>)
    requires Inv(app, wire, p) && Announced(p)
    ensures Announced(Do(app, wire, p, a))
  {
    match a
    case Encode(who) => EncodeKeepsAnnounced(wire, p, who);
    case Write(who, ok) => WriteKeepsAnnounced(app, wire, p, who, ok);
    case Send(who, ok) => SendKeepsAnnounced(p, who, ok);
    case _ => StampKeepsAnnounced(app, wire, p, a);
  }

  lemma StampKeepsAnnounced<S, D>(app: StateSync<S, D>, wire: Protobuf, p: Publisher<S, D>, a: Action<D>)
    requires Announced(p) && !a.Encode? && !a.Write? && !a.Send?
    ensures Announced(Do(app, wire, p, a))
  {
  }

  lemma {:induction false} RunKeepsAnnounced<S, D(!new)>(app: StateSync<S, D>, wire: Protobuf, p: Publisher<S, D>, actions: seq<Action<D>>)
    requires Inv(app, wire, p) && Codes(app, wire) && Announced(p)
    ensures Announced(Run(app, wire, p, actions))
    decreases actions
  {
    if actions != [] {
      DoKeepsInv(app, wire, p, actions[0]);
      DoKeepsAnnounced(app, wire, p, actions[0]);
      RunKeepsAnnounced(app, wire, Do(app, wire, p, actions[0]), actions[1..]);
    }
  }

  /** Over every run: an incarnation begins with its announcement, stamps no second
      one, and is up only once the announcement is logged and sent. */
  lemma AnnouncesFirst<S, D(!new)>(app: StateSync<S, D>, wire: Protobuf, actions: seq<Action<D>>)
    requires Codes(app, wire)
    ensures var p := Run(app, wire, Initial(app), actions);
            && (forall i | 0 <= i < |p.stamps| :: p.stamps[i].Announce? <==> i == 0)
            && (p.status.Up? ==> p.stamps != [] && p.base in p.rows && Frame(p.rows[p.base]) in p.sent)
            && (p.status.Starting? ==> |p.stamps| <= 1 && p.beat.Idle?)
  {
    InitialInv(app, wire);
    RunKeepsAnnounced(app, wire, Initial(app), actions);
  }
}
