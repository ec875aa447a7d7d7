/** The publisher's methods, run without interruption, are runs of the
    transition system. */
module PublisherRefinement {
  import opened Wrappers
  import opened Messages
  import opened Codec
  import opened MasterLogs
  import opened PublisherSystem
  import Publishing

  /** The steps between stamping a message and being done with it. */
  function PublishSteps<S, D>(app: StateSync<S, D>, wire: Protobuf, p: Publisher<S, D>, who: Sender, w: Publishing.Weather)
    : Publisher<S, D>
  {
    Do(app, wire, Do(app, wire, Do(app, wire, p, Encode(who)), Write(who, w.logs)), Send(who, w.sends))
  }

  lemma PublishIsStages<S, D>(app: StateSync<S, D>, wire: Protobuf, p: Publisher<S, D>, who: Sender, msg: RawMessage, w: Publishing.Weather)
    requires p.At(who) == Stamped(msg)
    ensures var body := wire.encode(msg);
            PublishSteps(app, wire, p, who, w)
            == if |body| > MAX_PAYLOAD_SIZE || !w.logs || msg.sequence in p.rows then GiveUp(p, who)
               else
                 var written := p.Put(who, Written(msg, Frame(body))).(rows := p.rows[msg.sequence := body]);
                 if !w.sends then GiveUp(written, who)
                 else written.Put(who, Idle).(sent := p.sent + [Frame(body)], status := if p.status.Starting? then Up else p.status)
  {
    var body := wire.encode(msg);
    var p1 := Do(app, wire, p, Encode(who));
    if |body| <= MAX_PAYLOAD_SIZE {
      assert p1 == p.Put(who, Encoded(msg, Frame(body)));
      assert Frame(body)[HEADER_SIZE..] == body;
    }
  }

  /** Publishing alone leaves the log and the wire as `Publish` says, and the
      sender idle again; a publisher that was starting is up exactly if it worked. */
  lemma PublishIsSteps<S, D>(app: StateSync<S, D>, wire: Protobuf, p: Publisher<S, D>, who: Sender, msg: RawMessage, w: Publishing.Weather)
    requires !p.status.Down? && p.At(who) == Stamped(msg)
    ensures var q := PublishSteps(app, wire, p, who, w);
            var done := Publishing.PublishTo(wire, p.rows, p.sent, msg, w);
            && q.rows == done.rows && q.sent == done.sent
            && q.At(who).Idle?
            && (q.status.Up? <==> p.status.Up? || done.result.Ok?)
            && q.history == p.history && q.stamps == p.stamps && q.base == p.base
            && (done.result.Ok? ==> q.burned == p.burned)
  {
    PublishIsStages(app, wire, p, who, msg, w);
  }

  /** `ApplyDelta`, uninterrupted, is the run stamp, encode, write, send. */
  lemma ApplyDeltaIsSteps<S, D>(app: StateSync<S, D>, wire: Protobuf, p: Publisher<S, D>, delta: D, timestamp: I64, w: Publishing.Weather)
    requires p.status.Up? && p.main.Idle? && CanStamp(p)
    ensures var before := p.history[|p.history| - 1];
            var q := PublishSteps(app, wire, Do(app, wire, p, StampDelta(delta, timestamp)), Main, w);
            && q.Counter() == p.Counter() + 1 == NextId(p.Counter())
            && q.history[|q.history| - 1] == app.apply(before, delta).state
            && (!app.apply(before, delta).ok ==> q.rows == p.rows && q.sent == p.sent)
            && (app.apply(before, delta).ok ==>
                  var done := Publishing.PublishTo(wire, p.rows, p.sent, RawMessage(timestamp, p.Counter(), Some(Delta(app.encode(delta)))), w);
                  q.rows == done.rows && q.sent == done.sent)
  {
    var s := Do(app, wire, p, StampDelta(delta, timestamp));
    if app.apply(p.history[|p.history| - 1], delta).ok {
      PublishIsSteps(app, wire, s, Main, RawMessage(timestamp, p.Counter(), Some(Delta(app.encode(delta)))), w);
    }
  }

  /** `HeartBeat`, uninterrupted, is the run stamp, encode, write, send of the other sender. */
  lemma HeartBeatIsSteps<S, D>(app: StateSync<S, D>, wire: Protobuf, p: Publisher<S, D>, timestamp: I64, w: Publishing.Weather)
    requires p.status.Up? && p.beat.Idle? && CanStamp(p)
    ensures var q := PublishSteps(app, wire, Do(app, wire, p, StampHeartbeat(timestamp)), Beat, w);
            var done := Publishing.PublishTo(wire, p.rows, p.sent, RawMessage(timestamp, p.Counter(), Some(Heartbeat)), w);
            && q.Counter() == p.Counter() + 1 == NextId(p.Counter())
            && q.history[|q.history| - 1] == p.history[|p.history| - 1]
            && q.rows == done.rows && q.sent == done.sent
  {
    PublishIsSteps(app, wire, Do(app, wire, p, StampHeartbeat(timestamp)), Beat, RawMessage(timestamp, p.Counter(), Some(Heartbeat)), w);
  }

  /** `Start`, uninterrupted, is the run boot, stamp, encode, write, send; the
      publisher is up exactly when the start was announced. */
  lemma StartIsSteps<S, D>(app: StateSync<S, D>, wire: Protobuf, p: Publisher<S, D>, timestamp: I64, w: Publishing.Weather)
    requires p.status.Down? && I64_MIN <= NextSequence(p.rows) < I64_MAX
    ensures var base := NextSequence(p.rows);
            var booted := Do(app, wire, Do(app, wire, p, Boot), StampStarted(timestamp));
            var q := PublishSteps(app, wire, booted, Main, w);
            var done := Publishing.PublishTo(wire, p.rows, p.sent, RawMessage(timestamp, base, Some(Started)), w);
            && q.base == base && q.Counter() == base + 1 == NextId(base)
            && ((forall id | id in p.rows :: I64_MIN <= id <= I64_MAX) ==> Publishing.FirstId(p.rows) == q.base)
            && q.history == [app.init, app.init]
            && q.rows == done.rows && q.sent == done.sent
            && (q.status.Up? <==> done.result.Ok?)
            && (q.status.Down? <==> done.result.Err?)
  {
    var booted := Do(app, wire, Do(app, wire, p, Boot), StampStarted(timestamp));
    PublishIsSteps(app, wire, booted, Main, RawMessage(timestamp, NextSequence(p.rows), Some(Started)), w);
  }
}
