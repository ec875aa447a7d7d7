/** The recovery service: the master log as subscribers see it. */
module Recovery {
  import opened Wrappers
  import opened Messages
  import opened MasterLogs
  import opened MinMaxHeaps
  import opened IdSets
  import opened Sequencing
  import opened SequencerSafety
  import opened SequencerRecovery

  /** The log as messages. */
  function Entries(wire: Protobuf, rows: Rows): map<int, RawMessage> {
    map id | id in rows && wire.decode(rows[id]).Some? :: wire.decode(rows[id]).value
  }

  /** Every row decodes to a message with the row's id. */
  ghost predicate WellFormed(wire: Protobuf, rows: Rows) {
    forall id | id in rows :: wire.decode(rows[id]).Some? && wire.decode(rows[id]).value.sequence == id
  }

  function DecodeRow(wire: Protobuf, body: Bytes): StreamItem {
    match wire.decode(body)
    case None => Broken
    case Some(msg) => Item(msg)
  }

  function DecodeRows(wire: Protobuf, bodies: seq<Bytes>): seq<StreamItem> {
    if bodies == [] then [] else [DecodeRow(wire, bodies[0])] + DecodeRows(wire, bodies[1..])
  }

  function GetMessage(wire: Protobuf, rows: Rows, id: int, io: bool): SingleReply {
    if !io || id !in rows then Refused
    else match wire.decode(rows[id])
      case None => Refused
      case Some(msg) => Got(msg)
  }

  function StreamMessages(wire: Protobuf, rows: Rows, from: int, io: bool): BatchReply {
    if io then Opened(DecodeRows(wire, StreamFrom(rows, from))) else Unavailable
  }

  /** The recovery server: it holds the publisher's log and answers from it. */
  class PublisherRecovery {
    const log: MasterLog
    const wire: Protobuf

    constructor (log: MasterLog, wire: Protobuf)
      ensures this.log == log && this.wire == wire
    {
      this.log, this.wire := log, wire;
    }

    method Single(id: int, io: bool) returns (r: SingleReply)
      ensures r == GetMessage(wire, log.rows, id, io)
      ensures r.Got? <==> io && id in log.rows && wire.decode(log.rows[id]).Some?
      ensures r.Got? ==> wire.decode(log.rows[id]) == Some(r.msg)
    {
      var bytes := log.ReadSequence(id, io);
      if bytes.Err? {
        return Refused;
      }
      var msg := wire.decode(bytes.value);
      r := if msg.Some? then Got(msg.value) else Refused;
    }

    method Stream(id: int, io: bool) returns (r: BatchReply)
      ensures r == StreamMessages(wire, log.rows, id, io)
      ensures r.Opened? <==> io
    {
      var stream := log.StreamFromSequence(id, io);
      if stream.Err? {
        return Unavailable;
      }
      r := Opened(DecodeRows(wire, stream.value));
    }
  }

  lemma {:induction false} RowsInLog(wire: Protobuf, rows: Rows, ids: seq<int>)
    requires WellFormed(wire, rows)
    ensures ItemsInLog(Entries(wire, rows), DecodeRows(wire, Bodies(rows, ids)))
    decreases ids
  {
    if ids != [] && ids[0] in rows {
      RowsInLog(wire, rows, ids[1..]);
      assert Bodies(rows, ids)[1..] == Bodies(rows, ids[1..]);
      var head, rest := DecodeRow(wire, rows[ids[0]]), DecodeRows(wire, Bodies(rows, ids[1..]));
      assert DecodeRows(wire, Bodies(rows, ids)) == [head] + rest;
      var id := ids[0];
      assert wire.decode(rows[id]).Some? && wire.decode(rows[id]).value.sequence == id;
      assert id in Entries(wire, rows);
    }
  }

  /** Whatever either service answers comes from the log. */
  lemma AnswersComeFromLog(wire: Protobuf, rows: Rows, id: int, io: bool)
    requires WellFormed(wire, rows)
    ensures var one := GetMessage(wire, rows, id, io); one.Got? ==> one.msg.sequence == id && InLog(Entries(wire, rows), one.msg)
    ensures var all := StreamMessages(wire, rows, id, io); all.Opened? ==> ItemsInLog(Entries(wire, rows), all.items)
  {
    RowsInLog(wire, rows, Ascending(From(rows, id)));
  }

  lemma {:induction false} DecodeRowsConcat(wire: Protobuf, a: seq<Bytes>, b: seq<Bytes>)
    ensures DecodeRows(wire, a + b) == DecodeRows(wire, a) + DecodeRows(wire, b)
    decreases a
  {
    if a == [] {
      assert a + b == b;
    } else {
      DecodeRowsConcat(wire, a[1..], b);
      assert (a + b)[1..] == a[1..] + b;
    }
  }

  /** Each row decodes on its own, to a message or to an error in its place. */
  lemma {:induction false} DecodesEach(wire: Protobuf, bodies: seq<Bytes>, i: nat)
    requires i < |bodies|
    ensures |DecodeRows(wire, bodies)| == |bodies|
    ensures var item := DecodeRows(wire, bodies)[i];
            && (item == Broken <==> wire.decode(bodies[i]) == None)
            && (item.Item? ==> wire.decode(bodies[i]) == Some(item.msg))
  {
    if i > 0 {
      DecodesEach(wire, bodies[1..], i - 1);
    } else if |bodies| > 1 {
      DecodesEach(wire, bodies[1..], 0);
    }
  }

  /** The log entries of an unbroken stretch. */
  function Segment(truth: map<int, RawMessage>, from: int, end: int): (msgs: seq<RawMessage>)
    requires forall id | from <= id < end :: id in truth
    ensures |msgs| == if from <= end then end - from else 0
    ensures forall id | from <= id < end :: msgs[id - from] == truth[id]
    decreases (end - from)
  {
    if from < end then [truth[from]] + Segment(truth, from + 1, end) else []
  }

  lemma ItemsCons(msg: RawMessage, msgs: seq<RawMessage>)
    ensures Items([msg] + msgs) == [Item(msg)] + Items(msgs)
  {
  }

  lemma {:induction false} StretchDecodes(wire: Protobuf, rows: Rows, from: int, end: int)
    requires WellFormed(wire, rows)
    requires forall id | from <= id < end :: id in rows && id in Entries(wire, rows)
    ensures DecodeRows(wire, Stretch(rows, from, end)) == Items(Segment(Entries(wire, rows), from, end))
    decreases end - from
  {
    if from < end {
      StretchDecodes(wire, rows, from + 1, end);
      ItemsCons(Entries(wire, rows)[from], Segment(Entries(wire, rows), from + 1, end));
      assert Stretch(rows, from, end)[1..] == Stretch(rows, from + 1, end);
    }
  }

  /** A stream over a log unbroken from the asked id up to `end` starts with
      exactly those entries and goes on with the stream from `end`. */
  lemma StreamIsSegment(wire: Protobuf, rows: Rows, from: int, end: int)
    requires WellFormed(wire, rows)
    requires from <= end && forall id | from <= id < end :: id in rows
    ensures forall id | from <= id < end :: id in Entries(wire, rows) && Entries(wire, rows)[id].sequence == id
    ensures var msgs := Segment(Entries(wire, rows), from, end);
            && |msgs| == end - from && Consecutive(msgs, from)
            && StreamMessages(wire, rows, from, true).items == Items(msgs) + StreamMessages(wire, rows, end, true).items
  {
    StreamSplits(rows, from, end);
    StretchDecodes(wire, rows, from, end);
    DecodeRowsConcat(wire, Stretch(rows, from, end), StreamFrom(rows, end));
    var msgs := Segment(Entries(wire, rows), from, end);
    forall i | 0 <= i < |msgs|
      ensures msgs[i].sequence == from + i
    {
      var id := from + i;
      assert msgs[id - from] == Entries(wire, rows)[id];
    }
  }

  /** Past the end of the log the stream is empty; at a hole it goes on with a
      message beyond the hole. */
  lemma StreamPastStretch(wire: Protobuf, rows: Rows, end: int)
    requires WellFormed(wire, rows) && end !in rows
    ensures var items := StreamMessages(wire, rows, end, true).items;
            if forall id | id in rows :: id < end then items == []
            else items != [] && items[0].Item? && items[0].msg.sequence > end
  {
    StreamSkipsHole(rows, end);
    if forall id | id in rows :: id < end {
      assert From(rows, end) == {};
    } else {
      var id :| id in rows && id >= end;
      assert id in From(rows, end);
      var next := Least(From(rows, end));
      assert next in rows && next > end;
      assert StreamFrom(rows, end)[0] == rows[next];
    }
  }

  /** Over a log unbroken up to `last`, both services give the sequencer what it
      needs to converge. */
  lemma UnbrokenLogHelps(wire: Protobuf, rows: Rows, want: int, last: int, r: Round)
    requires WellFormed(wire, rows)
    requires want <= last && forall id | want <= id <= last :: id in rows
    requires r.udp.Elapsed? || (r.udp.Packet? && InLog(Entries(wire, rows), r.udp.msg))
    requires r.single == GetMessage(wire, rows, want, true) && r.batch == StreamMessages(wire, rows, want, true)
    ensures Helpful(Entries(wire, rows), want, last, r)
  {
    AnswersComeFromLog(wire, rows, want, true);
    StretchFollows(wire, rows, rows, want, last + 1, last);
    StreamIsSegment(wire, rows, want, want + 1);
    assert wire.decode(rows[want]).Some?;
  }

  // ---- Snapshots

  /** An earlier state of a log that has only grown. */
  ghost predicate Within(snap: Rows, rows: Rows) {
    forall id | id in snap :: id in rows && rows[id] == snap[id]
  }

  /** Some id up to `last` was not logged when the snapshot was taken, and a later one was. */
  ghost predicate HasHole(snap: Rows, want: int, last: int) {
    exists hole, beyond :: want <= hole <= last && hole < beyond && hole !in snap && beyond in snap
  }

  /** The first id from `want` on that a snapshot does not hold. */
  lemma {:induction false} FirstHole(snap: Rows, want: int, hole: int) returns (first: int)
    requires want <= hole && hole !in snap
    ensures want <= first <= hole && first !in snap && forall id | want <= id < first :: id in snap
    decreases hole - want
  {
    first := want;
    if want in snap {
      first := FirstHole(snap, want + 1, hole);
    }
  }

  /** A stream over a snapshot unbroken up to `end`, and ending there unless that
      is beyond `last`, follows the log. */
  lemma StretchFollows(wire: Protobuf, snap: Rows, rows: Rows, want: int, end: int, last: int)
    requires WellFormed(wire, rows) && Within(snap, rows)
    requires want <= end && forall id | want <= id < end :: id in snap
    requires last < end || StreamMessages(wire, snap, end, true).items == []
    ensures Follows(StreamMessages(wire, snap, want, true).items, Entries(wire, rows), want, last)
  {
    StreamIsSegment(wire, snap, want, end);
    SegmentFollows(wire, snap, rows, want, end, StreamMessages(wire, snap, end, true).items, last);
  }

  lemma SegmentFollows(wire: Protobuf, snap: Rows, rows: Rows, want: int, end: int, more: seq<StreamItem>, last: int)
    requires WellFormed(wire, rows) && Within(snap, rows)
    requires want <= end && (forall id | want <= id < end :: id in snap && id in Entries(wire, snap)) && (last < end || more == [])
    ensures Follows(Items(Segment(Entries(wire, snap), want, end)) + more, Entries(wire, rows), want, last)
  {
    var msgs := Segment(Entries(wire, snap), want, end);
    var items := Items(msgs) + more;
    forall id | want <= id <= last && id < want + |items|
      ensures id in Entries(wire, rows) && items[id - want] == Item(Entries(wire, rows)[id])
    {
      assert |items| == end - want + |more|;
      assert id < end && id in snap;
      assert items[id - want] == Items(msgs)[id - want];
      assert msgs[id - want] == Entries(wire, snap)[id] == Entries(wire, rows)[id];
    }
  }

  /** A stream served from a snapshot follows the log as it is now up to `last`
      exactly when the snapshot had no hole there. */
  lemma SnapshotFollowsIff(wire: Protobuf, snap: Rows, rows: Rows, want: int, last: int)
    requires WellFormed(wire, rows) && Within(snap, rows)
    ensures Follows(StreamMessages(wire, snap, want, true).items, Entries(wire, rows), want, last) <==> !HasHole(snap, want, last)
  {
    if HasHole(snap, want, last) {
      var hole, beyond :| want <= hole <= last && hole < beyond && hole !in snap && beyond in snap;
      var first := FirstHole(snap, want, hole);
      HoleBreaksStream(wire, snap, rows, want, first, beyond, last);
    } else if want > last {
    } else if forall id | want <= id <= last :: id in snap {
      StretchFollows(wire, snap, rows, want, last + 1, last);
    } else {
      var hole :| want <= hole <= last && hole !in snap;
      var first := FirstHole(snap, want, hole);
      StreamPastStretch(wire, snap, first);
      StretchFollows(wire, snap, rows, want, first, last);
    }
  }

  lemma HoleBreaksStream(wire: Protobuf, snap: Rows, rows: Rows, want: int, first: int, beyond: int, last: int)
    requires WellFormed(wire, rows) && Within(snap, rows)
    requires want <= first <= last && first < beyond && first !in snap && beyond in snap
    requires forall id | want <= id < first :: id in snap
    ensures !Follows(StreamMessages(wire, snap, want, true).items, Entries(wire, rows), want, last)
  {
    var msgs, next, more := SnapshotWithHole(wire, snap, want, first);
    var items := Items(msgs) + ([Item(next)] + more);
    assert items[first - want] == Item(next);
    assert first in Entries(wire, rows) ==> Entries(wire, rows)[first].sequence == first;
  }

  /** A batch from a log unbroken up to its end: the missing part of the log is
      delivered, buffered ids inside it are dropped undelivered, and the sequencer
      goes on with the heap or listens. */
  lemma LogBatchHandsOver<D>(cfg: Config<D>, wire: Protobuf, rows: Rows, v: View, r: Round, last: int, entries: seq<Entry>, e: Entry)
    requires WellFormed(wire, rows)
    requires v.want <= last && (forall id | v.want <= id <= last :: id in rows) && (forall id | id in rows :: id <= last)
    requires Sound(Machine(v, true)) && v.heap != [] && !SingleMissing(v) && r.clock > v.deadline
    requires r.batch == StreamMessages(wire, rows, v.want, true)
    requires |entries| == last - v.want
    ensures var tr := Exec(cfg, Machine(v, true), [Wait(r)] + Calls(entries));
            && tr.final.view.want == last + 1 && !tr.final.listening
            && |tr.consumed| == |tr.outcomes| == last + 1 - v.want
            && var t := Enter(cfg, tr.final.view, e);
            && t.view.recovery == None
            && (forall id | id in Ids(t.view.heap) :: last < id && id in Ids(v.heap))
            && (forall id | id in Ids(v.heap) && last + 1 < id :: id in Ids(t.view.heap))
            && (last + 1 in Ids(v.heap) ==> t.consumed.Some? && t.consumed.value in v.heap && t.consumed.value.Id() == last + 1)
            && (last + 1 !in Ids(v.heap) ==> t.outcome == None && t.view.want == last + 1)
  {
    var msgs := SnapshotUpTo(wire, rows, v.want, last);
    BatchHandsOver(cfg, v, r, msgs, entries, e);
  }

  lemma SnapshotUpTo(wire: Protobuf, rows: Rows, want: int, last: int) returns (msgs: seq<RawMessage>)
    requires WellFormed(wire, rows)
    requires want <= last && (forall id | want <= id <= last :: id in rows) && (forall id | id in rows :: id <= last)
    ensures |msgs| == last + 1 - want && Consecutive(msgs, want)
    ensures StreamMessages(wire, rows, want, true) == Opened(Items(msgs))
  {
    StreamIsSegment(wire, rows, want, last + 1);
    StreamPastStretch(wire, rows, last + 1);
    msgs := Segment(Entries(wire, rows), want, last + 1);
    assert Items(msgs) + [] == Items(msgs);
  }

  /** The snapshot of a log with a hole: an unbroken part and then a message beyond it. */
  lemma SnapshotWithHole(wire: Protobuf, rows: Rows, want: int, hole: int)
    returns (msgs: seq<RawMessage>, beyond: RawMessage, more: seq<StreamItem>)
    requires WellFormed(wire, rows)
    requires want <= hole && hole !in rows && (forall id | want <= id < hole :: id in rows) && (exists id :: id in rows && id > hole)
    ensures |msgs| == hole - want && Consecutive(msgs, want) && beyond.sequence > hole
    ensures StreamMessages(wire, rows, want, true) == Opened(Items(msgs) + ([Item(beyond)] + more))
  {
    StreamIsSegment(wire, rows, want, hole);
    StreamPastStretch(wire, rows, hole);
    var rest := StreamMessages(wire, rows, hole, true).items;
    msgs, beyond, more := Segment(Entries(wire, rows), want, hole), rest[0].msg, rest[1..];
    assert rest == [Item(beyond)] + more;
  }

  /** A batch from a log with a hole, from the request on: the part before the
      hole is delivered; then, in the request itself if the wanted id is the
      hole, the stream is found to skip an id, or to be empty; and the wanted id
      stays at the hole. */
  lemma LogBatchStopsAtHole<D>(cfg: Config<D>, wire: Protobuf, rows: Rows, v: View, r: Round, hole: int, entries: seq<Entry>)
    requires WellFormed(wire, rows)
    requires v.want <= hole && hole !in rows && (forall id | v.want <= id < hole :: id in rows)
    requires hole == v.want || exists id :: id in rows && id > hole
    requires v.heap != [] && !SingleMissing(v) && r.clock > v.deadline
    requires r.batch == StreamMessages(wire, rows, v.want, true)
    requires |entries| == hole - v.want
    ensures var tr := Exec(cfg, Machine(v, true), [Wait(r)] + Calls(entries));
            && tr.final.view.want == hole && !tr.final.listening
            && |tr.consumed| == hole - v.want && |tr.outcomes| == hole - v.want + 1
            && tr.outcomes[hole - v.want]
               == Failed(if exists id :: id in rows && id > hole then InvalidSequence else EmptyStream)
  {
    if exists id :: id in rows && id > hole {
      var msgs, beyond, more := SnapshotWithHole(wire, rows, v.want, hole);
      BatchStopsAtHole(cfg, v, r, msgs, beyond, more, entries);
    } else {
      StreamPastStretch(wire, rows, hole);
      ExecFrom(cfg, Machine(v, true), Wait(r), Calls(entries));
    }
  }
}
