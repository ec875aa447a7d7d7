/** The master log: a table of message bodies with a unique id. */
module MasterLogs {
  import opened Wrappers
  import opened Messages
  import opened IdSets

  type Rows = map<int, Bytes>

  datatype LogError = Io | Exists | NotFound

  /** The id after the last one in the log, or zero. */
  function NextSequence(rows: Rows): (id: int)
    ensures forall x | x in rows :: x < id
    ensures if rows == map[] then id == 0 else id - 1 in rows
  {
    if rows == map[] then 0
    else Greatest(rows.Keys) + 1
  }

  /** Ids in ascending order. */
  function Ascending(ids: set<int>): seq<int>
    decreases |ids|
  {
    if ids == {} then [] else [Least(ids)] + Ascending(ids - {Least(ids)})
  }

  function From(rows: Rows, from: int): set<int> {
    set id | id in rows && id >= from
  }

  /** The bodies of all rows from an id on, in id order. */
  function StreamFrom(rows: Rows, from: int): seq<Bytes> {
    Bodies(rows, Ascending(From(rows, from)))
  }

  /** Rows by id; every id asked for is in the log. */
  function Bodies(rows: Rows, ids: seq<int>): seq<Bytes> {
    if ids == [] || ids[0] !in rows then [] else [rows[ids[0]]] + Bodies(rows, ids[1..])
  }

  /** The bodies of an unbroken stretch of the log. */
  function Stretch(rows: Rows, from: int, end: int): seq<Bytes>
    requires forall id | from <= id < end :: id in rows
    decreases end - from
  {
    if from < end then [rows[from]] + Stretch(rows, from + 1, end) else []
  }

  /** A stream over a stretch of the log without holes starts with exactly that
      stretch, and goes on with the stream from its end. */
  lemma {:induction false} StreamSplits(rows: Rows, from: int, end: int)
    requires from <= end
    requires forall id | from <= id < end :: id in rows
    ensures StreamFrom(rows, from) == Stretch(rows, from, end) + StreamFrom(rows, end)
    decreases end - from
  {
    if from < end {
      StreamSplits(rows, from + 1, end);
      var ids := From(rows, from);
      assert from in ids && Least(ids) == from;
      assert ids - {from} == From(rows, from + 1);
      assert Ascending(ids)[1..] == Ascending(From(rows, from + 1));
    }
  }

  /** With a hole at `hole`, the stream goes on with the next id after it. */
  lemma StreamSkipsHole(rows: Rows, hole: int)
    requires hole !in rows
    ensures StreamFrom(rows, hole) == StreamFrom(rows, hole + 1)
    ensures StreamFrom(rows, hole) != [] ==>
              exists id :: id > hole && id in rows && StreamFrom(rows, hole)[0] == rows[id]
  {
    var ids := From(rows, hole);
    assert ids == From(rows, hole + 1);
    if ids != {} {
      assert Least(ids) in rows && Least(ids) > hole;
    }
  }

  /** The table's columns: the bodies, which are read again, and the time stamps, which are not. */
  class MasterLog {
    var rows: Rows
    var timestamps: map<int, int>

    constructor ()
      ensures rows == map[] && timestamps == map[]
    {
      rows, timestamps := map[], map[];
    }

    method GetNextSequence(io: bool) returns (r: Result<int, LogError>)
      ensures r == if io then Ok(NextSequence(rows)) else Err(Io)
    {
      if !io {
        return Err(Io);
      }
      r := Ok(NextSequence(rows));
    }

    /** Inserts a row; the id must be new. `io` tells whether the database answers. */
    method WriteMessage(sequence: int, timestamp: int, buf: Bytes, io: bool) returns (r: Result<(), LogError>)
      modifies this
      ensures (r, rows) == Insert(old(rows), sequence, buf, io)
      ensures r.Ok? <==> io && sequence !in old(rows)
      ensures r.Ok? ==> rows == old(rows)[sequence := buf] && timestamps == old(timestamps)[sequence := timestamp]
      ensures r.Err? ==> rows == old(rows) && timestamps == old(timestamps)
      ensures r == Err(Exists) <==> io && sequence in old(rows)
      ensures r == Err(Io) <==> !io
    {
      if !io {
        return Err(Io);
      }
      if sequence in rows {
        return Err(Exists);
      }
      rows, timestamps := rows[sequence := buf], timestamps[sequence := timestamp];
      r := Ok(());
    }

    method ReadSequence(sequence: int, io: bool) returns (r: Result<Bytes, LogError>)
      ensures r == Err(Io) <==> !io
      ensures r == Err(NotFound) <==> io && sequence !in rows
      ensures r.Ok? <==> io && sequence in rows
      ensures r.Ok? ==> r.value == rows[sequence]
    {
      if !io {
        return Err(Io);
      }
      if sequence !in rows {
        return Err(NotFound);
      }
      r := Ok(rows[sequence]);
    }

    method StreamFromSequence(sequence: int, io: bool) returns (r: Result<seq<Bytes>, LogError>)
      ensures r == if io then Ok(StreamFrom(rows, sequence)) else Err(Io)
    {
      if !io {
        return Err(Io);
      }
      r := Ok(StreamFrom(rows, sequence));
    }
  }

  /** The time stamps once the row of an id may have been added. */
  function Timestamped(timestamps: map<int, int>, before: Rows, after: Rows, sequence: int, timestamp: int): (r: map<int, int>)
    ensures sequence in after && sequence !in before ==> sequence in r && r[sequence] == timestamp
    ensures before.Keys == after.Keys ==> r == timestamps
    ensures forall id | id in timestamps && id != sequence :: id in r && r[id] == timestamps[id]
    ensures forall id | id in r && id != sequence :: id in timestamps
  {
    if sequence in after && sequence !in before then timestamps[sequence := timestamp] else timestamps
  }

  function Insert(rows: Rows, sequence: int, buf: Bytes, io: bool): (Result<(), LogError>, Rows) {
    if !io then (Err(Io), rows)
    else if sequence in rows then (Err(Exists), rows)
    else (Ok(()), rows[sequence := buf])
  }
}
