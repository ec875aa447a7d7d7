/** The subscriber's buffer of messages that arrived too early: a min-heap
    together with its largest id and a per-id counter, so that "is an id
    missing between the smallest and the largest?" is answered by arithmetic. */
module MinMaxHeaps {
  import opened Wrappers
  import opened Messages

  /** Pop order: the message popped first is at index 0. */
  ghost predicate Sorted(h: seq<ReceivedMessage>) {
    forall i, j | 0 <= i < j < |h| :: h[i].Id() <= h[j].Id()
  }

  /** The ids in the heap. */
  function Ids(h: seq<ReceivedMessage>): set<int> {
    set m | m in h :: m.Id() as int
  }

  /** How many buffered messages carry an id. */
  ghost function Occurrences(h: seq<ReceivedMessage>, id: int): nat {
    if h == [] then 0 else (if h[0].Id() == id then 1 else 0) + Occurrences(h[1..], id)
  }

  /** The counter of a heap: its keys are the buffered ids, its values their multiplicities. */
  ghost predicate Tallies(counter: map<int, nat>, h: seq<ReceivedMessage>) {
    && (forall id | id in counter :: counter[id] == Occurrences(h, id))
    && (forall id :: Occurrences(h, id) > 0 <==> id in counter)
  }

  /** The ids from `lo` to `hi`, both included. */
  function Interval(lo: int, hi: int): (r: set<int>)
    ensures forall id :: id in r <==> lo <= id <= hi
    ensures lo <= hi + 1 ==> |r| == hi - lo + 1
    decreases hi - lo
  {
    if lo > hi then {} else Interval(lo, hi - 1) + {hi}
  }

  /** The ids between the smallest and the largest buffered one that are not buffered. */
  function Gaps(h: seq<ReceivedMessage>): set<int> {
    if h == [] then {} else set id | h[0].Id() < id < h[|h| - 1].Id() && id !in Ids(h)
  }

  /** Every id between the smallest and the largest buffered one is buffered too. */
  predicate Gapless(h: seq<ReceivedMessage>)
    requires h != []
  {
    forall id | h[0].Id() < id < h[|h| - 1].Id() :: id in Ids(h)
  }

  /** Where a message with this id goes: after the smaller ids and after `slot`
      of the equal ones. */
  function Place(h: seq<ReceivedMessage>, id: int, slot: nat): (p: nat)
    ensures p <= |h|
    ensures p > 0 ==> h[p - 1].Id() <= id
    ensures p < |h| ==> id <= h[p].Id()
  {
    if h == [] || id < h[0].Id() || (id == h[0].Id() && slot == 0) then
      0
    else
      1 + Place(h[1..], id, if id == h[0].Id() then slot - 1 else slot)
  }

  /** Adds a message. The heap pops messages with equal ids in an unspecified
      order: `slot` is how many of the equal ones already buffered will be
      popped before the new one. */
  function Insert(h: seq<ReceivedMessage>, v: ReceivedMessage, slot: nat): seq<ReceivedMessage> {
    var p := Place(h, v.Id(), slot);
    h[..p] + [v] + h[p..]
  }

  /** Inserting adds the message and nothing else. */
  lemma InsertAdds(h: seq<ReceivedMessage>, v: ReceivedMessage, slot: nat)
    ensures forall m :: m in Insert(h, v, slot) <==> m == v || m in h
    ensures Ids(Insert(h, v, slot)) == Ids(h) + {v.Id() as int}
  {
    var p := Place(h, v.Id(), slot);
    assert h == h[..p] + h[p..];
    assert forall m :: m in Insert(h, v, slot) <==> m == v || m in h;
  }

  /** Inserting keeps every buffered message, however often it is buffered. */
  lemma InsertKeepsAll(h: seq<ReceivedMessage>, v: ReceivedMessage, slot: nat)
    ensures multiset(Insert(h, v, slot)) == multiset(h) + multiset{v}
  {
    var p := Place(h, v.Id(), slot);
    assert h == h[..p] + h[p..];
  }

  /** How many buffered messages with the id are popped before the new one: as
      many as asked for, if there are so many. */
  lemma {:induction false} InsertHonoursSlot(h: seq<ReceivedMessage>, id: I64, slot: nat)
    requires Sorted(h)
    ensures var p := Place(h, id, slot);
            Occurrences(h[..p], id) == if slot < Occurrences(h, id) then slot else Occurrences(h, id)
  {
    var p := Place(h, id, slot);
    if h != [] && !(id < h[0].Id() || (id == h[0].Id() && slot == 0)) {
      InsertHonoursSlot(h[1..], id, if id == h[0].Id() then slot - 1 else slot);
      assert h[..p][1..] == h[1..][..p - 1];
    } else if h != [] && id < h[0].Id() {
      NoneBelow(h, id);
    }
  }

  lemma {:induction false} NoneBelow(h: seq<ReceivedMessage>, id: int)
    requires forall m | m in h :: id < m.Id()
    ensures Occurrences(h, id) == 0
  {
    if h != [] {
      assert h[0] in h;
      NoneBelow(h[1..], id);
    }
  }

  /** A message between two sorted parts keeps the whole sorted. */
  lemma SpliceSorts(a: seq<ReceivedMessage>, v: ReceivedMessage, b: seq<ReceivedMessage>)
    requires Sorted(a) && Sorted(b)
    requires a != [] ==> a[|a| - 1].Id() <= v.Id()
    requires b != [] ==> v.Id() <= b[0].Id()
    ensures Sorted(a + [v] + b)
  {
    var r := a + [v] + b;
    forall i, j | 0 <= i < j < |r|
      ensures r[i].Id() <= r[j].Id()
    {
      var low := if i < |a| then a[i] else v;
      var high := if j > |a| then b[j - |a| - 1] else v;
      assert i <= |a| ==> r[i] == low && low.Id() <= v.Id();
      assert j >= |a| ==> r[j] == high && v.Id() <= high.Id();
    }
  }

  /** Inserting keeps the pop order, and the last message has the largest id. */
  lemma InsertSorts(h: seq<ReceivedMessage>, v: ReceivedMessage, slot: nat)
    requires Sorted(h)
    ensures Sorted(Insert(h, v, slot))
    ensures Insert(h, v, slot)[|h|].Id() == if h == [] || v.Id() > h[|h| - 1].Id() then v.Id() else h[|h| - 1].Id()
  {
    var p := Place(h, v.Id(), slot);
    SpliceSorts(h[..p], v, h[p..]);
    if p < |h| {
      assert h[p].Id() <= h[|h| - 1].Id();
      assert Insert(h, v, slot)[|h|] == h[p..][|h| - p - 1] == h[|h| - 1];
    } else {
      assert Insert(h, v, slot)[|h|] == v;
    }
  }

  lemma {:induction false} OccurrencesInConcat(a: seq<ReceivedMessage>, b: seq<ReceivedMessage>, id: int)
    ensures Occurrences(a + b, id) == Occurrences(a, id) + Occurrences(b, id)
  {
    if a == [] {
      assert a + b == b;
    } else {
      OccurrencesInConcat(a[1..], b, id);
      assert (a + b)[1..] == a[1..] + b;
    }
  }

  lemma InsertCounts(h: seq<ReceivedMessage>, v: ReceivedMessage, slot: nat, id: int)
    ensures Occurrences(Insert(h, v, slot), id) == Occurrences(h, id) + if id == v.Id() then 1 else 0
  {
    var p := Place(h, v.Id(), slot);
    OccurrencesInConcat(h[..p], h[p..], id);
    OccurrencesInConcat(h[..p] + [v], h[p..], id);
    OccurrencesInConcat(h[..p], [v], id);
    assert h == h[..p] + h[p..];
    assert [v][1..] == [];
  }

  /** An id is counted exactly when some buffered message carries it. */
  lemma {:induction false} OccursIffBuffered(h: seq<ReceivedMessage>, id: int)
    ensures Occurrences(h, id) > 0 <==> id in Ids(h)
  {
    if h != [] {
      OccursIffBuffered(h[1..], id);
      assert h == [h[0]] + h[1..];
      if id in Ids(h[1..]) {
        var m :| m in h[1..] && m.Id() == id;
        assert m in h;
      }
    }
  }

  lemma TalliesIds(counter: map<int, nat>, h: seq<ReceivedMessage>)
    requires Tallies(counter, h)
    ensures counter.Keys == Ids(h)
  {
    forall id
      ensures id in counter <==> id in Ids(h)
    {
      OccursIffBuffered(h, id);
    }
  }

  /** The counter after a pop: one less for the popped id, and no entry left at zero. */
  lemma PopTallies(counter: map<int, nat>, h: seq<ReceivedMessage>)
    requires h != [] && Tallies(counter, h)
    ensures var id := h[0].Id();
            && id in counter && counter[id] > 0
            && var fewer := counter[id := counter[id] - 1];
            Tallies(if counter[id] == 1 then fewer - {id as int} else fewer, h[1..])
  {
    assert Occurrences(h, h[0].Id()) > 0;
  }

  /** The counter after a push: one more for the pushed id. */
  lemma PushTallies(counter: map<int, nat>, h: seq<ReceivedMessage>, v: ReceivedMessage, slot: nat)
    requires Tallies(counter, h)
    ensures Tallies(counter[v.Id() := if v.Id() in counter then counter[v.Id()] + 1 else 1], Insert(h, v, slot))
  {
    forall id
      ensures Occurrences(Insert(h, v, slot), id) == Occurrences(h, id) + if id == v.Id() then 1 else 0
    {
      InsertCounts(h, v, slot, id);
    }
  }

  /** The buffered ids and the gaps make up the range from the smallest to the largest. */
  lemma DistinctIdsFit(h: seq<ReceivedMessage>)
    requires Sorted(h) && h != []
    ensures |Gaps(h)| == h[|h| - 1].Id() - h[0].Id() + 1 - |Ids(h)|
  {
    var range := Interval(h[0].Id(), h[|h| - 1].Id());
    assert h[0] in h && h[|h| - 1] in h;
    assert Ids(h) <= range;
    assert Gaps(h) == range - Ids(h);
    assert |range - Ids(h)| == |range| - |Ids(h)|;
  }

  /** The gap arithmetic: the ids missing between the smallest and the largest
      buffered one number the width of the range less the distinct ids. */
  lemma GapsByArithmetic(counter: map<int, nat>, h: seq<ReceivedMessage>)
    requires Sorted(h) && h != [] && Tallies(counter, h)
    ensures |Gaps(h)| == h[|h| - 1].Id() - h[0].Id() + 1 - |counter|
  {
    TalliesIds(counter, h);
    DistinctIdsFit(h);
  }

  class MinMaxHeap {
    var heap: seq<ReceivedMessage>
    var maxId: Option<I64>
    var counter: map<int, nat>

    /** The three views agree: the counter is the id multiset of the heap and
        `maxId` its largest id, present exactly when the heap is not empty. */
    ghost predicate Valid()
      reads this
    {
      && Sorted(heap)
      && Tallies(counter, heap)
      && maxId == if heap == [] then None else Some(heap[|heap| - 1].Id())
    }

    constructor ()
      ensures Valid() && heap == []
    {
      heap, maxId, counter := [], None, map[];
    }

    function Peek(): (msg: Option<ReceivedMessage>)
      requires Valid()
      reads this
      ensures msg.None? <==> heap == []
      ensures msg.Some? ==> msg.value in heap && forall m | m in heap :: msg.value.Id() <= m.Id()
    {
      if heap == [] then None else Some(heap[0])
    }

    method Pop() returns (msg: Option<ReceivedMessage>)
      requires Valid()
      modifies this
      ensures Valid()
      ensures msg == old(Peek())
      ensures old(heap) != [] ==> msg == Some(old(heap)[0])
      ensures heap == if old(heap) == [] then [] else old(heap)[1..]
    {
      if heap == [] {
        msg := None;
      } else {
        PopTallies(counter, heap);
        msg, heap := Some(heap[0]), heap[1..];
      }
      if |heap| == 0 {
        maxId := None;
      }
      if msg.Some? {
        var id := msg.value.Id();
        var count := counter[id] - 1;
        counter := counter[id := count];
        if count == 0 {
          counter := counter - {id};
        }
      }
    }

    method Push(v: ReceivedMessage, slot: nat)
      requires Valid()
      modifies this
      ensures Valid()
      ensures heap == Insert(old(heap), v, slot)
    {
      var id := v.Id();
      match maxId {
        case Some(largest) => maxId := Some(if id > largest then id else largest);
        case None => maxId := Some(id);
      }
      PushTallies(counter, heap, v, slot);
      counter := counter[id := if id in counter then counter[id] + 1 else 1];
      InsertSorts(heap, v, slot);
      heap := Insert(heap, v, slot);
    }

    method Clear()
      modifies this
      ensures Valid() && heap == []
    {
      heap, counter, maxId := [], map[], None;
    }

    predicate HasGaps(): (gaps: bool)
      requires Valid()
      reads this
      ensures gaps <==> heap != [] && exists id :: heap[0].Id() < id < heap[|heap| - 1].Id() && id !in Ids(heap)
    {
      assert heap != [] ==> forall id :: id in Gaps(heap) <==> heap[0].Id() < id < heap[|heap| - 1].Id() && id !in Ids(heap);
      CountMissing() > 0
    }

    /** How many ids between the smallest and the largest buffered one are not buffered. */
    function CountMissing(): (n: int)
      requires Valid()
      reads this
      ensures n == |Gaps(heap)|
    {
      match maxId
      case Some(largest) =>
        GapsByArithmetic(counter, heap);
        var least := Peek().value.Id();
        largest - least + 1 - |counter|
      case None => 0
    }
  }
}
