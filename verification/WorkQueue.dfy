/** The bounded ring buffer shared by the producer and the consumers: its operations on one queue. */
module WorkQueue {
  const MAX_ITEMS := 64

  datatype Ring = Ring(item: seq<int>, idx: int, cnt: int)

  /** idx rests at MAX_ITEMS after the last slot was popped; it is wrapped only by the next pop. */
  predicate ValidRing(r: Ring) {
    |r.item| == MAX_ITEMS && 0 <= r.idx <= MAX_ITEMS && 0 <= r.cnt <= MAX_ITEMS
  }

  function Place(idx: int, k: int): (j: nat)
    ensures j < MAX_ITEMS
  {
    (idx + k) % MAX_ITEMS
  }

  /** The queued items, oldest first. */
  function Contents(r: Ring): seq<int>
    requires ValidRing(r)
  {
    seq(r.cnt, k requires 0 <= k < r.cnt => r.item[Place(r.idx, k)])
  }

  function PushOne(r: Ring, x: int): (r': Ring)
    requires ValidRing(r) && r.cnt < MAX_ITEMS
    ensures ValidRing(r') && Contents(r') == Contents(r) + [x]
  {
    var j := Place(r.idx, r.cnt);
    var r' := Ring(r.item[j := x], r.idx, r.cnt + 1);
    PushOneAppends(r, x, r');
    r'
  }

  lemma PushOneAppends(r: Ring, x: int, r': Ring)
    requires ValidRing(r) && r.cnt < MAX_ITEMS
    requires r' == Ring(r.item[Place(r.idx, r.cnt) := x], r.idx, r.cnt + 1)
    ensures Contents(r') == Contents(r) + [x]
  {
  }

  lemma SamePlace(idx: int, k: int)
    ensures Place(Place(idx, k), 0) == Place(idx, k)
  {
  }

  lemma NextPlace(j: int, idx: int, k: int)
    requires 0 <= j < MAX_ITEMS && (Place(j, 0) == Place(idx, k) || (j == 0 && Place(MAX_ITEMS, 0) == Place(idx, k)))
    ensures j == Place(idx, k) && Place(j + 1, 0) == Place(idx, k + 1)
  {
  }

  function Push(r: Ring, items: seq<int>): (r': Ring)
    requires ValidRing(r)
    ensures ValidRing(r')
    decreases |items|
  {
    if items == [] || r.cnt == MAX_ITEMS then r else Push(PushOne(r, items[0]), items[1..])
  }

  function Min(a: int, b: int): int {
    if a < b then a else b
  }

  /** A push takes as many of its items as there is room for, in order, and drops the others. */
  lemma {:induction false} PushTakes(r: Ring, items: seq<int>)
    requires ValidRing(r)
    ensures Contents(Push(r, items)) == Contents(r) + items[..Min(|items|, MAX_ITEMS - r.cnt)]
    decreases |items|
  {
    if items != [] && r.cnt < MAX_ITEMS {
      PushTakes(PushOne(r, items[0]), items[1..]);
      var n := Min(|items|, MAX_ITEMS - r.cnt);
      assert items[..n] == [items[0]] + items[1..][..n - 1];
    }
  }

  function Oldest(r: Ring): int
    requires ValidRing(r) && r.cnt > 0
  {
    r.item[if r.idx == MAX_ITEMS then 0 else r.idx]
  }

  function Pop(r: Ring): (r': Ring)
    requires ValidRing(r) && r.cnt > 0
    ensures ValidRing(r') && Contents(r) == [Oldest(r)] + Contents(r')
  {
    var i := if r.idx == MAX_ITEMS then 0 else r.idx;
    Ring(r.item, i + 1, r.cnt - 1)
  }

  class Queue {
    const item: array<int>
    var idx: int
    var cnt: int

    ghost predicate Valid()
      reads this, item
    {
      item.Length == MAX_ITEMS && ValidRing(Abs())
    }

    ghost function Abs(): Ring
      reads this, item
    {
      Ring(item[..], idx, cnt)
    }

    constructor ()
      ensures Valid() && Contents(Abs()) == [] && fresh(item)
    {
      item := new int[MAX_ITEMS](_ => 0);
      idx, cnt := 0, 0;
    }

    method PushItem(items: seq<int>) returns (i: nat)
      requires Valid()
      modifies this, item
      ensures Valid() && Abs() == Push(old(Abs()), items)
      ensures i == Min(|items|, MAX_ITEMS - old(cnt))
      ensures Contents(Abs()) == old(Contents(Abs())) + items[..i]
    {
      ghost var r := Abs();
      PushTakes(r, items);
      hide Contents, Place;
      SamePlace(idx, cnt);
      i := 0;
      var j: int := Place(idx, cnt);
      while i < |items|
        invariant Valid() && 0 <= i <= |items| && 0 <= j <= MAX_ITEMS && cnt == r.cnt + i
        invariant Place(j, 0) == Place(idx, cnt)
        invariant Push(Abs(), items[i..]) == Push(r, items)
      {
        assert items[i..][0] == items[i] && items[i..][1..] == items[i + 1..];
        if cnt == MAX_ITEMS { break; }
        if j == MAX_ITEMS { j := 0; }
        NextPlace(j, idx, cnt);
        ghost var before := Abs();
        item[j] := items[i];
        assert item[..] == before.item[j := items[i]];
        i, j, cnt := i + 1, j + 1, cnt + 1;
      }
    }

    /** The body of pop_item once the queue is seen to be non-empty. */
    method PopItem() returns (x: int)
      requires Valid() && cnt > 0
      modifies this
      ensures Valid() && Abs() == Pop(old(Abs())) && x == Oldest(old(Abs()))
      ensures old(Contents(Abs())) == [x] + Contents(Abs())
    {
      if idx == MAX_ITEMS { idx := 0; }
      x := item[idx];
      idx := idx + 1;
      cnt := cnt - 1;
    }
  }
}
