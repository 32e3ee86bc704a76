/** Model of core/dequeue.py: a FIFO queue or LIFO stack over Python's
  * `queue.Queue` / `queue.LifoQueue`. Both back onto a sequence held in
  * insertion order (oldest first): a FIFO takes from the front, a LIFO
  * from the back. A non-positive `maxsize` means unbounded. */
module DeQueues {
  import opened Wrappers

  const Fifo: int := 0
  const Lifo: int := 1

  /** `Queue.full()`: only a positive bound can be reached. */
  predicate IsFull<T>(items: seq<T>, maxsize: int) {
    0 < maxsize <= |items|
  }

  /** One `put(x)`: raises Full at the bound, otherwise appends. */
  function PutStep<T>(items: seq<T>, maxsize: int, x: T): (r: (seq<T>, Status))
    ensures IsFull(items, maxsize) ==> r == (items, Raised(QueueFull))
    ensures !IsFull(items, maxsize) ==> r == (items + [x], Done) && |r.0| == |items| + 1
  {
    if IsFull(items, maxsize) then (items, Raised(QueueFull)) else (items + [x], Done)
  }

  /** `put_as_set(x)` as written: `x not in self._queue` asks a `Queue`
    * object, which supports no membership test, so it always raises
    * TypeError and never adds. */
  function PutAsSetAsWritten<T>(items: seq<T>, maxsize: int, x: T): (r: (seq<T>, Status))
    ensures r == (items, Raised(TypeError))
  {
    (items, Raised(TypeError))
  }

  /** Wherever the intended `put_as_set` would add an absent item, the
    * code as written raises instead and leaves the queue as it was. */
  lemma PutAsSetAsWrittenNeverAdds<T>(items: seq<T>, maxsize: int, x: T)
    requires x !in items && !IsFull(items, maxsize)
    ensures PutAsSetAsWritten(items, maxsize, x) == (items, Raised(TypeError))
    ensures PutAsSetStep(items, maxsize, x) == (items + [x], Done)
    ensures PutAsSetAsWritten(items, maxsize, x).0 != PutAsSetStep(items, maxsize, x).0
  {
    assert |items + [x]| == |items| + 1;
  }

  /** `put_as_set(x)` testing membership in the backing sequence, as its
    * documentation intends: adds only an absent item, at the end. */
  function PutAsSetStep<T(==)>(items: seq<T>, maxsize: int, x: T): (r: (seq<T>, Status))
    ensures x in items ==> r == (items, Done)
    ensures x !in items ==> r == PutStep(items, maxsize, x)
  {
    if x in items then (items, Done) else PutStep(items, maxsize, x)
  }

  /** No duplicates among the items. */
  predicate Distinct<T(==)>(items: seq<T>) {
    forall i, j :: 0 <= i < j < |items| ==> items[i] != items[j]
  }

  /** `put_as_set` gives set behaviour: it keeps the items distinct, never
    * reorders them, and afterwards the item is present unless the queue
    * was full. */
  lemma PutAsSetIsSetLike<T>(items: seq<T>, maxsize: int, x: T)
    requires Distinct(items)
    ensures var r := PutAsSetStep(items, maxsize, x);
            Distinct(r.0) && items <= r.0
            && (x in r.0 <==> r.1 == Done)
            && multiset(r.0) == multiset(items) + (if x in items || r.1 != Done then multiset{} else multiset{x})
  {
    var r := PutAsSetStep(items, maxsize, x);
    if x !in items && !IsFull(items, maxsize) {
      assert r.0 == items + [x];
      forall i, j | 0 <= i < j < |r.0|
        ensures r.0[i] != r.0[j]
      {
        if j == |items| {
          assert r.0[i] == items[i];
        }
      }
    }
  }

  class DeQueue<T(==)> {
    const maxsize: int
    const mode: int
    /** The backing queue, oldest item first. */
    var items: seq<T>

    /** Any `mode` other than LIFO gives a FIFO queue. */
    constructor (maxsize: int, mode: int)
      ensures this.maxsize == maxsize && this.mode == mode && items == []
    {
      this.maxsize := maxsize;
      this.mode := mode;
      items := [];
    }

    /** `size`: the number of queued items. */
    function Size(): (r: nat)
      reads this
      ensures r == |items| && (r == 0 <==> items == [])
    {
      |items|
    }

    /** `empty()`. */
    function IsEmpty(): (r: bool)
      reads this
      ensures r <==> items == []
    {
      Size() == 0
    }

    /** `full()`. */
    function Full(): (r: bool)
      reads this
      ensures r <==> 0 < maxsize <= |items|
      ensures maxsize <= 0 ==> !r
    {
      IsFull(items, maxsize)
    }

    /** `peek()`: raises Empty on an empty queue; otherwise the oldest item
      * in FIFO mode, the newest in LIFO mode, and None for any other mode. */
    method Peek() returns (r: Result<Option<T>>)
      ensures IsEmpty() <==> r == Err(QueueEmpty)
      ensures !IsEmpty() && mode == Fifo ==> r == Ok(Some(items[0]))
      ensures !IsEmpty() && mode == Lifo ==> r == Ok(Some(items[|items| - 1]))
      ensures !IsEmpty() && mode != Fifo && mode != Lifo ==> r == Ok(None)
    {
      if IsEmpty() {
        return Err(QueueEmpty);
      }
      if mode == Fifo {
        r := Ok(Some(items[0]));
      } else if mode == Lifo {
        r := Ok(Some(items[Size() - 1]));
      } else {
        r := Ok(None);
      }
    }

    /** `poll()`: FIFO only; takes the oldest item. */
    method Poll() returns (r: Result<T>)
      modifies this
      ensures old(IsEmpty()) ==> r == Err(QueueEmpty) && items == old(items)
      ensures !old(IsEmpty()) && mode == Lifo ==> r == Err(TypeError) && items == old(items)
      ensures !old(IsEmpty()) && mode != Lifo ==> r == Ok(old(items)[0]) && items == old(items)[1..]
    {
      if IsEmpty() {
        return Err(QueueEmpty);
      }
      if mode == Lifo {
        return Err(TypeError);
      }
      r := Get();
    }

    /** `get()`: the oldest item of a FIFO, the newest of a LIFO. */
    method Get() returns (r: Result<T>)
      modifies this
      ensures old(IsEmpty()) ==> r == Err(QueueEmpty) && items == old(items)
      ensures !old(IsEmpty()) && mode != Lifo ==> r == Ok(old(items)[0]) && items == old(items)[1..]
      ensures !old(IsEmpty()) && mode == Lifo ==>
                r == Ok(old(items)[|old(items)| - 1]) && items == old(items)[..|old(items)| - 1]
      ensures r.Ok? ==> multiset(old(items)) == multiset(items) + multiset{r.value}
    {
      if IsEmpty() {
        return Err(QueueEmpty);
      }
      if mode == Lifo {
        r := Ok(items[|items| - 1]);
        assert items == items[..|items| - 1] + [items[|items| - 1]];
        items := items[..|items| - 1];
      } else {
        r := Ok(items[0]);
        assert items == [items[0]] + items[1..];
        items := items[1..];
      }
    }

    /** `pop()`: refused in FIFO mode before emptiness is checked; in any
      * other mode it is `get()`, so a mode that is neither FIFO nor LIFO
      * (which builds a FIFO queue) takes the oldest item. */
    method Pop() returns (r: Result<T>)
      modifies this
      ensures mode == Fifo ==> r == Err(TypeError) && items == old(items)
      ensures mode != Fifo && old(IsEmpty()) ==> r == Err(QueueEmpty) && items == old(items)
      ensures mode == Lifo && !old(IsEmpty()) ==>
                r == Ok(old(items)[|old(items)| - 1]) && items == old(items)[..|old(items)| - 1]
      ensures mode != Fifo && mode != Lifo && !old(IsEmpty()) ==>
                r == Ok(old(items)[0]) && items == old(items)[1..]
    {
      if mode == Fifo {
        return Err(TypeError);
      }
      r := Get();
    }

    /** `put(x)`, and its alias `push(x)`. */
    method Put(x: T) returns (st: Status)
      modifies this
      ensures (items, st) == PutStep(old(items), maxsize, x)
    {
      if Full() {
        return Raised(QueueFull);
      }
      items := items + [x];
      st := Done;
    }

    method PutAsSet(x: T) returns (st: Status)
      modifies this
      ensures (items, st) == PutAsSetStep(old(items), maxsize, x)
    {
      if x !in items {
        st := Put(x);
      } else {
        st := Done;
      }
    }

    /** `clear()` as written: `Queue` has no `clear` method. */
    method ClearAsWritten() returns (st: Status)
      ensures st == Raised(AttributeError)
    {
      st := Raised(AttributeError);
    }

    /** `clear()` emptying the backing queue, as documented. */
    method Clear()
      modifies this
      ensures items == [] && IsEmpty()
    {
      items := [];
    }
  }

  /** A FIFO hands items back in the order they were put: putting `xs`
    * into an empty unbounded FIFO and then getting `|xs|` times yields
    * `xs`. */
  method FifoOrder<T(==)>(xs: seq<T>) returns (out: seq<T>)
    ensures out == xs
  {
    var q := new DeQueue<T>(-1, Fifo);
    for i := 0 to |xs|
      invariant q.items == xs[..i] && q.mode == Fifo && q.maxsize == -1
    {
      var st := q.Put(xs[i]);
      assert xs[..i + 1] == xs[..i] + [xs[i]];
    }
    out := [];
    for i := 0 to |xs|
      invariant q.items == xs[i..] && out == xs[..i]
    {
      var r := q.Get();
      assert xs[i..][0] == xs[i] && xs[i..][1..] == xs[i + 1..];
      out := out + [r.value];
      assert xs[..i + 1] == xs[..i] + [xs[i]];
    }
    assert xs[..|xs|] == xs;
  }

  /** A LIFO hands items back newest first. */
  method LifoOrder<T(==)>(xs: seq<T>) returns (out: seq<T>)
    ensures |out| == |xs|
    ensures forall i :: 0 <= i < |xs| ==> out[i] == xs[|xs| - 1 - i]
  {
    var q := new DeQueue<T>(-1, Lifo);
    for i := 0 to |xs|
      invariant q.items == xs[..i] && q.mode == Lifo && q.maxsize == -1
    {
      var st := q.Put(xs[i]);
      assert xs[..i + 1] == xs[..i] + [xs[i]];
    }
    out := [];
    for i := 0 to |xs|
      invariant q.items == xs[..|xs| - i] && |out| == i
      invariant forall k :: 0 <= k < i ==> out[k] == xs[|xs| - 1 - k]
    {
      var r := q.Pop();
      assert xs[..|xs| - i][..|xs| - i - 1] == xs[..|xs| - i - 1];
      out := out + [r.value];
    }
  }
}
