/** Model of upy/heapq.py: the binary-heap priority queue over a list,
  * where the element at index `i` is never ahead of its children at
  * `2i+1` and `2i+2`. The min-heap functions and the max-heap variants
  * used by `nsmallest` differ only in the comparison, so each sift is
  * written once over an `Order`. The list is an array of integers; the
  * functions that change the list's length return a new array. */
module HeapQ {
  import opened Wrappers

  /** Min orders by `<`, as `heappush` and friends do; Max by `>`, as the
    * `_max` variants do. */
  datatype Order = Min | Max

  /** The other order. */
  function Opposite(o: Order): Order {
    if o == Min then Max else Min
  }

  /** `x` is strictly ahead of `y`: `x < y` for a min-heap, `y < x` for a
    * max-heap. */
  predicate Before(o: Order, x: int, y: int) {
    if o == Min then x < y else y < x
  }

  /** The element at `i` is not ahead of its parent. */
  predicate Ordered(o: Order, s: seq<int>, i: int) {
    0 < i < |s| ==> !Before(o, s[i], s[(i - 1) / 2])
  }

  /** Every parent at index `k` or above is not behind its children. */
  predicate HeapFrom(o: Order, s: seq<int>, k: int) {
    forall i :: 0 < i < |s| && k <= (i - 1) / 2 ==> Ordered(o, s, i)
  }

  /** The heap invariant. */
  predicate IsHeap(o: Order, s: seq<int>) {
    HeapFrom(o, s, 0)
  }

  /** The heap invariant from `start`, except possibly between `pos` and
    * its parent. */
  predicate HeapExcept(o: Order, s: seq<int>, start: int, pos: int) {
    forall i :: 0 < i < |s| && start <= (i - 1) / 2 && i != pos ==> Ordered(o, s, i)
  }

  /** The heap invariant from `start` on every link that does not touch
    * the hole at `hole`. */
  predicate HeapAround(o: Order, s: seq<int>, start: int, hole: int) {
    forall i :: 0 < i < |s| && start <= (i - 1) / 2 && i != hole && (i - 1) / 2 != hole ==> Ordered(o, s, i)
  }

  /** The children of `p` are not ahead of `p`'s parent. */
  predicate BelowGrandparent(o: Order, s: seq<int>, p: nat) {
    p > 0
    && (2 * p + 1 < |s| ==> !Before(o, s[2 * p + 1], s[(p - 1) / 2]))
    && (2 * p + 2 < |s| ==> !Before(o, s[2 * p + 2], s[(p - 1) / 2]))
  }

  /** `pos` lies in the subtree rooted at `start`. */
  predicate Descends(pos: nat, start: nat)
    decreases pos
  {
    pos == start || (pos > start && Descends((pos - 1) / 2, start))
  }

  lemma {:induction false} DescendsFromRoot(pos: nat)
    ensures Descends(pos, 0)
    decreases pos
  {
    if pos > 0 {
      DescendsFromRoot((pos - 1) / 2);
    }
  }

  /** The root of a heap is ahead of, or level with, every element. */
  lemma RootFirst(o: Order, s: seq<int>)
    requires IsHeap(o, s)
    ensures forall i :: 0 <= i < |s| ==> !Before(o, s[i], s[0])
  {
    forall i | 0 <= i < |s|
      ensures !Before(o, s[i], s[0])
    {
      RootFirstAt(o, s, i);
    }
  }

  lemma {:induction false} RootFirstAt(o: Order, s: seq<int>, i: nat)
    requires IsHeap(o, s) && i < |s|
    ensures !Before(o, s[i], s[0])
    decreases i
  {
    if i > 0 {
      assert Ordered(o, s, i);
      RootFirstAt(o, s, (i - 1) / 2);
    }
  }

  /** `_siftdown` / `_siftdown_max`: `pos` is a leaf whose value may be
    * ahead of its parent, and the heap invariant holds from `startpos`
    * elsewhere; the value moves up until it is not ahead of its parent or
    * reaches `startpos`. */
  method SiftDown(o: Order, a: array<int>, startpos: nat, pos: nat)
    requires startpos <= pos < a.Length && 2 * pos + 1 >= a.Length
    requires Descends(pos, startpos)
    requires HeapExcept(o, a[..], startpos, pos)
    modifies a
    ensures HeapFrom(o, a[..], startpos)
    ensures multiset(a[..]) == multiset(old(a[..]))
  {
    ghost var whole := multiset(a[..]);
    var newitem := a[pos];
    var p := pos;
    assert a[..][p := newitem] == a[..];
    while p > startpos
      invariant startpos <= p <= pos && Descends(p, startpos)
      invariant multiset(a[..][p := newitem]) == whole
      invariant HeapExcept(o, a[..][p := newitem], startpos, p)
      invariant p > startpos ==> BelowGrandparent(o, a[..], p)
      decreases p
    {
      var parentpos := (p - 1) / 2;
      var parent := a[parentpos];
      if Before(o, newitem, parent) {
        SiftDownStep(o, a[..], startpos, p, newitem);
        a[p] := parent;
        p := parentpos;
      } else {
        SiftDownStop(o, a[..], startpos, p, newitem);
        break;
      }
    }
    a[p] := newitem;
  }

  /** One step of `_siftdown`: the parent moves down into the hole at `p`. */
  lemma SiftDownStep(o: Order, s: seq<int>, startpos: nat, p: nat, newitem: int)
    requires startpos < p < |s| && Descends(p, startpos)
    requires Before(o, newitem, s[(p - 1) / 2])
    requires HeapExcept(o, s[p := newitem], startpos, p)
    requires BelowGrandparent(o, s, p)
    ensures var q := (p - 1) / 2;
            var t := s[p := s[q]];
            Descends(q, startpos)
            && HeapExcept(o, t[q := newitem], startpos, q)
            && (q > startpos ==> BelowGrandparent(o, t, q))
            && multiset(t[q := newitem]) == multiset(s[p := newitem])
  {
    var q := (p - 1) / 2;
    var t := s[p := s[q]];
    var b := s[p := newitem];
    var b' := t[q := newitem];
    forall i | 0 < i < |s| && startpos <= (i - 1) / 2 && i != q
      ensures Ordered(o, b', i)
    {
      SiftDownLink(o, s, startpos, p, newitem, i);
    }
    if q > startpos {
      SiftDownGrandparent(o, s, startpos, p, newitem);
    }
    MovedKeepsMultiset(s, p, q, newitem);
  }

  /** Moving the value at `q` into `p`, with the hole's value going to
    * `q` instead of `p`, keeps the multiset. */
  lemma MovedKeepsMultiset(s: seq<int>, p: nat, q: nat, x: int)
    requires p < |s| && q < |s| && p != q
    ensures multiset(s[p := s[q]][q := x]) == multiset(s[p := x])
  {
    var b := s[p := x];
    assert s[p := s[q]][q := x] == b[p := b[q]][q := b[p]];
  }

  lemma SiftDownLink(o: Order, s: seq<int>, startpos: nat, p: nat, newitem: int, i: nat)
    requires startpos < p < |s|
    requires Before(o, newitem, s[(p - 1) / 2])
    requires HeapExcept(o, s[p := newitem], startpos, p)
    requires BelowGrandparent(o, s, p)
    requires 0 < i < |s| && startpos <= (i - 1) / 2 && i != (p - 1) / 2
    ensures Ordered(o, s[p := s[(p - 1) / 2]][(p - 1) / 2 := newitem], i)
  {
    var q := (p - 1) / 2;
    var pi := (i - 1) / 2;
    var b := s[p := newitem];
    if i == p {
    } else if pi == q {
      assert Ordered(o, b, i);
    } else if pi == p {
      assert i == 2 * p + 1 || i == 2 * p + 2;
    } else {
      assert Ordered(o, b, i);
    }
  }

  lemma SiftDownGrandparent(o: Order, s: seq<int>, startpos: nat, p: nat, newitem: int)
    requires startpos < p < |s| && Descends(p, startpos)
    requires HeapExcept(o, s[p := newitem], startpos, p)
    requires (p - 1) / 2 > startpos
    ensures BelowGrandparent(o, s[p := s[(p - 1) / 2]], (p - 1) / 2)
  {
    var q := (p - 1) / 2;
    var b := s[p := newitem];
    assert Descends(q, startpos);
    assert Descends((q - 1) / 2, startpos);
    assert Ordered(o, b, q);
    if 2 * q + 1 < |s| && 2 * q + 1 != p {
      assert Ordered(o, b, 2 * q + 1);
    }
    if 2 * q + 2 < |s| && 2 * q + 2 != p {
      assert Ordered(o, b, 2 * q + 2);
    }
  }

  /** `_siftdown` stops: the value is not ahead of its parent. */
  lemma SiftDownStop(o: Order, s: seq<int>, startpos: nat, p: nat, newitem: int)
    requires startpos < p < |s|
    requires !Before(o, newitem, s[(p - 1) / 2])
    requires HeapExcept(o, s[p := newitem], startpos, p)
    ensures HeapFrom(o, s[p := newitem], startpos)
  {
    assert Ordered(o, s[p := newitem], p);
  }

  /** `_siftup` / `_siftup_max`: with the heap invariant below `pos`, the
    * hole at `pos` moves down to a leaf along the path of leading
    * children, the old value goes there, and `_siftdown` moves it back up;
    * afterwards the invariant holds from `pos`. */
  method SiftUp(o: Order, a: array<int>, pos: nat)
    requires pos < a.Length
    requires HeapFrom(o, a[..], pos + 1)
    modifies a
    ensures HeapFrom(o, a[..], pos)
    ensures multiset(a[..]) == multiset(old(a[..]))
  {
    ghost var whole := multiset(a[..]);
    var endpos := a.Length;
    var startpos := pos;
    var newitem := a[pos];
    var p := pos;
    var childpos := 2 * p + 1;
    assert a[..][p := newitem] == a[..];
    while childpos < endpos
      invariant startpos <= p < endpos && childpos == 2 * p + 1 && Descends(p, startpos)
      invariant multiset(a[..][p := newitem]) == whole
      invariant HeapAround(o, a[..], startpos, p)
      invariant p > startpos ==> BelowGrandparent(o, a[..], p)
      decreases endpos - p
    {
      var rightpos := childpos + 1;
      if rightpos < endpos && !Before(o, a[childpos], a[rightpos]) {
        childpos := rightpos;
      }
      ghost var before := a[..];
      SiftUpStep(o, before, startpos, p, childpos, newitem);
      a[p] := a[childpos];
      assert a[..] == before[p := before[childpos]];
      p := childpos;
      childpos := 2 * p + 1;
    }
    ghost var hole := a[..];
    LeafPlaced(o, hole, startpos, p, newitem);
    a[p] := newitem;
    assert a[..] == hole[p := newitem];
    SiftDown(o, a, startpos, p);
  }

  /** One step of `_siftup`: the leading child `c` moves up into the hole
    * at `p`. */
  lemma SiftUpStep(o: Order, s: seq<int>, startpos: nat, p: nat, c: nat, newitem: int)
    requires startpos <= p && (c == 2 * p + 1 || c == 2 * p + 2) && c < |s| && Descends(p, startpos)
    requires c == 2 * p + 1 && c + 1 < |s| ==> !Before(o, s[c + 1], s[c])
    requires c == 2 * p + 2 ==> !Before(o, s[c - 1], s[c])
    requires HeapAround(o, s, startpos, p)
    requires p > startpos ==> BelowGrandparent(o, s, p)
    ensures var t := s[p := s[c]];
            Descends(c, startpos)
            && HeapAround(o, t, startpos, c)
            && BelowGrandparent(o, t, c)
            && multiset(t[c := newitem]) == multiset(s[p := newitem])
  {
    var t := s[p := s[c]];
    forall i | 0 < i < |s| && startpos <= (i - 1) / 2 && i != c && (i - 1) / 2 != c
      ensures Ordered(o, t, i)
    {
      SiftUpLink(o, s, startpos, p, c, i);
    }
    SiftUpGrandparent(o, s, startpos, p, c);
    MovedKeepsMultiset(s, p, c, newitem);
  }

  lemma SiftUpLink(o: Order, s: seq<int>, startpos: nat, p: nat, c: nat, i: nat)
    requires startpos <= p && (c == 2 * p + 1 || c == 2 * p + 2) && c < |s|
    requires c == 2 * p + 1 && c + 1 < |s| ==> !Before(o, s[c + 1], s[c])
    requires c == 2 * p + 2 ==> !Before(o, s[c - 1], s[c])
    requires HeapAround(o, s, startpos, p)
    requires p > startpos ==> BelowGrandparent(o, s, p)
    requires 0 < i < |s| && startpos <= (i - 1) / 2 && i != c && (i - 1) / 2 != c
    ensures Ordered(o, s[p := s[c]], i)
  {
    var pi := (i - 1) / 2;
    if i == p {
    } else if pi == p {
      assert i == 2 * p + 1 || i == 2 * p + 2;
    } else {
      assert Ordered(o, s, i);
    }
  }

  lemma SiftUpGrandparent(o: Order, s: seq<int>, startpos: nat, p: nat, c: nat)
    requires startpos <= p && (c == 2 * p + 1 || c == 2 * p + 2) && c < |s|
    requires HeapAround(o, s, startpos, p)
    ensures BelowGrandparent(o, s[p := s[c]], c)
  {
    assert (c - 1) / 2 == p;
    if 2 * c + 1 < |s| {
      assert Ordered(o, s, 2 * c + 1);
    }
    if 2 * c + 2 < |s| {
      assert Ordered(o, s, 2 * c + 2);
    }
  }

  /** The value placed at the leaf the hole reached leaves only the link to
    * its parent to check. */
  lemma LeafPlaced(o: Order, s: seq<int>, startpos: nat, p: nat, newitem: int)
    requires p < |s| && 2 * p + 1 >= |s|
    requires HeapAround(o, s, startpos, p)
    ensures HeapExcept(o, s[p := newitem], startpos, p)
  {
    var t := s[p := newitem];
    forall i | 0 < i < |s| && startpos <= (i - 1) / 2 && i != p
      ensures Ordered(o, t, i)
    {
      assert Ordered(o, s, i);
    }
  }

  /** A new last element leaves every other link of a heap intact. */
  lemma Appended(o: Order, s: seq<int>, x: int)
    requires IsHeap(o, s)
    ensures HeapExcept(o, s + [x], 0, |s|)
  {
    var t := s + [x];
    forall i | 0 < i < |t| && 0 <= (i - 1) / 2 && i != |s|
      ensures Ordered(o, t, i)
    {
      assert Ordered(o, s, i);
    }
  }

  /** Dropping the last element, or overwriting the root, leaves the links
    * below the root intact. */
  lemma RootReplaced(o: Order, s: seq<int>, n: nat, x: int)
    requires IsHeap(o, s) && 0 < n <= |s|
    ensures IsHeap(o, s[..n]) && HeapFrom(o, s[..n][0 := x], 1)
  {
    var t := s[..n];
    var u := t[0 := x];
    forall i | 0 < i < n
      ensures Ordered(o, t, i) && ((i - 1) / 2 >= 1 ==> Ordered(o, u, i))
    {
      assert Ordered(o, s, i);
    }
  }

  /** `heapify` / `_heapify_max`: sifting every parent, last first, turns
    * the list into a heap in place. */
  method Heapify(o: Order, x: array<int>)
    modifies x
    ensures IsHeap(o, x[..])
    ensures multiset(x[..]) == multiset(old(x[..]))
  {
    var n := x.Length;
    var i := n / 2;
    while i > 0
      invariant 0 <= i <= n / 2
      invariant HeapFrom(o, x[..], i)
      invariant multiset(x[..]) == multiset(old(x[..]))
    {
      i := i - 1;
      SiftUp(o, x, i);
    }
  }

  /** `heappush`: the list grows by the item at the end, which then moves
    * up. */
  method HeapPush(heap: array<int>, item: int) returns (h: array<int>)
    requires IsHeap(Min, heap[..])
    ensures fresh(h) && h.Length == heap.Length + 1
    ensures IsHeap(Min, h[..])
    ensures multiset(h[..]) == multiset(heap[..]) + multiset{item}
  {
    var n := heap.Length;
    Appended(Min, heap[..], item);
    ghost var hs := heap[..];
    h := new int[n + 1](i => 0);
    forall i | 0 <= i < n {
      h[i] := heap[i];
    }
    h[n] := item;
    assert h[..] == hs + [item];
    DescendsFromRoot(n);
    SiftDown(Min, h, 0, n);
    assert multiset(hs + [item]) == multiset(hs) + multiset{item};
    assert heap[..] == hs;
    assert multiset(h[..]) == multiset(hs + [item]);
  }

  /** `heappop`: an empty list raises IndexError (from `list.pop`);
    * otherwise the root is returned, the last element takes its place and
    * moves down. */
  method HeapPop(heap: array<int>) returns (r: Result<int>, h: array<int>)
    requires IsHeap(Min, heap[..])
    ensures heap.Length == 0 ==> r == Err(IndexError) && h == heap
    ensures heap.Length > 0 ==> r.Ok? && r.value == heap[0] && h.Length == heap.Length - 1
                                && multiset(h[..]) + multiset{r.value} == multiset(heap[..])
                                && (forall i :: 0 <= i < h.Length ==> r.value <= h[i])
    ensures IsHeap(Min, h[..])
  {
    var n := heap.Length;
    if n == 0 {
      return Err(IndexError), heap;
    }
    ghost var hs := heap[..];
    var lastelt := heap[n - 1];
    RootFirst(Min, hs);
    h := new int[n - 1](i requires 0 <= i < n - 1 reads heap => heap[i]);
    assert h[..] == hs[..n - 1];
    if n - 1 > 0 {
      // the remaining steps are those of `heapreplace`
      RootReplaced(Min, hs, n - 1, lastelt);
      assert hs == hs[..n - 1] + [lastelt];
      r := HeapReplace(h, lastelt);
    } else {
      r := Ok(lastelt);
    }
    PoppedIsLeast(hs, h[..], r.value);
  }

  /** Every element left after taking out the root is not below it. */
  lemma PoppedIsLeast(old_: seq<int>, s: seq<int>, root: int)
    requires |old_| > 0 && root == old_[0]
    requires forall i :: 0 <= i < |old_| ==> !Before(Min, old_[i], old_[0])
    requires multiset(s) + multiset{root} == multiset(old_)
    ensures forall i :: 0 <= i < |s| ==> root <= s[i]
  {
    forall i | 0 <= i < |s|
      ensures root <= s[i]
    {
      assert s[i] in multiset(old_);
    }
  }

  /** `heapreplace`: an empty list raises IndexError; otherwise the root is
    * returned and the item takes its place, the size unchanged. */
  method HeapReplace(heap: array<int>, item: int) returns (r: Result<int>)
    requires IsHeap(Min, heap[..])
    modifies heap
    ensures heap.Length == 0 ==> r == Err(IndexError)
    ensures heap.Length > 0 ==> r.Ok? && r.value == old(heap[0])
                                && multiset(heap[..]) + multiset{r.value} == multiset(old(heap[..])) + multiset{item}
    ensures heap.Length == 0 ==> heap[..] == old(heap[..])
    ensures IsHeap(Min, heap[..])
  {
    if heap.Length == 0 {
      return Err(IndexError);
    }
    var returnitem := heap[0];
    RootReplaced(Min, heap[..], heap.Length, item);
    assert heap[..][..heap.Length] == heap[..];
    heap[0] := item;
    SiftUp(Min, heap, 0);
    r := Ok(returnitem);
  }

  /** `heappushpop` / `_heappushpop_max`: the item is returned at once
    * unless the root is strictly ahead of it, in which case the root is
    * returned and the item moves down from the top. The result is ahead
    * of, or level with, everything left, and the root never falls back. */
  method HeapPushPop(o: Order, heap: array<int>, item: int) returns (out: int)
    requires IsHeap(o, heap[..])
    modifies heap
    ensures out == if heap.Length > 0 && Before(o, old(heap[0]), item) then old(heap[0]) else item
    ensures multiset(heap[..]) + multiset{out} == multiset(old(heap[..])) + multiset{item}
    ensures IsHeap(o, heap[..])
    ensures forall i :: 0 <= i < heap.Length ==> !Before(o, heap[i], out)
    ensures heap.Length > 0 ==> !Before(o, heap[0], old(heap[0]))
  {
    RootFirst(o, heap[..]);
    ghost var before := heap[..];
    if heap.Length > 0 && Before(o, heap[0], item) {
      out := heap[0];
      RootReplaced(o, heap[..], heap.Length, item);
      assert heap[..][..heap.Length] == heap[..];
      heap[0] := item;
      SiftUp(o, heap, 0);
      PushPopOutFirst(o, before, heap[..], item, out);
    } else {
      out := item;
    }
  }

  lemma PushPopOutFirst(o: Order, old_: seq<int>, s: seq<int>, item: int, out: int)
    requires |old_| > 0 && out == old_[0] && Before(o, out, item)
    requires forall i :: 0 <= i < |old_| ==> !Before(o, old_[i], old_[0])
    requires multiset(s) + multiset{out} == multiset(old_) + multiset{item}
    ensures forall i :: 0 <= i < |s| ==> !Before(o, s[i], out)
  {
    forall i | 0 <= i < |s|
      ensures !Before(o, s[i], out)
    {
      assert s[i] in multiset(old_) + multiset{item};
    }
  }

  /** No later element is ahead of an earlier one. */
  predicate SortedBy(o: Order, s: seq<int>) {
    forall i, j :: 0 <= i < j < |s| ==> !Before(o, s[j], s[i])
  }

  /** Inserts `x` into a sorted sequence before the first element it is
    * ahead of. */
  function Insert(o: Order, x: int, s: seq<int>): (r: seq<int>)
    requires SortedBy(o, s)
    ensures SortedBy(o, r) && multiset(r) == multiset(s) + multiset{x} && |r| == |s| + 1
    decreases |s|
  {
    if s == [] || !Before(o, s[0], x) then
      InsertFront(o, x, s);
      [x] + s
    else
      var rest := Insert(o, x, s[1..]);
      InsertBehind(o, x, s, rest);
      [s[0]] + rest
  }

  lemma ConsSorted(o: Order, h: int, t: seq<int>)
    requires SortedBy(o, t)
    requires forall k :: 0 <= k < |t| ==> !Before(o, t[k], h)
    ensures SortedBy(o, [h] + t)
  {
    var r := [h] + t;
    forall i, j | 0 <= i < j < |r|
      ensures !Before(o, r[j], r[i])
    {
      assert r[j] == t[j - 1];
      if i > 0 {
        assert r[i] == t[i - 1];
      }
    }
  }

  lemma InsertFront(o: Order, x: int, s: seq<int>)
    requires SortedBy(o, s)
    requires s == [] || !Before(o, s[0], x)
    ensures SortedBy(o, [x] + s)
  {
    forall k | 0 <= k < |s|
      ensures !Before(o, s[k], x)
    {
      if k > 0 {
        assert !Before(o, s[k], s[0]);
      }
    }
    ConsSorted(o, x, s);
  }

  lemma InsertBehind(o: Order, x: int, s: seq<int>, rest: seq<int>)
    requires SortedBy(o, s) && s != [] && Before(o, s[0], x)
    requires SortedBy(o, rest) && multiset(rest) == multiset(s[1..]) + multiset{x}
    ensures SortedBy(o, [s[0]] + rest)
    ensures multiset([s[0]] + rest) == multiset(s) + multiset{x}
  {
    assert s == [s[0]] + s[1..];
    forall k | 0 <= k < |rest|
      ensures !Before(o, rest[k], s[0])
    {
      assert rest[k] in multiset(s[1..]) + multiset{x};
      if rest[k] != x {
        assert rest[k] in s[1..];
        var m :| 0 <= m < |s[1..]| && s[1..][m] == rest[k];
        assert s[m + 1] == rest[k];
      }
    }
    ConsSorted(o, s[0], rest);
  }

  /** `sorted` / `list.sort`, ascending for Min and `reverse=True` for
    * Max: a sorted permutation, built by insertion. */
  function Sort(o: Order, s: seq<int>): (r: seq<int>)
    ensures SortedBy(o, r) && multiset(r) == multiset(s) && |r| == |s|
    decreases |s|
  {
    if s == [] then []
    else
      assert s == s[..|s| - 1] + [s[|s| - 1]];
      Insert(o, s[|s| - 1], Sort(o, s[..|s| - 1]))
  }

  /** `min` / `max` of a non-empty list: its first leading element. */
  function Extreme(o: Order, s: seq<int>): (r: int)
    requires |s| > 0
    ensures r in s && forall i :: 0 <= i < |s| ==> !Before(o, s[i], r)
    decreases |s|
  {
    if |s| == 1 then s[0]
    else
      var rest := Extreme(o, s[1..]);
      assert forall i :: 1 <= i < |s| ==> s[i] == s[1..][i - 1];
      if Before(o, rest, s[0]) then rest else s[0]
  }

  /** `r` is the `k` elements of `xs` that come first under `o`, in that
    * order: a sub-multiset of `xs`, sorted, with nothing left out ahead of
    * anything kept. */
  predicate FirstK(o: Order, xs: seq<int>, k: nat, r: seq<int>) {
    |r| == k && SortedBy(o, r) && multiset(r) <= multiset(xs)
    && forall x, y :: x in multiset(r) && y in multiset(xs) - multiset(r) ==> !Before(o, y, x)
  }

  /** How many elements `nsmallest(n, xs)` returns. */
  function Count(n: int, size: nat): nat {
    if n < 0 then 0 else if n < size then n else size
  }

  /** `_nsmallest` (`o` = Min) / `_nlargest` (`o` = Max): the first `n`
    * elements form a heap of the opposite order, each later element is
    * pushed and the root popped, and the survivors are sorted. */
  method HeapSelect(o: Order, n: int, xs: seq<int>) returns (r: seq<int>)
    ensures FirstK(o, xs, Count(n, |xs|), r)
  {
    if n < 0 {
      return [];
    }
    var k := if n < |xs| then n else |xs|;
    if k == 0 {
      return [];
    }
    var result := new int[k](i requires 0 <= i < k => xs[i]);
    assert result[..] == xs[..k];
    var heapOrder := Opposite(o);
    Heapify(heapOrder, result);
    ghost var discarded: multiset<int> := multiset{};
    for i := k to |xs|
      invariant result.Length == k
      invariant IsHeap(heapOrder, result[..])
      invariant multiset(result[..]) + discarded == multiset(xs[..i])
      invariant forall d :: d in discarded ==> !Before(o, d, result[0])
    {
      ghost var before := result[..];
      var out := HeapPushPop(heapOrder, result, xs[i]);
      SelectStep(o, before, result[..], discarded, xs[..i], xs[i], out);
      assert xs[..i + 1] == xs[..i] + [xs[i]];
      discarded := discarded + multiset{out};
    }
    assert xs[..|xs|] == xs;
    RootFirst(heapOrder, result[..]);
    r := Sort(o, result[..]);
    SelectedFirst(o, xs, result[..], discarded, r);
  }

  /** One `heappushpop` of `_nsmallest` keeps the kept elements a heap
    * whose root is not behind anything discarded. */
  lemma SelectStep(o: Order, before: seq<int>, after: seq<int>, discarded: multiset<int>,
                   seen: seq<int>, item: int, out: int)
    requires |before| > 0 && |after| == |before|
    requires multiset(before) + discarded == multiset(seen)
    requires forall d :: d in discarded ==> !Before(o, d, before[0])
    requires multiset(after) + multiset{out} == multiset(before) + multiset{item}
    requires !Before(Opposite(o), after[0], out)
    requires !Before(Opposite(o), after[0], before[0])
    ensures multiset(after) + (discarded + multiset{out}) == multiset(seen + [item])
    ensures forall d :: d in discarded + multiset{out} ==> !Before(o, d, after[0])
  {
    calc {
      multiset(after) + (discarded + multiset{out});
      (multiset(after) + multiset{out}) + discarded;
      (multiset(before) + discarded) + multiset{item};
      multiset(seen) + multiset{item};
      multiset(seen + [item]);
    }
  }

  lemma SelectedFirst(o: Order, xs: seq<int>, h: seq<int>, discarded: multiset<int>, r: seq<int>)
    requires |h| > 0
    requires multiset(h) + discarded == multiset(xs)
    requires forall i :: 0 <= i < |h| ==> !Before(Opposite(o), h[i], h[0])
    requires forall d :: d in discarded ==> !Before(o, d, h[0])
    requires SortedBy(o, r) && multiset(r) == multiset(h) && |r| == |h|
    ensures FirstK(o, xs, |h|, r)
  {
    assert multiset(xs) - multiset(r) == discarded;
    forall x, y | x in multiset(r) && y in multiset(xs) - multiset(r)
      ensures !Before(o, y, x)
    {
      assert x in h;
    }
  }

  /** `nsmallest(n, xs)` (`o` = Min) and `nlargest(n, xs)` (`o` = Max)
    * without a key: `n == 1` takes `min` / `max`, an `n` covering the
    * whole list sorts it, and anything else selects through a heap. */
  method NFirst(o: Order, n: int, xs: seq<int>) returns (r: seq<int>)
    ensures FirstK(o, xs, Count(n, |xs|), r)
    ensures r == Sort(o, xs)[..Count(n, |xs|)]
  {
    if n == 1 {
      if |xs| == 0 {
        return [];
      }
      var m := Extreme(o, xs);
      r := [m];
      ExtremeIsFirst(o, xs, m);
    } else if n >= |xs| {
      r := Sort(o, xs);
      SortedPrefixIsFirst(o, xs, |xs|);
    } else {
      r := HeapSelect(o, n, xs);
    }
    FirstKIsSortedPrefix(o, xs, Count(n, |xs|), r);
  }

  lemma ExtremeIsFirst(o: Order, xs: seq<int>, m: int)
    requires m in xs && forall i :: 0 <= i < |xs| ==> !Before(o, xs[i], m)
    ensures FirstK(o, xs, 1, [m])
  {
    forall x, y | x in multiset([m]) && y in multiset(xs) - multiset([m])
      ensures !Before(o, y, x)
    {
      assert y in xs;
    }
  }

  /** A prefix of the sorted list is a selection of what comes first. */
  lemma SortedPrefixIsFirst(o: Order, xs: seq<int>, k: nat)
    requires k <= |xs|
    ensures FirstK(o, xs, k, Sort(o, xs)[..k])
  {
    PrefixIsFirst(o, xs, Sort(o, xs), k);
  }

  lemma PrefixIsFirst(o: Order, xs: seq<int>, srt: seq<int>, k: nat)
    requires k <= |srt| && SortedBy(o, srt) && multiset(srt) == multiset(xs)
    ensures FirstK(o, xs, k, srt[..k])
  {
    var front, back := srt[..k], srt[k..];
    assert srt == front + back;
    assert multiset(srt) == multiset(front) + multiset(back);
    assert multiset(xs) - multiset(front) == multiset(back);
    PrefixSorted(o, srt, k);
    forall x, y | x in multiset(front) && y in multiset(xs) - multiset(front)
      ensures !Before(o, y, x)
    {
      assert x in front && y in back;
      PrefixLeads(o, srt, k, x, y);
    }
  }

  /** In a sorted list nothing behind position `k` is ahead of anything
    * before it. */
  lemma PrefixLeads(o: Order, srt: seq<int>, k: nat, x: int, y: int)
    requires k <= |srt| && SortedBy(o, srt)
    requires x in srt[..k] && y in srt[k..]
    ensures !Before(o, y, x)
  {
    var i :| 0 <= i < k && srt[..k][i] == x;
    var j :| 0 <= j < |srt| - k && srt[k..][j] == y;
    assert srt[i] == x && srt[k + j] == y;
  }

  lemma PrefixSorted(o: Order, s: seq<int>, k: nat)
    requires k <= |s| && SortedBy(o, s)
    ensures SortedBy(o, s[..k])
  {
    forall i, j | 0 <= i < j < k
      ensures !Before(o, s[..k][j], s[..k][i])
    {
      assert s[..k][i] == s[i] && s[..k][j] == s[j];
    }
  }

  /** A sub-multiset as large as the whole is the whole. */
  lemma SameSizeSubMultiset(a: multiset<int>, b: multiset<int>)
    requires b <= a && |b| == |a|
    ensures a == b
  {
    assert a == b + (a - b);
    assert |a - b| == 0;
  }

  /** Two selections of the same size keep the same elements. */
  lemma FirstKSameElements(o: Order, xs: seq<int>, k: nat, r1: seq<int>, r2: seq<int>)
    requires FirstK(o, xs, k, r1) && FirstK(o, xs, k, r2)
    ensures multiset(r1) == multiset(r2)
  {
    assert |multiset(r1)| == |r1| && |multiset(r2)| == |r2|;
    LeadingSubMultisetUnique(o, multiset(xs), multiset(r1), multiset(r2));
  }

  lemma LeadingSubMultisetUnique(o: Order, whole: multiset<int>, a: multiset<int>, b: multiset<int>)
    requires a <= whole && b <= whole && |a| == |b|
    requires forall x, y :: x in a && y in whole - a ==> !Before(o, y, x)
    requires forall x, y :: x in b && y in whole - b ==> !Before(o, y, x)
    ensures a == b
  {
    if b <= a {
      SameSizeSubMultiset(a, b);
    } else if a <= b {
      SameSizeSubMultiset(b, a);
    } else {
      Exceeds(a, b);
      Exceeds(b, a);
      var w :| b[w] > a[w];
      var v :| a[v] > b[v];
      // each exceeds its count in the other selection, so each is left
      // out of one selection while kept in the other
      var keptAndLeft := (w in b, v in whole - b, v in a, w in whole - a);
      assert false;
    }
  }

  /** A multiset that is not contained in another has an element it holds
    * more often. */
  lemma Exceeds(a: multiset<int>, b: multiset<int>)
    requires !(b <= a)
    ensures exists z :: b[z] > a[z]
  {
    if forall z :: b[z] <= a[z] {
      assert false;
    }
  }

  /** A sorted list is determined by its elements. */
  lemma {:induction false} SortedUnique(o: Order, r1: seq<int>, r2: seq<int>)
    requires SortedBy(o, r1) && SortedBy(o, r2) && multiset(r1) == multiset(r2)
    ensures r1 == r2
    decreases |r1|
  {
    assert |r1| == |multiset(r1)| == |r2|;
    if |r1| > 0 {
      assert r1[0] in multiset(r2) && r2[0] in multiset(r1);
      HeadLeads(o, r2, r1[0]);
      HeadLeads(o, r1, r2[0]);
      TailMultiset(r1);
      TailMultiset(r2);
      TailSorted(o, r1);
      TailSorted(o, r2);
      SortedUnique(o, r1[1..], r2[1..]);
    }
  }

  lemma TailMultiset(s: seq<int>)
    requires |s| > 0
    ensures multiset(s[1..]) == multiset(s) - multiset{s[0]}
  {
    assert s == [s[0]] + s[1..];
  }

  lemma HeadLeads(o: Order, s: seq<int>, x: int)
    requires SortedBy(o, s) && x in s
    ensures !Before(o, x, s[0])
  {
    var j :| 0 <= j < |s| && s[j] == x;
    if j > 0 {
      assert !Before(o, s[j], s[0]);
    }
  }

  lemma TailSorted(o: Order, s: seq<int>)
    requires |s| > 0 && SortedBy(o, s)
    ensures SortedBy(o, s[1..])
  {
    forall i, j | 0 <= i < j < |s| - 1
      ensures !Before(o, s[1..][j], s[1..][i])
    {
      assert s[1..][i] == s[i + 1] && s[1..][j] == s[j + 1];
    }
  }

  /** The elements that come first are determined by the list, so
    * `nsmallest(n, xs)` is `sorted(xs)[:n]` and `nlargest(n, xs)` is
    * `sorted(xs, reverse=True)[:n]`. */
  lemma FirstKIsSortedPrefix(o: Order, xs: seq<int>, k: nat, r: seq<int>)
    requires k <= |xs| && FirstK(o, xs, k, r)
    ensures r == Sort(o, xs)[..k]
  {
    SortedPrefixIsFirst(o, xs, k);
    FirstKSameElements(o, xs, k, r, Sort(o, xs)[..k]);
    SortedUnique(o, r, Sort(o, xs)[..k]);
  }
}
