/** The frontier: a binary min-heap kept in a list, ordered by
    `Webpages.Less`, in the manner of Python's `heapq.heappush` and
    `heapq.heappop`. The list is a value here; the crawler keeps it in a
    field and reassigns it after every push and pop. */
module Heapq {
  import opened Webpages

  /** Index of the parent of the element at index `i > 0`. */
  function Parent(i: int): int {
    (i - 1) / 2
  }

  /** The heap invariant: no element is smaller than its parent. */
  ghost predicate IsHeap(h: seq<Webpage>) {
    forall i {:trigger Parent(i)} :: 0 < i < |h| ==> !Less(h[i], h[Parent(i)])
  }

  /** The element at the top of a heap is a minimum of the heap. */
  lemma {:induction false} HeapTopIsMinimal(h: seq<Webpage>, j: int)
    requires IsHeap(h) && 0 <= j < |h|
    ensures !Less(h[j], h[0])
    decreases j
  {
    if j > 0 {
      HeapTopIsMinimal(h, Parent(j));
    }
  }

  /** `heappush(heap, item)`: append, then move the new item up while it
      is smaller than its parent. */
  method HeapPush(heap: seq<Webpage>, item: Webpage) returns (r: seq<Webpage>)
    requires IsHeap(heap)
    ensures IsHeap(r)
    ensures multiset(r) == multiset(heap) + multiset{item}
  {
    r := heap + [item];
    var pos := |heap|;
    while pos > 0
      invariant 0 <= pos < |r| == |heap| + 1
      invariant multiset(r) == multiset(heap) + multiset{item}
      invariant HeapAbove(r, pos)
    {
      var parent := Parent(pos);
      if !Less(r[pos], r[parent]) {
        break;
      }
      SiftUpStep(r, pos);
      SwapKeepsElements(r, pos, parent);
      r := r[pos := r[parent]][parent := r[pos]];
      pos := parent;
    }
  }

  /** The heap invariant holds everywhere except between the element at
      `pos` and its parent, and the children of `pos` are not smaller
      than the parent of `pos`. */
  ghost predicate HeapAbove(r: seq<Webpage>, pos: int) {
    (forall i {:trigger Parent(i)} :: 0 < i < |r| && i != pos ==> !Less(r[i], r[Parent(i)]))
    && (pos > 0 ==> forall i {:trigger Parent(i)} :: 0 < i < |r| && Parent(i) == pos ==> !Less(r[i], r[Parent(pos)]))
  }

  /** Swapping the element at `pos` with its parent, when it is smaller
      than the parent, moves the gap in the heap invariant up to the
      parent. */
  lemma SiftUpStep(r: seq<Webpage>, pos: nat)
    requires 0 < pos < |r| && HeapAbove(r, pos) && Less(r[pos], r[Parent(pos)])
    ensures HeapAbove(r[pos := r[Parent(pos)]][Parent(pos) := r[pos]], Parent(pos))
  {
    var parent := Parent(pos);
    var r' := r[pos := r[parent]][parent := r[pos]];
    forall i | 0 < i < |r'| && i != parent ensures !Less(r'[i], r'[Parent(i)]) {
      if Parent(i) == parent && i != pos {
        assert r'[i] == r[i];
        LessIsStrictWeakOrder(r[pos], r[parent], r[i]);
      }
    }
    if parent > 0 {
      forall i | 0 < i < |r'| && Parent(i) == parent ensures !Less(r'[i], r'[Parent(parent)]) {
        assert Parent(parent) != pos;
        if i != pos {
          assert r'[i] == r[i];
        }
      }
    }
  }

  /** `heappop(heap)` on a non-empty heap: take the top, move the last
      element to the top and move it down below its smaller child while
      that child is smaller. What is returned has no element of the heap
      strictly before it; everything else stays in the heap. */
  method HeapPop(heap: seq<Webpage>) returns (item: Webpage, r: seq<Webpage>)
    requires IsHeap(heap) && |heap| > 0
    ensures IsHeap(r)
    ensures multiset(r) + multiset{item} == multiset(heap)
    ensures item in heap && forall u :: u in heap ==> !Less(u, item)
  {
    forall u | u in heap ensures !Less(u, heap[0]) {
      var j :| 0 <= j < |heap| && heap[j] == u;
      HeapTopIsMinimal(heap, j);
    }
    var last := heap[|heap| - 1];
    r := heap[..|heap| - 1];
    assert heap == r + [last];
    if r == [] {
      item := last;
      return;
    }
    item := r[0];
    r := SiftDown(r[0 := last]);
  }

  /** The heap invariant holds everywhere except between the element at
      `pos` and its children, and the children of `pos` are not smaller
      than the parent of `pos`. */
  ghost predicate HeapBelow(r: seq<Webpage>, pos: int) {
    (forall i {:trigger Parent(i)} :: 0 < i < |r| && Parent(i) != pos ==> !Less(r[i], r[Parent(i)]))
    && (pos > 0 ==> forall i {:trigger Parent(i)} :: 0 < i < |r| && Parent(i) == pos ==> !Less(r[i], r[Parent(pos)]))
  }

  /** Swapping the element at `pos` with its smaller child, when that
      child is smaller, moves the gap in the heap invariant down to the
      child. */
  lemma SiftDownStep(r: seq<Webpage>, pos: nat, child: nat)
    requires HeapBelow(r, pos)
    requires child < |r| && Parent(child) == pos && Less(r[child], r[pos])
    requires forall i {:trigger Parent(i)} :: 0 < i < |r| && Parent(i) == pos ==> !Less(r[i], r[child])
    ensures HeapBelow(r[pos := r[child]][child := r[pos]], child)
  {
    var r' := r[pos := r[child]][child := r[pos]];
    forall i | 0 < i < |r'| && Parent(i) != child ensures !Less(r'[i], r'[Parent(i)]) {
      if i != pos && i != child && Parent(i) == pos {
        assert r'[i] == r[i];
      }
    }
  }

  /** Once the element at `pos` is not larger than its children, the
      gap is closed. */
  lemma SiftDownDone(r: seq<Webpage>, pos: nat)
    requires HeapBelow(r, pos)
    requires forall i {:trigger Parent(i)} :: 0 < i < |r| && Parent(i) == pos ==> !Less(r[i], r[pos])
    ensures IsHeap(r)
  {
  }

  /** Exchanging two elements only rearranges a sequence. */
  lemma SwapKeepsElements(r: seq<Webpage>, i: nat, j: nat)
    requires i < |r| && j < |r|
    ensures multiset(r[i := r[j]][j := r[i]]) == multiset(r)
  {
  }

  /** The child of `pos` to compare with: the right child when there is
      one and the left child is not smaller than it, else the left child.
      No child of `pos` is smaller than it. */
  function SmallerChild(r: seq<Webpage>, pos: nat): (c: nat)
    requires 2 * pos + 1 < |r|
    ensures c < |r| && Parent(c) == pos
    ensures forall i {:trigger Parent(i)} :: 0 < i < |r| && Parent(i) == pos ==> !Less(r[i], r[c])
  {
    var left, right := 2 * pos + 1, 2 * pos + 2;
    assert Parent(left) == pos && Parent(right) == pos;
    if right < |r| && !Less(r[left], r[right]) then right else left
  }

  /** Restores the heap invariant when only the top element may be out of
      place, by moving it down below its smaller child while that child is
      smaller; the elements are only rearranged. */
  method SiftDown(h: seq<Webpage>) returns (r: seq<Webpage>)
    requires HeapBelow(h, 0)
    ensures IsHeap(r)
    ensures multiset(r) == multiset(h)
  {
    r := h;
    var pos := 0;
    while true
      invariant 0 <= pos && |r| == |h|
      invariant pos < |r| || |r| == 0
      invariant multiset(r) == multiset(h)
      invariant HeapBelow(r, pos)
      decreases |r| - pos
    {
      if 2 * pos + 1 >= |r| {
        SiftDownDone(r, pos);
        return;
      }
      var child := SmallerChild(r, pos);
      if !Less(r[child], r[pos]) {
        SiftDownDone(r, pos);
        return;
      }
      SiftDownStep(r, pos, child);
      SwapKeepsElements(r, pos, child);
      r := r[pos := r[child]][child := r[pos]];
      pos := child;
    }
  }
}
