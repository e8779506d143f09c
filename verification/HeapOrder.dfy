/** The binary-heap order of container/heap on a sequence of keys, and what one swap of up or down does to it. */
module HeapOrder {
  /** c is a child of i. */
  predicate Edge(i: int, c: int) { c == 2 * i + 1 || c == 2 * i + 2 }

  /** Every edge below n whose parent is lo or later is in order. */
  ghost predicate HeapFrom(ks: seq<int>, n: int, lo: int)
    requires 0 <= n <= |ks|
  {
    forall i, c :: lo <= i < c < n && 0 <= i && Edge(i, c) ==> ks[i] <= ks[c]
  }

  ghost predicate Heap(ks: seq<int>, n: int)
    requires 0 <= n <= |ks|
  {
    HeapFrom(ks, n, 0)
  }

  /** A heap whose entry j may be smaller than its parent. */
  ghost predicate HeapBelow(ks: seq<int>, n: int, j: int)
    requires 0 <= n <= |ks|
  {
    && (forall i, c :: 0 <= i < c < n && Edge(i, c) && c != j ==> ks[i] <= ks[c])
    && (forall i, c :: 0 <= i < j < c < n && Edge(i, j) && Edge(j, c) ==> ks[i] <= ks[c])
  }

  /** In order from lo on, but entry j may be larger than its children. */
  ghost predicate HeapAbove(ks: seq<int>, n: int, lo: int, j: int)
    requires 0 <= n <= |ks|
  {
    && (forall i, c :: lo <= i < c < n && 0 <= i && Edge(i, c) && i != j ==> ks[i] <= ks[c])
    && (forall i, c :: lo <= i < j < c < n && 0 <= i && Edge(i, j) && Edge(j, c) ==> ks[i] <= ks[c])
  }

  function Swapped(ks: seq<int>, i: int, j: int): seq<int>
    requires 0 <= i < |ks| && 0 <= j < |ks|
  {
    ks[i := ks[j]][j := ks[i]]
  }

  lemma UpStep(ks: seq<int>, n: int, i: int, j: int)
    requires 0 <= i < j < n <= |ks| && Edge(i, j) && HeapBelow(ks, n, j) && ks[j] < ks[i]
    ensures HeapBelow(Swapped(ks, i, j), n, i)
  {
  }

  lemma UpDone(ks: seq<int>, n: int, j: int)
    requires 0 <= j < n <= |ks| && HeapBelow(ks, n, j)
    requires j == 0 || ks[(j - 1) / 2] <= ks[j]
    ensures Heap(ks, n)
  {
    forall i, c | 0 <= i < c < n && Edge(i, c) ensures ks[i] <= ks[c] {
      assert c == j ==> i == (j - 1) / 2;
    }
  }

  /** j is the smaller child of i. */
  ghost predicate SmallerChild(ks: seq<int>, n: int, i: int, j: int)
    requires 0 <= n <= |ks|
  {
    0 <= i < j < n && Edge(i, j) && forall c :: i < c < n && Edge(i, c) ==> ks[j] <= ks[c]
  }

  lemma DownStep(ks: seq<int>, n: int, lo: int, i: int, j: int)
    requires 0 <= n <= |ks| && lo <= i && HeapAbove(ks, n, lo, i) && SmallerChild(ks, n, i, j) && ks[j] < ks[i]
    ensures HeapAbove(Swapped(ks, i, j), n, lo, j)
  {
  }

  lemma DownDone(ks: seq<int>, n: int, lo: int, i: int)
    requires 0 <= i && 0 <= n <= |ks| && HeapAbove(ks, n, lo, i)
    requires 2 * i + 1 >= n || exists j :: SmallerChild(ks, n, i, j) && ks[i] <= ks[j]
    ensures HeapFrom(ks, n, lo)
  {
  }

  /** Moving the last key of a heap to the root leaves only the root out of place. */
  lemma LastToRoot(ks: seq<int>, n: int)
    requires n + 1 == |ks| && n >= 0 && Heap(ks, n + 1)
    ensures HeapAbove(Swapped(ks, 0, n), n, 0, 0)
  {
  }

  /** The root of a heap is its least key. */
  lemma {:induction false} RootLeast(ks: seq<int>, n: int, i: int)
    requires 0 <= i < n <= |ks| && Heap(ks, n)
    ensures ks[0] <= ks[i]
    decreases i
  {
    if i == 0 {
    } else {
      var p := (i - 1) / 2;
      assert Edge(p, i);
      RootLeast(ks, n, p);
    }
  }
}
