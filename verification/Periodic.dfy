/**
 The min-heap of next fire times (periodic.go) with the operations of
 container/heap that run on it.
 */
module Periodic {
  import opened Calendar
  import opened Cron
  import opened HeapOrder

  /** A periodic declaration; the job options are not modelled. */
  datatype Periodic = Periodic(schedule: Schedule, worker: string, args: string)

  class CronEntry {
    const periodic: Periodic
    var next: Instant
    var index: int

    constructor (periodic: Periodic, next: Instant)
      ensures this.periodic == periodic && this.next == next && index == 0
    {
      this.periodic := periodic;
      this.next := next;
      index := 0;
    }
  }

  class CronHeap {
    var h: seq<CronEntry>

    ghost function Times(): seq<Instant>
      reads this, h
    {
      seq(|h|, i requires 0 <= i < |h| reads this, h => h[i].next)
    }

    ghost predicate Distinct()
      reads this
    {
      forall i, k :: 0 <= i < k < |h| ==> h[i] != h[k]
    }

    ghost predicate Indexed()
      reads this, h
    {
      forall i :: 0 <= i < |h| ==> h[i].index == i
    }

    ghost function Entries(): set<CronEntry>
      reads this
    {
      set e | e in h
    }

    ghost predicate Valid()
      reads this, h
    {
      Distinct() && Indexed() && Heap(Times(), |h|)
    }

    constructor ()
      ensures Valid() && h == []
    {
      h := [];
    }

    // ---- heap.Interface ----

    predicate Less(i: int, j: int)
      requires 0 <= i < |h| && 0 <= j < |h|
      reads this, h
    {
      h[i].next < h[j].next
    }

    method Swap(i: int, j: int)
      requires 0 <= i < |h| && 0 <= j < |h| && Distinct() && Indexed()
      modifies `h, Entries()`index
      ensures h == old(h)[i := old(h[j])][j := old(h[i])]
      ensures Distinct() && Indexed() && Entries() == old(Entries())
      ensures Times() == Swapped(old(Times()), i, j)
    {
      ghost var was := h;
      h := h[i := h[j]][j := h[i]];
      h[i].index := i;
      h[j].index := j;
      assert forall e :: e in h <==> e in was by {
        assert h[i] == was[j] && h[j] == was[i];
        forall e | e in was ensures e in h {
          var k :| 0 <= k < |was| && was[k] == e;
          assert k != i && k != j ==> h[k] == e;
        }
      }
    }

    /** Push of heap.Interface: append. */
    method Append(e: CronEntry)
      requires Distinct() && Indexed() && e !in Entries()
      modifies `h, e`index
      ensures h == old(h) + [e]
      ensures Distinct() && Indexed() && Entries() == old(Entries()) + {e}
      ensures Times() == old(Times()) + [e.next]
    {
      e.index := |h|;
      h := h + [e];
    }

    /** Pop of heap.Interface: remove the last element. */
    method RemoveLast() returns (e: CronEntry)
      requires |h| > 0 && Distinct() && Indexed()
      modifies `h, Entries()`index
      ensures e == old(h)[|old(h)| - 1] && h == old(h)[..|old(h)| - 1] && e.index == -1
      ensures Distinct() && Indexed() && Entries() == old(Entries()) - {e}
      ensures Times() == old(Times())[..|old(h)| - 1]
    {
      var n := |h|;
      e := h[n - 1];
      assert h == h[..n - 1] + [e];
      e.index := -1;
      h := h[..n - 1];
    }

    // ---- container/heap ----

    method Up(last: int)
      requires Distinct() && Indexed() && 0 <= last < |h| && HeapBelow(Times(), |h|, last)
      modifies `h, Entries()`index
      ensures Valid() && Entries() == old(Entries()) && |h| == old(|h|)
    {
      var j := last;
      while true
        invariant Distinct() && Indexed() && Entries() == old(Entries()) && |h| == old(|h|)
        invariant 0 <= j < |h| && HeapBelow(Times(), |h|, j)
        decreases j
      {
        var i := if j == 0 then 0 else (j - 1) / 2;  // Go's (j - 1) / 2 truncates
        if i == j || !Less(j, i) {
          UpDone(Times(), |h|, j);
          break;
        }
        UpStep(Times(), |h|, i, j);
        Swap(i, j);
        j := i;
      }
    }

    method Down(first: int, n: int, ghost lo: int)
      requires Distinct() && Indexed() && 0 <= lo <= first && 0 <= n <= |h| && HeapAbove(Times(), n, lo, first)
      modifies `h, Entries()`index
      ensures Distinct() && Indexed() && Entries() == old(Entries()) && |h| == old(|h|)
      ensures HeapFrom(Times(), n, lo)
      ensures h[n..] == old(h)[n..]
    {
      hide HeapAbove, HeapFrom, Swapped;
      var i := first;
      while true
        invariant Distinct() && Indexed() && Entries() == old(Entries()) && |h| == old(|h|)
        invariant lo <= i && HeapAbove(Times(), n, lo, i)
        invariant h[n..] == old(h)[n..]
        decreases n - i
      {
        var j1 := 2 * i + 1;
        if j1 >= n {
          DownDone(Times(), n, lo, i);
          break;
        }
        var j := j1;
        var j2 := j1 + 1;
        if j2 < n && Less(j2, j1) {
          j := j2;
        }
        assert SmallerChild(Times(), n, i, j);
        if !Less(j, i) {
          DownDone(Times(), n, lo, i);
          break;
        }
        DownStep(Times(), n, lo, i, j);
        Swap(i, j);
        i := j;
      }
    }

    method Push(e: CronEntry)
      requires Valid() && e !in Entries()
      modifies `h, Entries()`index, e`index
      ensures Valid() && Entries() == old(Entries()) + {e}
    {
      Append(e);
      Up(|h| - 1);
    }

    /** Remove and return an entry with the least fire time. */
    method Pop() returns (e: CronEntry)
      requires Valid() && |h| > 0
      modifies `h, Entries()`index
      ensures Valid() && e in old(Entries()) && Entries() == old(Entries()) - {e}
      ensures e == old(h)[0]
      ensures forall f :: f in old(Entries()) ==> e.next <= f.next
    {
      Root();
      var n := |h| - 1;
      LastToRoot(Times(), n);
      Swap(0, n);
      Down(0, n, 0);
      e := h[n];
      var _ := RemoveLast();
    }

    lemma Root()
      requires Valid() && |h| > 0
      ensures forall f :: f in Entries() ==> h[0].next <= f.next
    {
      forall f | f in Entries() ensures h[0].next <= f.next {
        var k :| 0 <= k < |h| && h[k] == f;
        RootLeast(Times(), |h|, k);
      }
    }

    /** Build a heap from entries in any order. */
    method Init()
      requires Distinct() && Indexed()
      modifies `h, Entries()`index
      ensures Valid() && Entries() == old(Entries())
    {
      var n := |h|;
      var i := n / 2 - 1;
      while i >= 0
        invariant -1 <= i < n
        invariant Distinct() && Indexed() && Entries() == old(Entries()) && |h| == n
        invariant HeapFrom(Times(), n, i + 1)
      {
        Down(i, n, i);
        i := i - 1;
      }
    }
  }
}
