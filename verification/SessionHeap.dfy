/** The min-heap of sessions: Go's `container/heap` over the session slice, kept in place. */
module SessionHeap {
  import opened Collections

  datatype Entry = Entry(id: string, streams: int)

  /** Position `k` is no larger than its children below `n`. */
  ghost predicate Dominates(h: seq<Entry>, k: nat, n: nat)
    requires n <= |h|
  {
    && (2 * k + 1 < n ==> h[k].streams <= h[2 * k + 1].streams)
    && (2 * k + 2 < n ==> h[k].streams <= h[2 * k + 2].streams)
  }

  /** The heap property on `h[..n]` from position `lo` on. */
  ghost predicate HeapFrom(h: seq<Entry>, lo: nat, n: nat)
    requires n <= |h|
  {
    forall k :: lo <= k < n ==> Dominates(h, k, n)
  }

  ghost predicate IsHeap(h: seq<Entry>) {
    HeapFrom(h, 0, |h|)
  }

  /** The heap property with a hole at `i` that its parent already respects. */
  ghost predicate HeapExcept(h: seq<Entry>, lo: nat, n: nat, i: nat)
    requires n <= |h|
  {
    && (forall k :: lo <= k < n && k != i ==> Dominates(h, k, n))
    && (lo < i < n ==> lo <= (i - 1) / 2 && GrandparentFine(h, i, n))
  }

  ghost predicate GrandparentFine(h: seq<Entry>, i: nat, n: nat)
    requires 0 < i < n <= |h|
  {
    var p := (i - 1) / 2;
    && (2 * i + 1 < n ==> h[p].streams <= h[2 * i + 1].streams)
    && (2 * i + 2 < n ==> h[p].streams <= h[2 * i + 2].streams)
  }

  ghost predicate Sorted(es: seq<Entry>) {
    forall i, j :: 0 <= i < j < |es| ==> es[i].streams <= es[j].streams
  }

  function Swapped(h: seq<Entry>, i: nat, j: nat): (g: seq<Entry>)
    requires i < |h| && j < |h|
    ensures |g| == |h|
  {
    h[i := h[j]][j := h[i]]
  }

  lemma SwapPermutes(h: seq<Entry>, i: nat, j: nat, n: nat)
    requires i < n && j < n && n <= |h|
    ensures multiset(Swapped(h, i, j)[..n]) == multiset(h[..n]) && multiset(Swapped(h, i, j)) == multiset(h)
    ensures Swapped(h, i, j)[n..] == h[n..]
  {
    assert Swapped(h, i, j)[..n] == Swapped(h[..n], i, j);
  }

  /** The root of a heap is a minimum. */
  lemma {:induction false} RootIsLeast(h: seq<Entry>, k: nat)
    requires IsHeap(h) && k < |h|
    ensures h[0].streams <= h[k].streams
    decreases k
  {
    if k > 0 {
      var p := (k - 1) / 2;
      RootIsLeast(h, p);
      assert Dominates(h, p, |h|);
      assert k == 2 * p + 1 || k == 2 * p + 2;
    }
  }

  lemma RootIsMinimum(h: seq<Entry>)
    requires IsHeap(h)
    ensures forall e :: e in h ==> h[0].streams <= e.streams
  {
    forall e | e in h ensures h[0].streams <= e.streams {
      var k :| 0 <= k < |h| && h[k] == e;
      RootIsLeast(h, k);
    }
  }

  /** After the root has changed places with the last element, the rest is a heap but for its root. */
  lemma RootMovesLast(h: seq<Entry>)
    requires IsHeap(h) && h != []
    ensures var n := |h| - 1; var g := Swapped(h, 0, n); HeapFrom(g, 1, n) && g[n] == h[0]
  {
    var n := |h| - 1;
    var g := Swapped(h, 0, n);
    forall k | 1 <= k < n ensures Dominates(g, k, n) {
      assert Dominates(h, k, n + 1);
    }
  }

  /** Sifting the front leaves the last element alone, and cutting it off leaves a heap. */
  lemma LastStays(g: seq<Entry>, h: seq<Entry>)
    requires g != [] && |h| == |g|
    requires var n := |g| - 1; multiset(h[..n]) == multiset(g[..n]) && h[n..] == g[n..] && HeapFrom(h, 0, n)
    ensures var n := |g| - 1; h[n] == g[n] && IsHeap(h[..n]) && multiset(h[..n]) + multiset{g[n]} == multiset(g)
  {
    var n := |g| - 1;
    assert g == g[..n] + [g[n]];
    assert h[n] == h[n..][0] && g[n] == g[n..][0];
    forall k | 0 <= k < n ensures Dominates(h[..n], k, n) {
      assert Dominates(h, k, n);
    }
  }

  lemma NothingToSift(h: seq<Entry>, n: nat)
    requires n <= |h|
    ensures HeapFrom(h, n, n)
  {
  }

  lemma HoleAtTop(h: seq<Entry>, lo: nat, n: nat)
    requires lo < n <= |h| && HeapFrom(h, lo + 1, n)
    ensures HeapExcept(h, lo, n, lo)
  {
  }

  /** A hole whose children are no smaller is none. */
  lemma HoleFits(h: seq<Entry>, lo: nat, n: nat, i: nat)
    requires lo <= i < n <= |h| && HeapExcept(h, lo, n, i) && Dominates(h, i, n)
    ensures HeapFrom(h, lo, n)
  {
  }

  /** One sift-down step: the smaller child `j` of the hole `i` moves up. */
  lemma SiftStep(h: seq<Entry>, lo: nat, n: nat, i: nat, j: nat)
    requires n <= |h| && lo <= i < n && HeapExcept(h, lo, n, i)
    requires (j == 2 * i + 1 || j == 2 * i + 2) && j < n && h[j].streams < h[i].streams
    requires 2 * i + 1 < n ==> h[j].streams <= h[2 * i + 1].streams
    requires 2 * i + 2 < n ==> h[j].streams <= h[2 * i + 2].streams
    ensures HeapExcept(Swapped(h, i, j), lo, n, j)
  {
    var g := Swapped(h, i, j);
    forall k | lo <= k < n && k != j ensures Dominates(g, k, n) {
      if k != i {
        assert Dominates(h, k, n);
      }
    }
    assert Dominates(h, j, n);
    assert (j - 1) / 2 == i;
  }

  class Heap {
    var h: seq<Entry>

    constructor (h: seq<Entry>)
      ensures this.h == h
    {
      this.h := h;
    }

    method Less(i: nat, j: nat) returns (less: bool)
      requires i < |h| && j < |h|
      ensures less <==> h[i].streams < h[j].streams
    {
      less := h[i].streams < h[j].streams;
    }

    method Swap(i: nat, j: nat)
      requires i < |h| && j < |h|
      modifies this
      ensures h == Swapped(old(h), i, j)
    {
      h := h[i := h[j]][j := h[i]];
    }

    /** `sessionHeap.Pop`: cuts off the last element. */
    method PopLast() returns (entry: Entry)
      requires h != []
      modifies this
      ensures h == old(h)[..|old(h)| - 1] && entry == old(h)[|old(h)| - 1]
    {
      var n := |h|;
      entry := h[n - 1];
      h := h[..n - 1];
    }

    /** `heap.down`: sifts position `i0` down within `h[..n]`. */
    method Down(i0: nat, n: nat)
      requires n <= |h| && i0 <= n && HeapFrom(h, i0 + 1, n)
      modifies this
      ensures |h| == |old(h)| && HeapFrom(h, i0, n)
      ensures multiset(h[..n]) == multiset(old(h)[..n]) && h[n..] == old(h)[n..]
    {
      hide HeapFrom, HeapExcept, Swapped;
      if i0 == n {
        NothingToSift(h, n);
        return;
      }
      var i := i0;
      HoleAtTop(h, i0, n);
      while true
        invariant i0 <= i < n && |h| == |old(h)|
        invariant HeapExcept(h, i0, n, i)
        invariant multiset(h[..n]) == multiset(old(h)[..n]) && h[n..] == old(h)[n..]
        decreases n - i
      {
        var j1 := 2 * i + 1;
        if j1 >= n {
          HoleFits(h, i0, n, i);
          break;
        }
        var j := j1;
        var j2 := j1 + 1;
        if j2 < n {
          var less := Less(j2, j1);
          if less {
            j := j2;
          }
        }
        var less := Less(j, i);
        if !less {
          HoleFits(h, i0, n, i);
          break;
        }
        SiftStep(h, i0, n, i, j);
        SwapPermutes(h, i, j, n);
        Swap(i, j);
        i := j;
      }
    }

    /** `heap.Init`. */
    method Init()
      modifies this
      ensures IsHeap(h) && multiset(h) == multiset(old(h))
    {
      var n := |h|;
      assert h[..n] == h;
      var i := n / 2 - 1;
      while i >= 0
        invariant -1 <= i < n && |h| == n
        invariant HeapFrom(h, i + 1, n) && multiset(h) == multiset(old(h))
      {
        ghost var before := h;
        assert before[..n] == before;
        Down(i, n);
        assert h[..n] == h;
        i := i - 1;
      }
    }

    /** `heap.Pop`: removes a session with the fewest streams. */
    method Pop() returns (entry: Entry)
      requires IsHeap(h) && h != []
      modifies this
      ensures IsHeap(h) && multiset(h) + multiset{entry} == multiset(old(h))
      ensures forall e :: e in old(h) ==> entry.streams <= e.streams
    {
      RootIsMinimum(h);
      var n := |h| - 1;
      RootMovesLast(h);
      SwapPermutes(h, 0, n, |h|);
      Swap(0, n);
      ghost var swapped := h;
      Down(0, n);
      LastStays(swapped, h);
      entry := PopLast();
    }

    /** Init and then Pop until empty: the sessions in non-decreasing stream count. */
    method Drain() returns (out: seq<Entry>)
      modifies this
      ensures Sorted(out) && multiset(out) == multiset(old(h)) && h == []
    {
      Init();
      out := [];
      while h != []
        invariant IsHeap(h) && Sorted(out)
        invariant multiset(out) + multiset(h) == multiset(old(h))
        invariant forall e, f :: e in out && f in h ==> e.streams <= f.streams
        decreases |h|
      {
        ghost var before := h;
        var entry := Pop();
        assert |multiset(before)| == |before| && |multiset(h)| == |h|;
        forall f | f in h ensures f in before {
          assert f in multiset(h);
          assert f in multiset(before);
        }
        assert entry in before by { assert entry in multiset(before); }
        out := out + [entry];
      }
    }
  }
}
