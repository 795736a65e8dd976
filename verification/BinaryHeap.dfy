/** The sift-up / sift-down algorithms behind `container/heap`, over a sequence ordered by an
    integer key.  The transaction lists use them with the nonce as key, the price list with
    the gas price. */
module BinaryHeap {

  /** `c` is the left or right child of `p`. */
  predicate Child(p: int, c: int) {
    c == 2 * p + 1 || c == 2 * p + 2
  }

  /** Ordered on every edge whose parent is at `lo` or later. */
  ghost predicate HeapFrom<T>(h: seq<T>, key: T -> int, lo: nat) {
    forall p, c | lo <= p < c < |h| && Child(p, c) :: key(h[p]) <= key(h[c])
  }

  ghost predicate IsHeap<T>(h: seq<T>, key: T -> int) {
    HeapFrom(h, key, 0)
  }

  /** A heap but for the edge above `j`; the elements below `j` respect the parent of `j`. */
  ghost predicate HeapButUp<T>(h: seq<T>, key: T -> int, j: nat) {
    && (forall p, c | 0 <= p < c < |h| && Child(p, c) && c != j :: key(h[p]) <= key(h[c]))
    && (forall p, c | 0 <= p < c < |h| && Child(p, j) && Child(j, c) :: key(h[p]) <= key(h[c]))
  }

  /** Ordered from the parent `lo` on, but for the edges below `j`. */
  ghost predicate HeapButDown<T>(h: seq<T>, key: T -> int, lo: nat, j: nat) {
    && (forall p, c | lo <= p < c < |h| && Child(p, c) && p != j :: key(h[p]) <= key(h[c]))
    && (forall p, c | lo <= p < c < |h| && Child(p, j) && Child(j, c) :: key(h[p]) <= key(h[c]))
  }

  function Swap<T>(h: seq<T>, i: nat, j: nat): (r: seq<T>)
    requires i < |h| && j < |h|
    ensures |r| == |h| && multiset(r) == multiset(h)
    ensures r[i] == h[j] && r[j] == h[i]
    ensures forall k | 0 <= k < |h| && k != i && k != j :: r[k] == h[k]
  {
    h[i := h[j]][j := h[i]]
  }

  /** One step of a sift-up: the broken edge moves from above `j` to above its parent `i`. */
  lemma SwapUp<T>(h: seq<T>, key: T -> int, i: nat, j: nat)
    requires i < j < |h| && Child(i, j) && key(h[j]) < key(h[i])
    requires HeapButUp(h, key, j)
    ensures HeapButUp(Swap(h, i, j), key, i)
  {}

  method Up<T>(h: seq<T>, start: nat, key: T -> int) returns (r: seq<T>)
    requires start < |h| && HeapButUp(h, key, start)
    ensures IsHeap(r, key) && multiset(r) == multiset(h)
  {
    r := h;
    var j: nat := start;
    while j > 0 && key(r[j]) < key(r[(j - 1) / 2])
      invariant j < |r| == |h|
      invariant multiset(r) == multiset(h)
      invariant HeapButUp(r, key, j)
    {
      var i := (j - 1) / 2;
      SwapUp(r, key, i, j);
      r := Swap(r, i, j);
      j := i;
    }
  }

  /** One step of a sift-down: the hole moves from `i` to its smaller child `j`. */
  lemma SwapDown<T>(h: seq<T>, key: T -> int, lo: nat, i: nat, j: nat)
    requires lo <= i < j < |h| && Child(i, j) && key(h[j]) < key(h[i])
    requires forall c | i < c < |h| && Child(i, c) :: key(h[j]) <= key(h[c])
    requires HeapButDown(h, key, lo, i)
    ensures HeapButDown(Swap(h, i, j), key, lo, j)
  {
    var r := Swap(h, i, j);
    forall p, c | lo <= p < c < |r| && Child(p, c) && p != j ensures key(r[p]) <= key(r[c]) {
      if c == i {
        assert Child(p, i) && Child(i, j);
        assert r[p] == h[p] && r[c] == h[j];
      }
    }
    forall p, c | lo <= p < c < |r| && Child(p, j) && Child(j, c) ensures key(r[p]) <= key(r[c]) {
      assert p == i && r[p] == h[j] && r[c] == h[c];
    }
  }

  /** Restores the edges below `start`, in a sequence whose edges are ordered from the parent `lo` on. */
  method Down<T>(h: seq<T>, lo: nat, start: nat, key: T -> int) returns (r: seq<T>)
    requires lo <= start < |h| && HeapButDown(h, key, lo, start)
    ensures |r| == |h| && multiset(r) == multiset(h)
    ensures HeapFrom(r, key, lo)
  {
    r := h;
    var i: nat := start;
    while 2 * i + 1 < |r|
      invariant lo <= i < |r| == |h|
      invariant multiset(r) == multiset(h)
      invariant HeapButDown(r, key, lo, i)
      decreases |h| - i
    {
      var j := 2 * i + 1;
      if j + 1 < |r| && key(r[j + 1]) < key(r[j]) {
        j := j + 1;
      }
      if !(key(r[j]) < key(r[i])) {
        break;
      }
      SwapDown(r, key, lo, i, j);
      r := Swap(r, i, j);
      i := j;
    }
  }

  method Init<T>(h: seq<T>, key: T -> int) returns (r: seq<T>)
    ensures IsHeap(r, key) && multiset(r) == multiset(h)
  {
    r := h;
    var i: nat := |h| / 2;
    while i > 0
      invariant i <= |h| / 2 && |r| == |h|
      invariant multiset(r) == multiset(h)
      invariant HeapFrom(r, key, i)
    {
      i := i - 1;
      r := Down(r, i, i, key);
    }
  }

  method Push<T>(h: seq<T>, x: T, key: T -> int) returns (r: seq<T>)
    requires IsHeap(h, key)
    ensures IsHeap(r, key) && multiset(r) == multiset(h) + multiset{x}
  {
    r := Up(h + [x], |h|, key);
  }

  method Pop<T>(h: seq<T>, key: T -> int) returns (x: T, r: seq<T>)
    requires IsHeap(h, key) && |h| > 0
    ensures x == h[0] && IsHeap(r, key)
    ensures multiset(h) == multiset(r) + multiset{x}
  {
    x, r := h[0], h[..|h| - 1];
    assert h == r + [h[|h| - 1]];
    if |r| > 0 {
      r := Down(r[0 := h[|h| - 1]], 0, 0, key);
    }
  }

  /** Putting the last element of a heap in place of another breaks edges on one side only. */
  lemma ReplacedInHeap<T>(h: seq<T>, key: T -> int, i: nat)
    requires IsHeap(h, key) && i < |h| - 1
    ensures var r := h[..|h| - 1][i := h[|h| - 1]];
            if i > 0 && key(r[i]) < key(r[(i - 1) / 2]) then HeapButUp(r, key, i) else HeapButDown(r, key, 0, i)
  {
    var r := h[..|h| - 1][i := h[|h| - 1]];
    if i > 0 {
      assert Child((i - 1) / 2, i);
      forall c | i < c < |r| && Child(i, c) ensures key(h[(i - 1) / 2]) <= key(h[i]) <= key(r[c]) {
      }
    }
  }

  method Remove<T>(h: seq<T>, i: nat, key: T -> int) returns (r: seq<T>)
    requires IsHeap(h, key) && i < |h|
    ensures IsHeap(r, key)
    ensures multiset(h) == multiset(r) + multiset{h[i]}
  {
    var n := |h| - 1;
    r := h[..n];
    assert h == r + [h[n]];
    if n != i {
      r := r[i := h[n]];
      ReplacedInHeap(h, key, i);
      if i > 0 && key(r[i]) < key(r[(i - 1) / 2]) {
        r := Up(r, i, key);
      } else {
        r := Down(r, 0, i, key);
      }
    }
  }

  lemma {:induction false} RootIsMin<T>(h: seq<T>, key: T -> int, i: nat)
    requires IsHeap(h, key) && i < |h|
    ensures key(h[0]) <= key(h[i])
  {
    if i > 0 {
      assert Child((i - 1) / 2, i);
      RootIsMin(h, key, (i - 1) / 2);
    }
  }

  lemma RootIsMinOfAll<T>(h: seq<T>, key: T -> int)
    requires IsHeap(h, key) && |h| > 0
    ensures forall x | x in h :: key(h[0]) <= key(x)
  {
    forall x | x in h ensures key(h[0]) <= key(x) {
      var i :| 0 <= i < |h| && h[i] == x;
      RootIsMin(h, key, i);
    }
  }
}
