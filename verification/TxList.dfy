/** The per-account transaction lists: a nonce map indexed by a heap, with a cache of the sorted
    content, and on top of it the list that tracks the highest cost and gas of its members. */
module TxLists {
  import opened Transactions
  import opened Nonces
  import opened BinaryHeap
  import M = ListModel

  function Id(n: nat): int {
    n
  }

  /** `s` holds each transaction of `m` once, in some order. */
  ghost predicate Lists(s: seq<Tx>, m: Items) {
    && (forall i | 0 <= i < |s| :: s[i].nonce in m && m[s[i].nonce] == s[i])
    && (forall i, j | 0 <= i < j < |s| :: s[i].nonce != s[j].nonce)
    && (forall n | n in m :: m[n] in s)
  }

  lemma SortedLists(s: seq<Tx>, m: Items)
    requires SortedOf(s, m)
    ensures Lists(s, m)
  {}

  /** Taking the lowest nonce off a map puts it behind an increasing listing of lower nonces. */
  lemma SortedSnoc(s: seq<Tx>, m: Items, n: nat, tx: Tx)
    requires WellKeyed(m) && SortedOf(s, m) && tx.nonce == n
    requires forall k | k in m :: k < n
    ensures SortedOf(s + [tx], m[n := tx])
  {}

  lemma NothingListed()
    ensures Lists([], map[])
  {}

  lemma NothingCut(m: Items, k: nat)
    requires |m| <= k
    ensures IsLowest(m, m, k) && Lists([], m - m.Keys)
  {}

  lemma CutAtLowest(m: Items, first: nat)
    requires forall n | n in m :: first <= n
    ensures SortedOf([], Below(m, first)) && AtLeast(m, first) == m
  {}

  lemma ListsSnoc(s: seq<Tx>, m: Items, tx: Tx)
    requires Lists(s, m) && tx.nonce !in m
    ensures Lists(s + [tx], m[tx.nonce := tx])
  {}

  /** The keys of a map in the order of its iteration, which may be any. */
  method EnumerateKeys(keys: set<nat>) returns (s: seq<nat>)
    ensures multiset(s) == multiset(keys)
  {
    s := [];
    var left := keys;
    while left != {}
      invariant left <= keys && multiset(s) == multiset(keys - left)
    {
      var n :| n in left;
      assert keys - (left - {n}) == (keys - left) + {n};
      s, left := s + [n], left - {n};
    }
    assert keys - {} == keys;
  }

  /** `sort.Sort` on distinct keys. */
  method SortKeys(keys: set<nat>) returns (s: seq<nat>)
    ensures Increasing(s) && forall n :: n in s <==> n in keys
  {
    s := [];
    var left := keys;
    while left != {}
      invariant left <= keys && Increasing(s)
      invariant forall n :: n in s <==> n in keys && n !in left
      invariant forall n, k | n in s && k in left :: n < k
    {
      var n := Min(left);
      forall i | 0 <= i < |s| ensures s[i] < n {
        assert s[i] in s;
      }
      s, left := s + [n], left - {n};
    }
  }

  function KeptSoFar(m: Items, drop: Tx -> bool, left: set<nat>): Items {
    map n | n in m && (n in left || !drop(m[n])) :: m[n]
  }

  function DroppedSoFar(m: Items, drop: Tx -> bool, left: set<nat>): Items {
    map n | n in m && n !in left && drop(m[n]) :: m[n]
  }

  lemma VisitOne(m: Items, drop: Tx -> bool, left: set<nat>, n: nat)
    requires n in left && n in m
    ensures KeptSoFar(m, drop, left - {n}) ==
            (if drop(m[n]) then KeptSoFar(m, drop, left) - {n} else KeptSoFar(m, drop, left))
    ensures DroppedSoFar(m, drop, left - {n}) ==
            (if drop(m[n]) then DroppedSoFar(m, drop, left)[n := m[n]] else DroppedSoFar(m, drop, left))
  {}

  /** The visit of `Filter`: what stays and what goes, the latter in the order of the visit. */
  method Partition(m: Items, drop: Tx -> bool) returns (kept: Items, removed: seq<Tx>)
    requires WellKeyed(m)
    ensures kept == Kept(m, drop) && Lists(removed, Dropped(m, drop))
  {
    hide Lists, KeptSoFar, DroppedSoFar;
    kept, removed := m, [];
    var left := m.Keys;
    VisitEnds(m, drop);
    NothingListed();
    while left != {}
      invariant left <= m.Keys
      invariant kept == KeptSoFar(m, drop, left)
      invariant Lists(removed, DroppedSoFar(m, drop, left))
    {
      var nonce :| nonce in left;
      VisitOne(m, drop, left, nonce);
      if drop(m[nonce]) {
        NotYet(m, drop, left, nonce);
        ListsSnoc(removed, DroppedSoFar(m, drop, left), m[nonce]);
        removed := removed + [m[nonce]];
        kept := kept - {nonce};
      }
      left := left - {nonce};
    }
  }

  lemma VisitEnds(m: Items, drop: Tx -> bool)
    ensures KeptSoFar(m, drop, m.Keys) == m && DroppedSoFar(m, drop, m.Keys) == map[]
    ensures KeptSoFar(m, drop, {}) == Kept(m, drop) && DroppedSoFar(m, drop, {}) == Dropped(m, drop)
  {}

  lemma NotYet(m: Items, drop: Tx -> bool, left: set<nat>, n: nat)
    requires n in left
    ensures n !in DroppedSoFar(m, drop, left)
  {}

  /** The first `k` positions hold what is below `bound`. */
  ghost predicate SplitAt(sorted: seq<nat>, k: nat, bound: nat) {
    && k <= |sorted|
    && (forall i | 0 <= i < k :: sorted[i] < bound)
    && (forall i | k <= i < |sorted| :: bound <= sorted[i])
  }

  /** The drop loop of `Cap`: the nonces from position `threshold` of the sorted index on, highest first. */
  method DropHighest(m: Items, sorted: seq<nat>, threshold: nat)
    returns (kept: Items, drops: seq<Tx>, ghost bound: nat)
    requires WellKeyed(m) && Increasing(sorted) && threshold <= |sorted| && forall n :: n in sorted <==> n in m
    ensures SplitAt(sorted, threshold, bound)
    ensures kept == Below(m, bound) && Lists(drops, AtLeast(m, bound))
    ensures |drops| == |sorted| - threshold
    ensures forall i, j | 0 <= i < j < |drops| :: drops[i].nonce > drops[j].nonce
  {
    hide Lists, Increasing, WellKeyed, SplitAt;
    kept, drops := m, [];
    var size := |sorted|;
    bound := AboveAll(m, sorted);
    NothingListed();
    while size > threshold
      invariant threshold <= size <= |sorted| && SplitAt(sorted, size, bound)
      invariant kept == Below(m, bound) && Lists(drops, AtLeast(m, bound))
      invariant |drops| == |sorted| - size
      invariant forall i | 0 <= i < |drops| :: bound <= drops[i].nonce
      invariant forall i, j | 0 <= i < j < |drops| :: drops[i].nonce > drops[j].nonce
    {
      var nonce := sorted[size - 1];
      LastOut(m, sorted, size, bound);
      ListsSnoc(drops, AtLeast(m, bound), m[nonce]);
      drops := drops + [m[nonce]];
      kept := kept - {nonce};
      size, bound := size - 1, nonce;
    }
  }

  lemma AboveAll(m: Items, sorted: seq<nat>) returns (bound: nat)
    requires forall n :: n in sorted <==> n in m
    ensures SplitAt(sorted, |sorted|, bound) && Below(m, bound) == m && AtLeast(m, bound) == map[]
  {
    bound := if m.Keys == {} then 0 else Max(m.Keys) + 1;
    assert forall n | n in m :: n in m.Keys && n < bound;
    assert forall i | 0 <= i < |sorted| :: sorted[i] in sorted;
  }

  lemma LastOut(m: Items, sorted: seq<nat>, size: nat, bound: nat)
    requires WellKeyed(m) && Increasing(sorted) && forall n :: n in sorted <==> n in m
    requires 0 < size && SplitAt(sorted, size, bound)
    ensures var nonce := sorted[size - 1];
            && nonce in m && m[nonce].nonce == nonce < bound && SplitAt(sorted, size - 1, nonce)
            && Below(m, nonce) == Below(m, bound) - {nonce}
            && AtLeast(m, nonce) == AtLeast(m, bound)[nonce := m[nonce]]
  {
    var nonce := sorted[size - 1];
    assert nonce in sorted;
    forall n | n in m && n < bound ensures n <= nonce {
      var i :| 0 <= i < |sorted| && sorted[i] == n;
    }
    CutBefore(m, nonce, bound);
  }

  lemma CutBefore(m: Items, n: nat, bound: nat)
    requires n in m && n < bound && forall k | k in m && k < bound :: k <= n
    ensures Below(m, n) == Below(m, bound) - {n}
    ensures AtLeast(m, n) == AtLeast(m, bound)[n := m[n]]
  {}

  /** The nonces up to position `k` of the sorted index are the `k` lowest. */
  lemma LowPart(m: Items, sorted: seq<nat>, k: nat, bound: nat)
    requires WellKeyed(m)
    requires Increasing(sorted) && SplitAt(sorted, k, bound) && forall n :: n in sorted <==> n in m
    ensures WellKeyed(Below(m, bound))
    ensures |m| == |sorted| && IsLowest(Below(m, bound), m, k)
    ensures multiset(sorted[..k]) == multiset(Below(m, bound).Keys)
    ensures m - Below(m, bound).Keys == AtLeast(m, bound)
  {
    LowKeys(m, sorted, k, bound);
    IncreasingSize(sorted, m.Keys);
    IncreasingSize(sorted[..k], Below(m, bound).Keys);
    DistinctMultiset(sorted[..k], Below(m, bound).Keys);
  }

  lemma LowKeys(m: Items, sorted: seq<nat>, k: nat, bound: nat)
    requires SplitAt(sorted, k, bound) && forall n :: n in sorted <==> n in m
    ensures forall n :: n in sorted[..k] <==> n in Below(m, bound)
  {}

  /** The part of a map that a cap keeps. */
  method KeepLowest(m: Items, k: nat) returns (kept: Items)
    requires WellKeyed(m)
    ensures IsLowest(kept, m, k)
  {
    if |m| <= k {
      return m;
    }
    var sorted := SortKeys(m.Keys);
    IncreasingSize(sorted, m.Keys);
    var drops;
    ghost var bound;
    kept, drops, bound := DropHighest(m, sorted, k);
    LowPart(m, sorted, k, bound);
  }

  lemma DistinctMultiset(s: seq<nat>, keys: set<nat>)
    requires Increasing(s) && forall n :: n in s <==> n in keys
    ensures multiset(s) == multiset(keys)
  {
    hide Increasing;
    forall n: nat ensures multiset(s)[n] == multiset(keys)[n] {
      OccursOnce(s, n);
    }
  }

  lemma {:induction false} OccursOnce(s: seq<nat>, n: nat)
    requires Increasing(s)
    ensures multiset(s)[n] == if n in s then 1 else 0
  {
    hide Increasing;
    if s != [] {
      var last, front := s[|s| - 1], s[..|s| - 1];
      LastApart(s);
      assert s == front + [last];
      OccursOnce(front, n);
    }
  }

  lemma LastApart(s: seq<nat>)
    requires Increasing(s) && s != []
    ensures var last, front := s[|s| - 1], s[..|s| - 1];
            last !in front && Increasing(front) && forall n :: n in s <==> n in front || n == last
  {
    assert s == s[..|s| - 1] + [s[|s| - 1]];
  }

  lemma ContentSorted(m: Items, sorted: seq<nat>, content: seq<Tx>)
    requires WellKeyed(m) && Increasing(sorted) && forall n :: n in sorted <==> n in m
    requires |content| == |sorted| && forall i | 0 <= i < |sorted| :: content[i] == m[sorted[i]]
    ensures SortedOf(content, m)
  {}

  /** Collects the content of a map and sorts it by nonce. */
  method InNonceOrder(m: Items) returns (content: seq<Tx>)
    requires WellKeyed(m)
    ensures SortedOf(content, m)
  {
    var sorted := SortKeys(m.Keys);
    content := seq(|sorted|, i requires 0 <= i < |sorted| => assert sorted[i] in sorted; m[sorted[i]]);
    ContentSorted(m, sorted, content);
  }

  /** Trimming the back of a sorted content keeps the sorted content of the low part. */
  lemma SortedLow(c: seq<Tx>, m: Items, sorted: seq<nat>, k: nat, bound: nat)
    requires WellKeyed(m) && SortedOf(c, m)
    requires Increasing(sorted) && SplitAt(sorted, k, bound) && forall n :: n in sorted <==> n in m
    ensures |c| == |sorted| && SortedOf(c[..k], Below(m, bound))
  {
    hide SortedOf;
    var content := seq(|sorted|, i requires 0 <= i < |sorted| => m[sorted[i]]);
    ContentSorted(m, sorted, content);
    SortedUnique(c, content, m);
    LowKeys(m, sorted, k, bound);
    ContentSorted(Below(m, bound), sorted[..k], c[..k]);
  }

  /** When `n` is the lowest nonce from `cut` on, moving the cut past it appends it to the low part. */
  lemma CutMoves(m: Items, cut: nat, n: nat, s: seq<Tx>)
    requires WellKeyed(m) && SortedOf(s, Below(m, cut))
    requires n in AtLeast(m, cut) && forall k | k in AtLeast(m, cut) :: n <= k
    ensures SortedOf(s + [m[n]], Below(m, n + 1))
    ensures AtLeast(m, cut) - {n} == AtLeast(m, n + 1)
  {
    hide SortedOf;
    CutMaps(m, cut, n);
    SortedSnoc(s, Below(m, cut), n, m[n]);
  }

  lemma CutMaps(m: Items, cut: nat, n: nat)
    requires n in AtLeast(m, cut) && forall k | k in AtLeast(m, cut) :: n <= k
    ensures Below(m, cut)[n := m[n]] == Below(m, n + 1) && AtLeast(m, cut) - {n} == AtLeast(m, n + 1)
    ensures forall k | k in Below(m, cut) :: k < n
  {
    assert forall k | k in m && cut <= k :: k in AtLeast(m, cut);
  }

  lemma KeyAdded(m: Items, tx: Tx)
    requires WellKeyed(m)
    ensures WellKeyed(m[tx.nonce := tx])
    ensures multiset(m[tx.nonce := tx].Keys) ==
            if tx.nonce in m then multiset(m.Keys) else multiset(m.Keys) + multiset{tx.nonce as nat}
  {
    assert m[tx.nonce := tx].Keys == m.Keys + {tx.nonce as nat};
  }

  class TxSortedMap {
    var items: Items
    var index: seq<nat>
    var cache: Option<seq<Tx>>

    /** The index is a heap holding each stored nonce once; a cache, when there is one, is the content
        in nonce order. */
    ghost predicate Valid()
      reads this
    {
      && WellKeyed(items)
      && IsHeap(index, Id)
      && multiset(index) == multiset(items.Keys)
      && (cache.Some? ==> SortedOf(cache.value, items))
    }

    constructor ()
      ensures Valid() && items == map[]
    {
      items, index, cache := map[], [], None;
    }

    method Get(nonce: nat) returns (tx: Option<Tx>)
      requires Valid()
      ensures tx == if nonce in items then Some(items[nonce]) else None
    {
      tx := if nonce in items then Some(items[nonce]) else None;
    }

    method Put(tx: Tx)
      requires Valid()
      modifies this
      ensures Valid() && items == old(items)[tx.nonce := tx]
    {
      hide IsHeap;
      var nonce: nat := tx.nonce;
      KeyAdded(items, tx);
      if nonce !in items {
        index := Push(index, nonce, Id);
      }
      items, cache := items[nonce := tx], None;
    }

    /** Pops the lowest nonce off the index and its transaction off the map. */
    method PopLowest() returns (tx: Tx)
      requires Valid() && |index| > 0
      modifies this`items, this`index, this`cache
      ensures WellKeyed(items) && IsHeap(index, Id) && multiset(index) == multiset(items.Keys)
      ensures old(index)[0] in old(items) && tx == old(items)[old(index)[0]]
      ensures items == old(items) - {old(index)[0]}
      ensures |index| < old(|index|) && cache == None
    {
      LowestIsRoot();
      var nonce, rest := Pop(index, Id);
      tx := items[nonce];
      RestOfIndex(nonce, rest);
      index, items, cache := rest, items - {nonce}, None;
    }

    /** Removes everything below the threshold; a cached order only loses its front. */
    method Forward(threshold: nat) returns (removed: seq<Tx>)
      requires Valid()
      modifies this
      ensures Valid() && items == AtLeast(old(items), threshold)
      ensures SortedOf(removed, Below(old(items), threshold))
      ensures old(cache).Some? ==> cache.Some?
    {
      hide SortedOf, WellKeyed, HeapFrom;
      removed := [];
      CutAtLowest(items, 0);
      var sorted := cache;
      ghost var m, cut: nat := items, 0;
      while |index| > 0 && index[0] < threshold
        invariant Valid() && cut <= threshold
        invariant items == AtLeast(m, cut) && SortedOf(removed, Below(m, cut))
        decreases |index|
      {
        LowestIsRoot();
        CutMoves(m, cut, index[0], removed);
        cut := index[0] + 1;
        var tx := PopLowest();
        removed := removed + [tx];
      }
      RestStartsAt(m, cut, threshold);
      if sorted.Some? {
        SortedPrefix(sorted.value, m, removed, threshold);
        cache := Some(sorted.value[|removed|..]);
      }
    }

    lemma RestStartsAt(m: Items, cut: nat, threshold: nat)
      requires Valid() && items == AtLeast(m, cut) && cut <= threshold
      requires |index| > 0 ==> index[0] >= threshold
      ensures AtLeast(m, cut) == AtLeast(m, threshold) && Below(m, cut) == Below(m, threshold)
    {
      if |index| > 0 {
        LowestIsRoot();
      } else {
        IndexSize();
      }
      forall n | n in m && cut <= n ensures threshold <= n {
        assert n in AtLeast(m, cut);
      }
    }

    /** Removes what the predicate selects, visiting the map in any order; rebuilds the index if
        anything went. */
    method Filter(drop: Tx -> bool) returns (removed: seq<Tx>)
      requires Valid()
      modifies this
      ensures Valid() && items == Kept(old(items), drop)
      ensures Lists(removed, Dropped(old(items), drop))
    {
      hide Lists, SortedOf, HeapFrom;
      var kept;
      kept, removed := Partition(items, drop);
      if |removed| > 0 {
        index := EnumerateKeys(kept.Keys);
        index := Init(index, Id);
        items, cache := kept, None;
      } else {
        ListedNone(removed, Dropped(items, drop));
        NothingDropped(items, drop);
      }
    }

    /** Keeps the `threshold` lowest nonces; a cached order only loses its back. */
    method Cap(threshold: nat) returns (drops: seq<Tx>)
      requires Valid()
      modifies this
      ensures Valid() && IsLowest(items, old(items), threshold)
      ensures Lists(drops, old(items) - items.Keys)
      ensures forall i, j | 0 <= i < j < |drops| :: drops[i].nonce > drops[j].nonce
      ensures old(cache).Some? ==> cache.Some?
    {
      hide SortedOf, WellKeyed, HeapFrom, Increasing, SplitAt, Lists, IsLowest;
      drops := [];
      if |items| <= threshold {
        NothingCut(items, threshold);
        return;
      }
      var sorted := SortKeys(items.Keys);
      IncreasingSize(sorted, items.Keys);
      var kept;
      ghost var bound;
      kept, drops, bound := DropHighest(items, sorted, threshold);
      LowPart(items, sorted, threshold, bound);
      index := Init(sorted[..threshold], Id);
      if cache.Some? {
        SortedLow(cache.value, items, sorted, threshold, bound);
        cache := Some(cache.value[..|cache.value| - |drops|]);
      }
      items := kept;
    }

    /** Deletes one nonce, wherever it sits in the index. */
    method Remove(nonce: nat) returns (found: bool)
      requires Valid()
      modifies this
      ensures Valid() && found == (nonce in old(items))
      ensures items == if found then old(items) - {nonce} else old(items)
    {
      if nonce !in items {
        return false;
      }
      assert nonce in multiset(index);
      var i := 0;
      while index[i] != nonce
        invariant 0 <= i < |index| && nonce in index[i..]
        decreases |index| - i
      {
        i := i + 1;
      }
      var rest := BinaryHeap.Remove(index, i, Id);
      RestOfIndex(nonce, rest);
      index, items, cache := rest, items - {nonce}, None;
      return true;
    }

    /** Takes out the consecutive run that starts at the lowest nonce, unless that lies beyond
        `start`. */
    method Ready(start: nat) returns (ready: seq<Tx>)
      requires Valid()
      modifies this
      ensures Valid()
      ensures if old(items).Keys == {} || Min(old(items).Keys) > start then ready == [] && items == old(items)
              else items == AtLeast(old(items), RunEnd(old(items).Keys, Min(old(items).Keys)))
                   && SortedOf(ready, Below(old(items), RunEnd(old(items).Keys, Min(old(items).Keys))))
    {
      hide SortedOf, WellKeyed, HeapFrom;
      ready := [];
      IndexSize();
      if |index| == 0 {
        return;
      }
      LowestIsRoot();
      assert index[0] == Min(items.Keys);
      if index[0] > start {
        return;
      }
      ghost var m, first := items, index[0];
      CutAtLowest(m, first);
      var next := index[0];
      while |index| > 0 && index[0] == next
        invariant Valid() && first <= next
        invariant items == AtLeast(m, next) && SortedOf(ready, Below(m, next))
        invariant forall k | first <= k < next :: k in m
        decreases |index|
      {
        LowestIsRoot();
        CutMoves(m, next, next, ready);
        var tx := PopLowest();
        ready := ready + [tx];
        next := next + 1;
      }
      assert next !in m by { RootIsNext(m, next); }
      assert next == RunEnd(m.Keys, first);
      cache := None;
    }

    lemma RootIsNext(m: Items, next: nat)
      requires Valid() && items == AtLeast(m, next) && !(|index| > 0 && index[0] == next)
      ensures next !in m
    {
      IndexSize();
      if |index| > 0 {
        LowestIsRoot();
      }
      assert next in m ==> next in items;
    }

    /** The content in nonce order, from the cache when there is one. */
    method Flatten() returns (txs: seq<Tx>)
      requires Valid()
      modifies this`cache
      ensures Valid() && SortedOf(txs, items) && cache == Some(txs)
    {
      if cache == None {
        var content := InNonceOrder(items);
        cache := Some(content);
      }
      txs := cache.value;
    }

    lemma LowestIsRoot()
      requires IsHeap(index, Id) && multiset(index) == multiset(items.Keys) && |index| > 0
      ensures index[0] in items && forall n | n in items :: index[0] <= n
    {
      RootIsMinOfAll(index, Id);
      assert index[0] in multiset(index);
      forall n | n in items ensures index[0] <= n {
        assert n in multiset(items.Keys);
        assert n in index;
        assert Id(index[0]) <= Id(n);
      }
    }

    lemma RestOfIndex(nonce: nat, rest: seq<nat>)
      requires multiset(index) == multiset(items.Keys)
      requires multiset(index) == multiset(rest) + multiset{nonce}
      ensures multiset(rest) == multiset((items - {nonce}).Keys) && |rest| < |index|
    {
      assert (items - {nonce}).Keys == items.Keys - {nonce};
      assert |multiset(index)| == |multiset(rest)| + 1;
      forall n ensures multiset(rest)[n] == multiset(items.Keys - {nonce})[n] {
        assert multiset(items.Keys)[n] == multiset(rest)[n] + multiset{nonce}[n];
      }
    }

    lemma IndexSize()
      requires multiset(index) == multiset(items.Keys)
      ensures |index| == |items|
    {
      assert |multiset(index)| == |index| && |multiset(items.Keys)| == |items.Keys|;
    }
  }

  /** The list of an account: the sorted map plus the highest cost and gas seen since the last
      `Filter` that lowered them. */
  class TxList {
    const strict: bool
    const txs: TxSortedMap
    var costcap: int
    var gascap: nat

    /** The list as a value. */
    ghost function Value(): M.List
      reads this, txs
    {
      M.List(strict, txs.items, costcap, gascap)
    }

    ghost predicate Valid()
      reads this, txs
    {
      txs.Valid() && M.Bounded(Value())
    }

    constructor (strict: bool)
      ensures Valid() && fresh(txs) && Value() == M.NewList(strict)
    {
      this.strict, costcap, gascap := strict, 0, 0;
      txs := new TxSortedMap();
    }

    method Add(tx: Tx, bump: nat) returns (inserted: bool, replaced: Option<Tx>)
      requires Valid()
      modifies this, txs
      ensures Valid() && M.Added(Value(), inserted, replaced) == M.Add(old(Value()), tx, bump)
    {
      M.AddBounded(Value(), tx, bump);
      replaced := txs.Get(tx.nonce);
      if replaced.Some? {
        var threshold := replaced.value.price * (100 + bump) / 100;
        if replaced.value.price >= tx.price || threshold > tx.price {
          return false, None;
        }
      }
      txs.Put(tx);
      if costcap < tx.Cost() {
        costcap := tx.Cost();
      }
      if gascap < tx.gas {
        gascap := tx.gas;
      }
      inserted := true;
    }

    method Forward(threshold: nat) returns (removed: seq<Tx>)
      requires Valid()
      modifies txs
      ensures Valid() && Value() == M.Forward(old(Value()), threshold)
      ensures SortedOf(removed, Below(old(txs.items), threshold))
    {
      M.ShrinkBounded(Value(), AtLeast(txs.items, threshold));
      removed := txs.Forward(threshold);
    }

    method Filter(costLimit: int, gasLimit: nat) returns (removed: seq<Tx>, invalids: seq<Tx>)
      requires Valid()
      modifies this, txs
      ensures Valid()
      ensures var f := M.Filter(old(Value()), costLimit, gasLimit);
              Value() == f.list && Lists(removed, f.removed) && Lists(invalids, f.invalids)
    {
      hide M.Bounded, Lists, WellKeyed, Dropped, Kept, HeapFrom, SortedOf;
      ListedNone([], map[]);
      M.FilterIsScan(Value(), costLimit, gasLimit);
      NothingListed();
      removed, invalids := [], [];
      if costcap <= costLimit && gascap <= gasLimit {
        return;
      }
      costcap, gascap := costLimit, gasLimit;
      ghost var m := txs.items;
      assert WellKeyed(m);
      removed := txs.Filter(M.Exceeds(costLimit, gasLimit));
      if strict && |removed| > 0 {
        DroppedKeyed(m, M.Exceeds(costLimit, gasLimit));
        var lowest := LowestNonce(removed, Dropped(m, M.Exceeds(costLimit, gasLimit)));
        invalids := txs.Filter(M.Beyond(lowest));
      }
      ListedNone(removed, Dropped(m, M.Exceeds(costLimit, gasLimit)));
    }

    method Cap(threshold: nat) returns (drops: seq<Tx>)
      requires Valid()
      modifies txs
      ensures Valid() && IsLowest(txs.items, old(txs.items), threshold)
      ensures Lists(drops, old(txs.items) - txs.items.Keys)
      ensures forall i, j | 0 <= i < j < |drops| :: drops[i].nonce > drops[j].nonce
    {
      ghost var was := Value();
      drops := txs.Cap(threshold);
      M.ShrinkBounded(was, txs.items);
    }

    method Remove(tx: Tx) returns (found: bool, invalids: seq<Tx>)
      requires Valid()
      modifies txs
      ensures Valid()
      ensures var r := M.Remove(old(Value()), tx.nonce);
              Value() == r.list && found == r.found && Lists(invalids, r.invalids)
    {
      hide Lists, SortedOf, HeapFrom, WellKeyed, Kept, Dropped, M.Bounded;
      NothingListed();
      M.RemoveBounded(Value(), tx.nonce);
      invalids := [];
      found := txs.Remove(tx.nonce);
      if found && strict {
        invalids := txs.Filter(M.Beyond(tx.nonce));
      }
    }

    method Ready(start: nat) returns (ready: seq<Tx>)
      requires Valid()
      modifies txs
      ensures Valid() && Value() == M.Forward(old(Value()), M.ReadyEnd(old(Value()), start))
      ensures SortedOf(ready, Below(old(txs.items), M.ReadyEnd(old(Value()), start)))
    {
      ghost var was := Value();
      CutAtLowest(was.items, 0);
      ready := txs.Ready(start);
      M.ShrinkBounded(was, txs.items);
    }

    method Flatten() returns (sorted: seq<Tx>)
      requires Valid()
      modifies txs`cache
      ensures Valid() && SortedOf(sorted, txs.items)
    {
      sorted := txs.Flatten();
    }
  }

  lemma NothingDropped(m: Items, drop: Tx -> bool)
    requires Dropped(m, drop).Keys == {}
    ensures Kept(m, drop) == m
  {
    assert forall n | n in m :: n !in Dropped(m, drop).Keys;
  }

  lemma DroppedKeyed(m: Items, drop: Tx -> bool)
    requires WellKeyed(m)
    ensures WellKeyed(Dropped(m, drop))
  {}

  lemma ListedNone(s: seq<Tx>, m: Items)
    requires Lists(s, m)
    ensures |s| == 0 <==> m.Keys == {}
  {
    if |s| > 0 {
      assert s[0].nonce in m.Keys;
    }
  }

  /** The lowest nonce among the removed transactions. */
  method LowestNonce(removed: seq<Tx>, ghost m: Items) returns (lowest: nat)
    requires Lists(removed, m) && |removed| > 0 && WellKeyed(m)
    ensures m.Keys != {} && lowest == Min(m.Keys)
  {
    lowest := MAX_UINT64;
    for i := 0 to |removed|
      invariant forall j | 0 <= j < i :: lowest <= removed[j].nonce
      invariant lowest == MAX_UINT64 || lowest in m
    {
      if lowest > removed[i].nonce {
        lowest := removed[i].nonce;
      }
    }
    assert removed[0].nonce in m.Keys;
    forall n | n in m ensures lowest <= n {
      assert m[n] in removed;
    }
  }
}
