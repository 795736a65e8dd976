/** Walks down two branches to where they fork: the common ancestor of two headers, and the transactions
    an old branch has that a new one lacks. */
module Branches {
  import opened Transactions
  import opened BlockTree

  type Bodies = map<Hash, seq<Tx>>

  function GetHeader(tree: Tree, hash: Hash, number: nat): Option<Header> {
    if hash in tree && tree[hash].number == number then Some(tree[hash]) else None
  }

  function Body(bodies: Bodies, h: Hash): seq<Tx> {
    if h in bodies then bodies[h] else []
  }

  /** The paths agree up to `m` and nowhere above. */
  ghost predicate ForkAt(p: Path, q: Path, m: nat) {
    && m < |p| && m < |q| && p[..m + 1] == q[..m + 1]
    && forall n | m < n < |p| && n < |q| :: p[n] != q[n]
  }

  /** A step down a path. */
  lemma Below(tree: Tree, genesis: Hash, h: Hash, n: nat)
    requires Closed(tree, genesis) && h in tree && 0 < n <= tree[h].number
    ensures var p := PathTo(tree, genesis, h);
            && |p| == tree[h].number + 1 && p[n] in tree && tree[p[n]].number == n && tree[p[n]].hash == p[n]
            && p[n - 1] in tree && tree[p[n - 1]].number == n - 1 && tree[p[n - 1]].hash == p[n - 1]
            && GetHeader(tree, tree[p[n]].parent, Pred(n)) == Some(tree[p[n - 1]])
  {
    PathLink(tree, genesis, h, n);
    PathPrefix(tree, genesis, h, n - 1);
    AtHeader(tree, genesis, PathTo(tree, genesis, h)[n]);
    AtHeader(tree, genesis, PathTo(tree, genesis, h)[n - 1]);
  }

  /** The highest header that is an ancestor of both, which there always is. */
  method FindCommonAncestor(tree: Tree, ghost genesis: Hash, x: Header, y: Header) returns (r: Option<Header>)
    requires Closed(tree, genesis) && x.hash in tree && tree[x.hash] == x && y.hash in tree && tree[y.hash] == y
    ensures r.Some? && r.value.hash in tree && tree[r.value.hash] == r.value
    ensures var p, q := PathTo(tree, genesis, x.hash), PathTo(tree, genesis, y.hash);
            ForkAt(p, q, r.value.number) && p[r.value.number] == r.value.hash
  {
    hide PathTo, Closed, Linked;
    var a, b := x, y;
    ghost var p, q := PathTo(tree, genesis, x.hash), PathTo(tree, genesis, y.hash);
    PathEnds(tree, genesis, x.hash);
    PathEnds(tree, genesis, y.hash);
    while a.number > y.number
      invariant a.number <= x.number && (a.number == x.number || a.number >= y.number)
      invariant a.hash == p[a.number] && a.hash in tree && tree[a.hash] == a
    {
      Below(tree, genesis, x.hash, a.number);
      var next := GetHeader(tree, a.parent, Pred(a.number));
      if next == None {
        return None;
      }
      a := next.value;
    }
    while a.number < b.number
      invariant a.number <= b.number <= y.number
      invariant b.hash == q[b.number] && b.hash in tree && tree[b.hash] == b
    {
      Below(tree, genesis, y.hash, b.number);
      var next := GetHeader(tree, b.parent, Pred(b.number));
      if next == None {
        return None;
      }
      b := next.value;
    }
    while a.hash != b.hash
      invariant a.number == b.number <= x.number && b.number <= y.number
      invariant a.hash == p[a.number] && a.hash in tree && tree[a.hash] == a
      invariant b.hash == q[b.number] && b.hash in tree && tree[b.hash] == b
      invariant forall n | a.number < n < |p| && n < |q| :: p[n] != q[n]
      decreases a.number
    {
      Below(tree, genesis, x.hash, a.number);
      Below(tree, genesis, y.hash, b.number);
      var next := GetHeader(tree, a.parent, Pred(a.number));
      if next == None {
        return None;
      }
      var other := GetHeader(tree, b.parent, Pred(b.number));
      if other == None {
        return None;
      }
      a, b := next.value, other.value;
    }
    PathsMeet(tree, genesis, x.hash, y.hash, a.number);
    return Some(a);
  }

  // ---------- the transactions of a branch ----------

  /** The transactions of the blocks of a path above `m`, from the top block down. */
  ghost function Down(bodies: Bodies, p: Path, m: int): seq<Tx>
    requires m >= -1
    decreases |p| - m
  {
    if m >= |p| - 1 then [] else Down(bodies, p, m + 1) + Body(bodies, p[m + 1])
  }

  lemma {:induction false} InDown(bodies: Bodies, p: Path, m: int, t: Tx)
    requires m >= -1
    ensures t in Down(bodies, p, m) <==> exists n | m < n < |p| :: t in Body(bodies, p[n])
    decreases |p| - m
  {
    if m < |p| - 1 {
      InDown(bodies, p, m + 1, t);
      if t in Body(bodies, p[m + 1]) {
        assert m < m + 1 < |p|;
      }
    }
  }

  ghost function Minus(a: seq<Tx>, b: seq<Tx>): (r: seq<Tx>)
    ensures forall t :: t in r <==> t in a && t !in b
  {
    if a == [] then []
    else
      var front, last := a[..|a| - 1], a[|a| - 1];
      assert a == front + [last];
      if last in b then Minus(front, b) else Minus(front, b) + [last]
  }

  /** The transactions of `a` that are not in `b`, in order. */
  method TxDifference(a: seq<Tx>, b: seq<Tx>) returns (keep: seq<Tx>)
    ensures keep == Minus(a, b)
  {
    var remove: set<Tx> := {};
    for i := 0 to |b|
      invariant forall t :: t in remove <==> t in b[..i]
    {
      assert b[..i + 1] == b[..i] + [b[i]];
      remove := remove + {b[i]};
    }
    assert b[..|b|] == b;
    keep := [];
    for i := 0 to |a|
      invariant keep == Minus(a[..i], b)
    {
      assert a[..i + 1][..i] == a[..i];
      if a[i] !in remove {
        keep := keep + [a[i]];
      }
    }
    assert a[..|a|] == a;
  }

  // ---------- reinjection ----------

  /** No transaction occurs twice in the blocks of a path. */
  ghost predicate Distinct(bodies: Bodies, p: Path) {
    && (forall n | 0 <= n < |p| :: forall i, j | 0 <= i < j < |Body(bodies, p[n])| ::
          Body(bodies, p[n])[i] != Body(bodies, p[n])[j])
    && (forall n, k, t | 0 <= n < k < |p| && t in Body(bodies, p[n]) :: t !in Body(bodies, p[k]))
  }

  ghost predicate OnPath(bodies: Bodies, p: Path, t: Tx) {
    exists n | 0 <= n < |p| :: t in Body(bodies, p[n])
  }

  /** What the branch of `p` has above the fork and that of `q` has not. */
  ghost predicate Lost(bodies: Bodies, p: Path, q: Path, txs: seq<Tx>) {
    exists m: nat | ForkAt(p, q, m) :: txs == Minus(Down(bodies, p, m), Down(bodies, q, m))
  }

  const MAX_REINJECT_DEPTH := 64

  /** The transactions to reinject when the head moves from `x` to `y`: unless the heads are too far apart
      in height, exactly those of the old branch that are not in the new one. */
  method Reinjected(tree: Tree, bodies: Bodies, ghost genesis: Hash, x: Header, y: Header) returns (txs: seq<Tx>)
    requires Closed(tree, genesis) && x.hash in tree && tree[x.hash] == x && y.hash in tree && tree[y.hash] == y
    requires forall h | h in tree :: h in bodies
    ensures var p, q := PathTo(tree, genesis, x.hash), PathTo(tree, genesis, y.hash);
            if x.number > y.number + MAX_REINJECT_DEPTH || y.number > x.number + MAX_REINJECT_DEPTH then txs == []
            else Lost(bodies, p, q, txs)
  {
    hide PathTo, Closed, Linked, Down, Minus, Lost;
    ghost var p, q := PathTo(tree, genesis, x.hash), PathTo(tree, genesis, y.hash);
    if x.hash == y.parent {
      ChildLosesNothing(tree, bodies, genesis, x, y);
      return [];
    }
    var depth := if x.number > y.number then x.number - y.number else y.number - x.number;
    if depth > MAX_REINJECT_DEPTH {
      return [];
    }
    PathEnds(tree, genesis, x.hash);
    PathEnds(tree, genesis, y.hash);
    var rem, add := x, y;
    var discarded: seq<Tx>, included: seq<Tx> := [], [];
    DownTop(bodies, p);
    DownTop(bodies, q);
    while rem.number > add.number
      invariant rem.number <= x.number && (rem.number == x.number || rem.number >= add.number)
      invariant rem.hash == p[rem.number] && rem.hash in tree && tree[rem.hash] == rem
                && discarded == Down(bodies, p, rem.number)
    {
      Below(tree, genesis, x.hash, rem.number);
      DownStep(bodies, p, rem.number);
      discarded := discarded + bodies[rem.hash];
      var next := GetHeader(tree, rem.parent, Pred(rem.number));
      if next == None {
        return [];
      }
      rem := next.value;
    }
    while add.number > rem.number
      invariant rem.number <= add.number <= y.number
      invariant add.hash == q[add.number] && add.hash in tree && tree[add.hash] == add
                && included == Down(bodies, q, add.number)
    {
      Below(tree, genesis, y.hash, add.number);
      DownStep(bodies, q, add.number);
      included := included + bodies[add.hash];
      var next := GetHeader(tree, add.parent, Pred(add.number));
      if next == None {
        return [];
      }
      add := next.value;
    }
    while rem.hash != add.hash
      invariant rem.number == add.number <= x.number && add.number <= y.number
      invariant rem.hash == p[rem.number] && rem.hash in tree && tree[rem.hash] == rem
                && discarded == Down(bodies, p, rem.number)
      invariant add.hash == q[add.number] && add.hash in tree && tree[add.hash] == add
                && included == Down(bodies, q, add.number)
      invariant forall n | rem.number < n < |p| && n < |q| :: p[n] != q[n]
      decreases rem.number
    {
      Below(tree, genesis, x.hash, rem.number);
      Below(tree, genesis, y.hash, add.number);
      DownStep(bodies, p, rem.number);
      DownStep(bodies, q, add.number);
      discarded := discarded + bodies[rem.hash];
      var next := GetHeader(tree, rem.parent, Pred(rem.number));
      if next == None {
        return [];
      }
      included := included + bodies[add.hash];
      var other := GetHeader(tree, add.parent, Pred(add.number));
      if other == None {
        return [];
      }
      rem, add := next.value, other.value;
    }
    PathsMeet(tree, genesis, x.hash, y.hash, rem.number);
    txs := TxDifference(discarded, included);
    LostAt(bodies, p, q, rem.number);
  }

  lemma DownTop(bodies: Bodies, p: Path)
    requires |p| > 0
    ensures Down(bodies, p, |p| - 1) == []
  {}

  lemma DownStep(bodies: Bodies, p: Path, m: nat)
    requires m < |p|
    ensures Down(bodies, p, m - 1) == Down(bodies, p, m) + Body(bodies, p[m])
  {}

  lemma LostAt(bodies: Bodies, p: Path, q: Path, m: nat)
    requires ForkAt(p, q, m)
    ensures Lost(bodies, p, q, Minus(Down(bodies, p, m), Down(bodies, q, m)))
  {}

  lemma ChildLosesNothing(tree: Tree, bodies: Bodies, genesis: Hash, x: Header, y: Header)
    requires Closed(tree, genesis) && x.hash in tree && tree[x.hash] == x && y.hash in tree && tree[y.hash] == y
             && x.hash == y.parent
    ensures y.number > x.number ==> y.number == x.number + 1
    ensures Lost(bodies, PathTo(tree, genesis, x.hash), PathTo(tree, genesis, y.hash), [])
  {
    var p, q := PathTo(tree, genesis, x.hash), PathTo(tree, genesis, y.hash);
    AtHeader(tree, genesis, x.hash);
    AtHeader(tree, genesis, y.hash);
    assert q == p + [y.hash];
    assert ForkAt(p, q, x.number);
    assert Minus(Down(bodies, p, x.number), Down(bodies, q, x.number)) == [];
  }

  /** Where no path repeats a transaction, what is lost is what the old chain has and the new chain lacks. */
  lemma LostIsExact(bodies: Bodies, p: Path, q: Path, txs: seq<Tx>, t: Tx)
    requires Distinct(bodies, p) && Distinct(bodies, q) && Lost(bodies, p, q, txs)
    ensures t in txs <==> OnPath(bodies, p, t) && !OnPath(bodies, q, t)
  {
    hide Minus, Down;
    var m: nat :| ForkAt(p, q, m) && txs == Minus(Down(bodies, p, m), Down(bodies, q, m));
    InMinus(Down(bodies, p, m), Down(bodies, q, m), t);
    InDown(bodies, p, m, t);
    InDown(bodies, q, m, t);
    assert forall n | 0 <= n <= m :: p[n] == p[..m + 1][n] && q[n] == q[..m + 1][n];
    if t in txs {
      var n :| m < n < |p| && t in Body(bodies, p[n]);
      assert forall k | 0 <= k <= m :: t !in Body(bodies, p[k]);
    } else if OnPath(bodies, p, t) {
      var n :| 0 <= n < |p| && t in Body(bodies, p[n]);
      if n <= m {
        assert t in Body(bodies, q[n]);
      }
    }
  }

  lemma InMinus(a: seq<Tx>, b: seq<Tx>, t: Tx)
    ensures t in Minus(a, b) <==> t in a && t !in b
  {}
}
