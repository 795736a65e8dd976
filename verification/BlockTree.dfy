/** Headers, the tree their parent links make, and the paths back to genesis. */
module BlockTree {
  import opened Transactions

  /** Header hashes; zero stands for no hash. */
  type Hash = nat

  /** A header with its hash: a hash belongs to one header only. */
  datatype Header = Header(hash: Hash, parent: Hash, number: nat, difficulty: nat)

  type Tree = map<Hash, Header>

  type Path = seq<Hash>

  /** The 64-bit number before `n`. */
  function Pred(n: nat): nat {
    if n == 0 then MAX_UINT64 else n - 1
  }

  ghost predicate Linked(tree: Tree, genesis: Hash, h: Hash)
    requires h in tree
  {
    var x := tree[h];
    && x.hash == h && h != 0 && x.number < MAX_UINT64 && (x.number == 0 <==> h == genesis)
    && (h == genesis ==> x.parent == 0)
    && (h != genesis ==> x.parent in tree && tree[x.parent].number + 1 == x.number)
  }

  /** Every header but genesis has its parent, numbered one less, in the tree. */
  ghost predicate Closed(tree: Tree, genesis: Hash) {
    genesis in tree && forall h {:trigger Linked(tree, genesis, h)} | h in tree :: Linked(tree, genesis, h)
  }

  lemma AtHeader(tree: Tree, genesis: Hash, h: Hash)
    requires Closed(tree, genesis) && h in tree
    ensures Linked(tree, genesis, h)
  {}

  /** The hashes from genesis up to `h`. */
  ghost function PathTo(tree: Tree, genesis: Hash, h: Hash): (r: Path)
    requires Closed(tree, genesis) && h in tree
    ensures |r| == tree[h].number + 1 && r[tree[h].number] == h && r[0] == genesis
    decreases tree[h].number
  {
    assert Linked(tree, genesis, h);
    if h == genesis then [h] else PathTo(tree, genesis, tree[h].parent) + [h]
  }

  lemma PathEnds(tree: Tree, genesis: Hash, h: Hash)
    requires Closed(tree, genesis) && h in tree
    ensures var p := PathTo(tree, genesis, h); |p| == tree[h].number + 1 && p[0] == genesis && p[|p| - 1] == h
  {}

  /** The sum of the difficulties along a path. */
  ghost function Work(tree: Tree, path: Path): nat {
    if path == [] then 0
    else
      var h := path[|path| - 1];
      Work(tree, path[..|path| - 1]) + (if h in tree then tree[h].difficulty else 0)
  }

  /** The path to a hash on a path is the front of that path. */
  lemma {:induction false} PathPrefix(tree: Tree, genesis: Hash, h: Hash, n: nat)
    requires Closed(tree, genesis) && h in tree && n <= tree[h].number
    ensures var a := PathTo(tree, genesis, h)[n];
            a in tree && tree[a].number == n && PathTo(tree, genesis, a) == PathTo(tree, genesis, h)[..n + 1]
    decreases tree[h].number
  {
    AtHeader(tree, genesis, h);
    var p := PathTo(tree, genesis, h);
    if n < tree[h].number {
      var x := tree[h].parent;
      PathPrefix(tree, genesis, x, n);
      assert p == PathTo(tree, genesis, x) + [h];
    } else {
      assert p[..n + 1] == p;
    }
  }

  /** Neighbours on a path are child and parent. */
  lemma PathLink(tree: Tree, genesis: Hash, h: Hash, n: nat)
    requires Closed(tree, genesis) && h in tree && 0 < n <= tree[h].number
    ensures var p := PathTo(tree, genesis, h); p[n] in tree && tree[p[n]].number == n && tree[p[n]].parent == p[n - 1]
  {
    PathPrefix(tree, genesis, h, n);
    var a := PathTo(tree, genesis, h)[n];
    AtHeader(tree, genesis, a);
    assert PathTo(tree, genesis, a) == PathTo(tree, genesis, tree[a].parent) + [a];
    assert PathTo(tree, genesis, a)[n - 1] == tree[a].parent;
  }

  /** Paths that meet agree below the meeting point. */
  lemma PathsMeet(tree: Tree, genesis: Hash, a: Hash, b: Hash, n: nat)
    requires Closed(tree, genesis) && a in tree && b in tree && n <= tree[a].number && n <= tree[b].number
    requires PathTo(tree, genesis, a)[n] == PathTo(tree, genesis, b)[n]
    ensures PathTo(tree, genesis, a)[..n + 1] == PathTo(tree, genesis, b)[..n + 1]
  {
    PathPrefix(tree, genesis, a, n);
    PathPrefix(tree, genesis, b, n);
  }

  // ---------- growing the tree ----------

  /** A header that may be added: its parent is there, numbered one less, and its hash is its own. */
  ghost predicate Fits(tree: Tree, x: Header) {
    && x.hash != 0 && x.parent in tree && x.number == tree[x.parent].number + 1 && x.number < MAX_UINT64
    && (x.hash in tree ==> tree[x.hash] == x)
  }

  lemma GrownIsClosed(tree: Tree, genesis: Hash, x: Header)
    requires Closed(tree, genesis) && Fits(tree, x)
    ensures Closed(tree[x.hash := x], genesis)
  {
    var tree' := tree[x.hash := x];
    AtHeader(tree, genesis, genesis);
    AtHeader(tree, genesis, x.parent);
    forall h | h in tree' ensures Linked(tree', genesis, h) {
      if h in tree {
        AtHeader(tree, genesis, h);
      }
    }
  }

  lemma {:induction false} PathGrown(tree: Tree, genesis: Hash, x: Header, h: Hash)
    requires Closed(tree, genesis) && Fits(tree, x) && Closed(tree[x.hash := x], genesis) && h in tree
    ensures PathTo(tree[x.hash := x], genesis, h) == PathTo(tree, genesis, h)
    decreases tree[h].number
  {
    AtHeader(tree, genesis, h);
    if h != genesis {
      PathGrown(tree, genesis, x, tree[h].parent);
    }
  }

  lemma PathToNew(tree: Tree, genesis: Hash, x: Header)
    requires Closed(tree, genesis) && Fits(tree, x) && Closed(tree[x.hash := x], genesis)
    ensures PathTo(tree[x.hash := x], genesis, x.hash) == PathTo(tree, genesis, x.parent) + [x.hash]
  {
    AtHeader(tree[x.hash := x], genesis, x.hash);
    AtHeader(tree, genesis, genesis);
    PathGrown(tree, genesis, x, x.parent);
  }

  lemma {:induction false} WorkGrown(tree: Tree, x: Header, path: Path)
    requires (x.hash in tree ==> tree[x.hash] == x) && forall n | 0 <= n < |path| :: path[n] in tree
    ensures Work(tree[x.hash := x], path) == Work(tree, path)
  {
    if path != [] {
      assert path[|path| - 1] in tree;
      WorkGrown(tree, x, path[..|path| - 1]);
    }
  }

  lemma PathInTree(tree: Tree, genesis: Hash, h: Hash)
    requires Closed(tree, genesis) && h in tree
    ensures forall n | 0 <= n < |PathTo(tree, genesis, h)| :: PathTo(tree, genesis, h)[n] in tree
  {
    forall n | 0 <= n < |PathTo(tree, genesis, h)| ensures PathTo(tree, genesis, h)[n] in tree {
      PathPrefix(tree, genesis, h, n);
    }
  }

  /** The work behind an old header stays; that behind the new one is its parent's and its own difficulty. */
  lemma WorkOf(tree: Tree, genesis: Hash, x: Header, h: Hash)
    requires Closed(tree, genesis) && Fits(tree, x) && Closed(tree[x.hash := x], genesis) && h in tree
    ensures var tree' := tree[x.hash := x];
            Work(tree', PathTo(tree', genesis, h)) == Work(tree, PathTo(tree, genesis, h))
  {
    PathGrown(tree, genesis, x, h);
    PathInTree(tree, genesis, h);
    WorkGrown(tree, x, PathTo(tree, genesis, h));
  }

  lemma WorkOfNew(tree: Tree, genesis: Hash, x: Header)
    requires Closed(tree, genesis) && Fits(tree, x) && Closed(tree[x.hash := x], genesis)
    ensures var tree' := tree[x.hash := x];
            Work(tree', PathTo(tree', genesis, x.hash)) == Work(tree, PathTo(tree, genesis, x.parent)) + x.difficulty
  {
    var tree' := tree[x.hash := x];
    var p := PathTo(tree, genesis, x.parent);
    PathToNew(tree, genesis, x);
    assert (p + [x.hash])[..|p|] == p;
    PathInTree(tree, genesis, x.parent);
    WorkGrown(tree, x, p);
  }
}
