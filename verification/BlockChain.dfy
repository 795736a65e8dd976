/** The block chain: blocks with their transactions, the canonical index and the transaction lookup table,
    both rewritten in place when a heavier branch takes over. */
module BlockChains {
  import opened Transactions
  import opened BlockTree
  import opened Branches
  import HeaderChains

  datatype Block = Block(header: Header, txs: seq<Tx>)

  /** Where a transaction is: its block, that block's number, and the index within the block. */
  datatype Entry = Entry(hash: Hash, number: nat, index: nat)

  type Lookup = map<Tx, Entry>

  datatype Status = Canonical | Side | UnknownAncestor | InvalidChain

  function GetBlock(headers: Tree, bodies: Bodies, hash: Hash, number: nat): Option<Block> {
    if hash in headers && headers[hash].number == number
        && hash in bodies then Some(Block(headers[hash], bodies[hash])) else None
  }

  function CanonicalHash(canon: map<nat, Hash>, n: nat): Hash {
    if n in canon then canon[n] else 0
  }

  function BlockOf(tree: Tree, bodies: Bodies, h: Hash): Block
    requires h in tree
  {
    Block(tree[h], Body(bodies, h))
  }

  // ---------- what the lookup table is to hold ----------

  /** The entry tells where on the path the transaction is. */
  ghost predicate Right(bodies: Bodies, p: Path, t: Tx, e: Entry) {
    && e.number < |p| && e.hash == p[e.number]
    && e.index < |Body(bodies, e.hash)| && Body(bodies, e.hash)[e.index] == t
  }

  /** The table holds exactly the transactions of the path, each with its block and position. */
  ghost predicate Exact(lookup: Lookup, bodies: Bodies, p: Path) {
    && (forall t | t in lookup :: Right(bodies, p, t, lookup[t]))
    && (forall n, t | 0 <= n < |p| && t in Body(bodies, p[n]) :: t in lookup)
  }

  /** The transaction is in a block of the path above `m`, up to `n`. */
  ghost predicate Between(bodies: Bodies, p: Path, m: int, n: int, t: Tx) {
    exists k | m < k <= n && 0 <= k < |p| :: t in Body(bodies, p[k])
  }

  /** The old table with right entries for the blocks of `q` above `m`, up to `n`, written over it. */
  ghost predicate Overlaid(lookup: Lookup, was: Lookup, bodies: Bodies, q: Path, m: int, n: int) {
    && (forall t | Between(bodies, q, m, n, t) :: t in lookup && Right(bodies, q, t, lookup[t]))
    && (forall t | !Between(bodies, q, m, n, t) :: (t in lookup <==> t in was) && (t in was ==> lookup[t] == was[t]))
  }

  lemma NothingOverlaid(lookup: Lookup, bodies: Bodies, q: Path, m: int)
    ensures Overlaid(lookup, lookup, bodies, q, m, m)
  {}

  /** What writing a block's entries does to the table. */
  ghost predicate Entered(was: Lookup, now: Lookup, b: Block) {
    && (forall t | t in b.txs :: t in now && now[t].hash == b.header.hash && now[t].number == b.header.number
                                 && now[t].index < |b.txs| && b.txs[now[t].index] == t)
    && (forall t | t !in b.txs :: (t in now <==> t in was) && (t in was ==> now[t] == was[t]))
  }

  lemma OverlayOne(was: Lookup, before: Lookup, after: Lookup, tree: Tree, bodies: Bodies, q: Path, m: int, n: nat)
    requires -1 <= m < n < |q| && q[n] in tree && tree[q[n]].number == n && tree[q[n]].hash == q[n]
    requires Overlaid(before, was, bodies, q, m, n - 1) && Entered(before, after, BlockOf(tree, bodies, q[n]))
    ensures Overlaid(after, was, bodies, q, m, n)
  {}

  /** The transactions that go: on the old path above the fork and not on the new one above it. */
  ghost predicate Gone(gone: seq<Tx>, bodies: Bodies, p: Path, q: Path, m: nat) {
    forall t :: t in gone <==> Between(bodies, p, m, |p| - 1, t) && !Between(bodies, q, m, |q| - 1, t)
  }

  /** After the switch: the overlaid table without what has gone is exact for the new path. */
  lemma Switched(was: Lookup, lookup: Lookup, gone: seq<Tx>, bodies: Bodies, p: Path, q: Path, m: nat, now: Lookup)
    requires Exact(was, bodies, p) && Distinct(bodies, p) && Distinct(bodies, q) && ForkAt(p, q, m)
    requires Overlaid(lookup, was, bodies, q, m, |q| - 1) && Gone(gone, bodies, p, q, m)
    requires now == map t | t in lookup && t !in gone :: lookup[t]
    ensures Exact(now, bodies, q)
  {
    assert forall n | 0 <= n <= m :: p[n] == q[n] by {
      assert forall n | 0 <= n <= m :: p[n] == p[..m + 1][n] && q[n] == q[..m + 1][n];
    }
    forall t | t in now ensures Right(bodies, q, t, now[t]) {
      SwitchedRight(was, lookup, gone, bodies, p, q, m, t);
    }
    forall n, t | 0 <= n < |q| && t in Body(bodies, q[n]) ensures t in now {
      SwitchedIn(was, lookup, gone, bodies, p, q, m, n, t);
    }
  }

  lemma SwitchedRight(was: Lookup, lookup: Lookup, gone: seq<Tx>, bodies: Bodies, p: Path, q: Path, m: nat, t: Tx)
    requires Exact(was, bodies, p) && m < |p| && m < |q| && forall n | 0 <= n <= m :: p[n] == q[n]
    requires Overlaid(lookup, was, bodies, q, m, |q| - 1) && Gone(gone, bodies, p, q, m) && t in lookup && t !in gone
    ensures Right(bodies, q, t, lookup[t])
  {}

  lemma SwitchedIn(was: Lookup, lookup: Lookup, gone: seq<Tx>, bodies: Bodies, p: Path, q: Path, m: nat, n: nat, t: Tx)
    requires Exact(was, bodies, p) && Distinct(bodies, p) && m < |p| && m < |q|
             && forall k | 0 <= k <= m :: p[k] == q[k]
    requires Overlaid(lookup, was, bodies, q, m, |q| - 1) && Gone(gone, bodies, p, q, m)
    requires n < |q| && t in Body(bodies, q[n])
    ensures t in lookup && t !in gone
  {}

  // ---------- the store with one more block ----------

  /** Every stored header has its body. */
  ghost predicate Bodied(headers: Tree, bodies: Bodies) {
    forall h | h in headers :: h in bodies
  }

  /** A block that may be stored: it extends a known one, and its hash is its own. */
  ghost predicate Extends(headers: Tree, bodies: Bodies, x: Block) {
    Fits(headers, x.header) && (x.header.hash in bodies ==> bodies[x.header.hash] == x.txs)
  }

  /** No chain of stored blocks repeats a transaction. */
  ghost predicate AllDistinct(headers: Tree, genesis: Hash, bodies: Bodies) {
    Closed(headers, genesis) && forall h | h in headers :: Distinct(bodies, PathTo(headers, genesis, h))
  }

  ghost predicate Sums(headers: Tree, genesis: Hash, tds: map<Hash, nat>) {
    Closed(headers, genesis) && forall h | h in headers ::
          h in tds && tds[h] == Work(headers, PathTo(headers, genesis, h))
  }

  /** The index holds the path; what lies above its end does not matter. */
  ghost predicate IndexedBy(canon: map<nat, Hash>, p: Path, top: int) {
    forall n | 0 <= n <= top && n < |p| :: n in canon && canon[n] == p[n]
  }

  ghost predicate WellStored(headers: Tree, genesis: Hash, bodies: Bodies, tds: map<Hash, nat>) {
    Closed(headers, genesis) && Bodied(headers, bodies) && Sums(headers, genesis, tds)
        && AllDistinct(headers, genesis, bodies)
  }

  lemma BodyGrown(headers: Tree, genesis: Hash, bodies: Bodies, x: Block, h: Hash)
    requires Closed(headers, genesis) && Extends(headers, bodies, x) && Bodied(headers, bodies) && h in headers
    ensures forall n | 0 <= n < |PathTo(headers, genesis, h)| ::
              Body(bodies[x.header.hash := x.txs], PathTo(headers, genesis, h)[n]) == Body(bodies, PathTo(headers,
                  genesis, h)[n])
  {
    PathInTree(headers, genesis, h);
  }

  /** Bodies that agree along a path serve it alike. */
  lemma SameBodies(bodies: Bodies, bodies': Bodies, p: Path, lookup: Lookup)
    requires forall n | 0 <= n < |p| :: Body(bodies', p[n]) == Body(bodies, p[n])
    ensures Distinct(bodies, p) ==> Distinct(bodies', p)
    ensures Exact(lookup, bodies, p) ==> Exact(lookup, bodies', p)
  {}

  lemma DistinctGrown(headers: Tree, genesis: Hash, bodies: Bodies, x: Block)
    requires AllDistinct(headers, genesis, bodies) && Extends(headers, bodies, x) && Bodied(headers, bodies)
    requires Distinct(bodies[x.header.hash := x.txs], PathTo(headers, genesis, x.header.parent) + [x.header.hash])
    ensures AllDistinct(headers[x.header.hash := x.header], genesis, bodies[x.header.hash := x.txs])
  {
    var tree', bodies' := headers[x.header.hash := x.header], bodies[x.header.hash := x.txs];
    GrownIsClosed(headers, genesis, x.header);
    PathToNew(headers, genesis, x.header);
    forall h | h in tree' ensures Distinct(bodies', PathTo(tree', genesis, h)) {
      if h != x.header.hash {
        PathGrown(headers, genesis, x.header, h);
        BodyGrown(headers, genesis, bodies, x, h);
        SameBodies(bodies, bodies', PathTo(headers, genesis, h), map[]);
      }
    }
  }

  lemma SumsGrown(headers: Tree, genesis: Hash, tds: map<Hash, nat>, x: Header)
    requires Sums(headers, genesis, tds) && Fits(headers, x)
    ensures x.parent in tds && Sums(headers[x.hash := x], genesis, tds[x.hash := tds[x.parent] + x.difficulty])
  {
    hide PathTo, Work, Linked;
    GrownIsClosed(headers, genesis, x);
    WorkOfNew(headers, genesis, x);
    forall h | h in headers && h != x.hash
      ensures Work(headers[x.hash := x], PathTo(headers[x.hash := x], genesis, h)) == Work(headers, PathTo(headers,
              genesis, h))
    {
      WorkOf(headers, genesis, x, h);
    }
  }

  // ---------- gathering the two branches ----------

  /** The blocks of a path above `m`, from the top down. */
  ghost predicate Gathered(chain: seq<Block>, tree: Tree, bodies: Bodies, p: Path, m: int) {
    && -1 <= m < |p| && |chain| == |p| - 1 - m
    && forall n | m < n < |p| :: p[n] in tree && chain[|p| - 1 - n] == BlockOf(tree, bodies, p[n])
  }

  lemma GatherNone(tree: Tree, bodies: Bodies, p: Path)
    requires |p| > 0
    ensures Gathered([], tree, bodies, p, |p| - 1)
  {}

  lemma GatherOne(chain: seq<Block>, tree: Tree, bodies: Bodies, p: Path, m: nat)
    requires Gathered(chain, tree, bodies, p, m) && p[m] in tree
    ensures Gathered(chain + [BlockOf(tree, bodies, p[m])], tree, bodies, p, m - 1)
  {}

  /** An import: the store, the head and the new block, and, with the block added, the tree, the bodies and the
      paths to the head and to the block. */
  datatype Scene = Scene(headers: Tree, bodies: Bodies, genesis: Hash, head: Hash, x: Block,
                         tree: Tree, grown: Bodies, p: Path, q: Path)

  ghost predicate Setting(c: Scene) {
    && Closed(c.headers, c.genesis) && Bodied(c.headers, c.bodies) && Extends(c.headers, c.bodies, c.x)
    && c.head in c.headers
    && c.tree == c.headers[c.x.header.hash := c.x.header] && c.grown == c.bodies[c.x.header.hash := c.x.txs]
    && Closed(c.tree, c.genesis)
    && c.p == PathTo(c.tree, c.genesis, c.head) && c.q == PathTo(c.tree, c.genesis, c.x.header.hash)
  }

  /** The block at a place of a path. */
  ghost predicate AtPlace(b: Block, tree: Tree, bodies: Bodies, p: Path, n: nat) {
    n < |p| && p[n] in tree && b == BlockOf(tree, bodies, p[n]) && b.header.number == n && b.header.hash == p[n]
  }

  lemma SettingOut(c: Scene)
    requires Setting(c)
    ensures |c.p| == c.headers[c.head].number + 1 && |c.q| == c.x.header.number + 1 && c.p[0] == c.q[0]
    ensures AtPlace(BlockOf(c.headers, c.bodies, c.head), c.tree, c.grown, c.p, |c.p| - 1)
    ensures AtPlace(c.x, c.tree, c.grown, c.q, |c.q| - 1)
  {
    PathEnds(c.tree, c.genesis, c.head);
    PathEnds(c.tree, c.genesis, c.x.header.hash);
    AtHeader(c.tree, c.genesis, c.head);
    AtHeader(c.tree, c.genesis, c.x.header.hash);
  }

  /** Reading the parent of a block on either path gives the block below. */
  lemma ParentRead(c: Scene, n: nat, onNew: bool)
    requires Setting(c)
    requires var r := if onNew then c.q else c.p; 0 < n < |r| && r[n] in c.tree
    ensures var r := if onNew then c.q else c.p;
            var b := GetBlock(c.headers, c.bodies, c.tree[r[n]].parent, Pred(n));
            b.Some? && AtPlace(b.value, c.tree, c.grown, r, n - 1)
  {
    var r := if onNew then c.q else c.p;
    var top := if onNew then c.x.header.hash else c.head;
    PathEnds(c.tree, c.genesis, top);
    PathLink(c.tree, c.genesis, top, n);
    PathPrefix(c.tree, c.genesis, top, n - 1);
    AtHeader(c.tree, c.genesis, r[n - 1]);
    if onNew {
      PathToNew(c.headers, c.genesis, c.x.header);
      PathInTree(c.headers, c.genesis, c.x.header.parent);
    } else {
      PathGrown(c.headers, c.genesis, c.x.header, c.head);
      PathInTree(c.headers, c.genesis, c.head);
    }
  }

  /** The walk down the old branch is at `a`, having gathered what lies above it. */
  ghost predicate OnOld(c: Scene, a: Block, chain: seq<Block>, deleted: seq<Tx>) {
    && AtPlace(a, c.tree, c.grown, c.p, a.header.number)
    && Gathered(chain, c.tree, c.grown, c.p, a.header.number) && deleted == Down(c.grown, c.p, a.header.number)
  }

  ghost predicate OnNew(c: Scene, b: Block, chain: seq<Block>) {
    AtPlace(b, c.tree, c.grown, c.q, b.header.number) && Gathered(chain, c.tree, c.grown, c.q, b.header.number)
  }

  /** The paths differ everywhere above a number. */
  ghost predicate Parted(c: Scene, n: nat) {
    forall k | n < k < |c.p| && k < |c.q| :: c.p[k] != c.q[k]
  }

  lemma WalkStarts(c: Scene)
    requires Setting(c)
    ensures OnOld(c, BlockOf(c.headers, c.bodies, c.head), [], []) && OnNew(c, c.x, [])
    ensures var m, n := c.headers[c.head].number, c.x.header.number; Parted(c, if m < n then m else n)
  {
    SettingOut(c);
    GatherNone(c.tree, c.grown, c.p);
    GatherNone(c.tree, c.grown, c.q);
    DownTop(c.grown, c.p);
  }

  lemma OldStep(c: Scene, a: Block, chain: seq<Block>, deleted: seq<Tx>)
    requires Setting(c) && OnOld(c, a, chain, deleted) && a.header.number > 0
    ensures var b := GetBlock(c.headers, c.bodies, a.header.parent, Pred(a.header.number));
            b.Some? && b.value.header.number == a.header.number - 1 && OnOld(c, b.value, chain + [a], deleted + a.txs)
  {
    hide Setting, Gathered, Down;
    GatherOne(chain, c.tree, c.grown, c.p, a.header.number);
    DownStep(c.grown, c.p, a.header.number);
    ParentRead(c, a.header.number, false);
  }

  lemma NewStep(c: Scene, b: Block, chain: seq<Block>)
    requires Setting(c) && OnNew(c, b, chain) && b.header.number > 0
    ensures var a := GetBlock(c.headers, c.bodies, b.header.parent, Pred(b.header.number));
            a.Some? && a.value.header.number == b.header.number - 1 && OnNew(c, a.value, chain + [b])
  {
    hide Setting, Gathered;
    GatherOne(chain, c.tree, c.grown, c.q, b.header.number);
    ParentRead(c, b.header.number, true);
  }

  /** The walks meet at genesis at the latest, and where they meet is the fork. */
  lemma WalksMeet(c: Scene, a: Block, b: Block, chain: seq<Block>, deleted: seq<Tx>, chain': seq<Block>)
    requires Setting(c) && OnOld(c, a, chain, deleted) && OnNew(c, b, chain')
    requires a.header.number == b.header.number && Parted(c, a.header.number)
    ensures a.header.hash == b.header.hash ==> ForkAt(c.p, c.q, a.header.number)
    ensures a.header.hash != b.header.hash ==> a.header.number > 0 && Parted(c, a.header.number - 1)
  {
    hide Gathered, Down;
    SettingOut(c);
    if a.header.hash == b.header.hash {
      PathsMeet(c.tree, c.genesis, c.head, c.x.header.hash, a.header.number);
    }
  }

  /** Gathers the old branch from the head and the new one from `x` down to the fork, with the old
      branch's transactions. */
  method Gather(headers: Tree, bodies: Bodies, head: Block, x: Block, ghost c: Scene)
    returns (ok: bool, oldChain: seq<Block>, newChain: seq<Block>, deleted: seq<Tx>, ghost m: nat)
    requires Setting(c) && c.headers == headers && c.bodies == bodies && c.head == head.header.hash && c.x == x
    requires head == BlockOf(headers, bodies, head.header.hash)
    ensures ok && ForkAt(c.p, c.q, m) && deleted == Down(c.grown, c.p, m)
    ensures Gathered(oldChain, c.tree, c.grown, c.p, m) && Gathered(newChain, c.tree, c.grown, c.q, m)
  {
    hide Setting, OnOld, OnNew, Parted, ForkAt, GetBlock, Down, Gathered;
    ok, oldChain, newChain, deleted, m := false, [], [], [], 0;
    WalkStarts(c);
    var a, b := head, x;
    if a.header.number > b.header.number {
      while a.header.number != b.header.number
        invariant b.header.number <= a.header.number && OnOld(c, a, oldChain, deleted)
        decreases a.header.number
      {
        OldStep(c, a, oldChain, deleted);
        oldChain, deleted := oldChain + [a], deleted + a.txs;
        var next := GetBlock(headers, bodies, a.header.parent, Pred(a.header.number));
        if next == None {
          return;
        }
        a := next.value;
      }
    } else {
      while b.header.number != a.header.number
        invariant a.header.number <= b.header.number && OnNew(c, b, newChain)
        decreases b.header.number
      {
        NewStep(c, b, newChain);
        newChain := newChain + [b];
        var next := GetBlock(headers, bodies, b.header.parent, Pred(b.header.number));
        if next == None {
          return;
        }
        b := next.value;
      }
    }
    while a.header.hash != b.header.hash
      invariant a.header.number == b.header.number && Parted(c, a.header.number)
      invariant OnOld(c, a, oldChain, deleted) && OnNew(c, b, newChain)
      decreases a.header.number
    {
      WalksMeet(c, a, b, oldChain, deleted, newChain);
      OldStep(c, a, oldChain, deleted);
      NewStep(c, b, newChain);
      oldChain, newChain, deleted := oldChain + [a], newChain + [b], deleted + a.txs;
      var next := GetBlock(headers, bodies, a.header.parent, Pred(a.header.number));
      if next == None {
        return;
      }
      var other := GetBlock(headers, bodies, b.header.parent, Pred(b.header.number));
      if other == None {
        return;
      }
      a, b := next.value, other.value;
    }
    WalksMeet(c, a, b, oldChain, deleted, newChain);
    ok, m := true, a.header.number;
    WalkEnds(c, a, b, oldChain, deleted, newChain);
  }

  lemma WalkEnds(c: Scene, a: Block, b: Block, chain: seq<Block>, deleted: seq<Tx>, chain': seq<Block>)
    requires OnOld(c, a, chain, deleted) && OnNew(c, b, chain') && a.header.number == b.header.number
    ensures deleted == Down(c.grown, c.p, a.header.number)
    ensures Gathered(chain, c.tree, c.grown, c.p, a.header.number)
    ensures Gathered(chain', c.tree, c.grown, c.q, a.header.number)
  {}

  // ---------- taking over ----------

  lemma GatheredAt(chain: seq<Block>, tree: Tree, bodies: Bodies, p: Path, m: int, n: nat)
    requires Gathered(chain, tree, bodies, p, m) && m < n < |p|
    ensures p[n] in tree && chain[|p| - 1 - n] == BlockOf(tree, bodies, p[n])
  {}

  lemma IndexedOnce(canon: map<nat, Hash>, q: Path, n: nat)
    requires n < |q| && IndexedBy(canon, q, n - 1)
    ensures IndexedBy(canon[n := q[n]], q, n)
  {}

  lemma IndexedToFork(canon: map<nat, Hash>, p: Path, q: Path, m: nat)
    requires ForkAt(p, q, m) && IndexedBy(canon, p, |p| - 1)
    ensures IndexedBy(canon, q, m)
  {}

  /** The transactions met so far. */
  ghost predicate Met(added: seq<Tx>, bodies: Bodies, q: Path, m: int, n: int) {
    forall t :: t in added <==> Between(bodies, q, m, n, t)
  }

  lemma MetNone(bodies: Bodies, q: Path, m: int)
    ensures Met([], bodies, q, m, m)
  {}

  lemma MetOne(added: seq<Tx>, bodies: Bodies, q: Path, m: int, n: nat)
    requires -1 <= m < n < |q| && Met(added, bodies, q, m, n - 1)
    ensures Met(added + Body(bodies, q[n]), bodies, q, m, n)
  {}

  lemma GoneIs(bodies: Bodies, p: Path, q: Path, m: nat, added: seq<Tx>)
    requires Met(added, bodies, q, m, |q| - 1)
    ensures Gone(Minus(Down(bodies, p, m), added), bodies, p, q, m)
  {
    hide Down, Minus;
    forall t ensures t in Minus(Down(bodies, p, m), added) <==>
          Between(bodies, p, m, |p| - 1, t) && !Between(bodies, q, m, |q| - 1, t) {
      InMinus(Down(bodies, p, m), added, t);
      InDown(bodies, p, m, t);
    }
  }

  /** Extending the head: the table with the new block's entries is exact for the longer path. */
  lemma Extended(was: Lookup, now: Lookup, tree: Tree, bodies: Bodies, p: Path, q: Path, n: nat)
    requires Exact(was, bodies, p) && Distinct(bodies, p) && Distinct(bodies, q) && |p| == n && n > 0
             && |q| == n + 1 && q == p + [q[n]]
    requires q[n] in tree && tree[q[n]].number == n && tree[q[n]].hash == q[n]
             && Entered(was, now, BlockOf(tree, bodies, q[n]))
    ensures Exact(now, bodies, q)
  {}

  /** Writing right entries over right entries. */
  lemma Rewritten(was: Lookup, now: Lookup, tree: Tree, bodies: Bodies, q: Path, n: nat)
    requires Exact(was, bodies, q) && n < |q|
    requires q[n] in tree && tree[q[n]].number == n && tree[q[n]].hash == q[n]
             && Entered(was, now, BlockOf(tree, bodies, q[n]))
    ensures Exact(now, bodies, q)
  {}

  class BlockChain {
    const genesis: Hash
    var headers: Tree
    var bodies: Bodies
    var tds: map<Hash, nat>
    var canon: map<nat, Hash>
    var lookup: Lookup
    var headHash: Hash
    var current: Block
    var headHeader: Hash
    var headFast: Hash

    /** The hashes from genesis to the head block. */
    ghost function Chain(): Path
      requires Closed(headers, genesis) && current.header.hash in headers
      reads `headers, `current
    {
      PathTo(headers, genesis, current.header.hash)
    }

    /** What every sequence of block imports keeps. */
    ghost predicate Valid()
      reads this
    {
      Sound() && HeaderChains.Heaviest(headers, genesis, current.header.hash)
    }

    /** The same, but for the weight of the head. */
    ghost predicate Sound()
      reads this
    {
      && WellStored(headers, genesis, bodies, tds)
      && current.header.hash in headers && current == BlockOf(headers, bodies, current.header.hash)
          && headHash == current.header.hash
      && IndexedBy(canon, Chain(), current.header.number)
      && Exact(lookup, bodies, Chain())
    }

    constructor (g: Block)
      requires g.header.number == 0 && g.header.hash != 0 && g.header.parent == 0 && g.txs == []
      ensures Valid() && genesis == g.header.hash && current == g && headers == map[genesis := g.header]
    {
      genesis, headers, bodies := g.header.hash, map[g.header.hash := g.header], map[g.header.hash := []];
      tds, canon, lookup := map[g.header.hash := g.header.difficulty], map[0 := g.header.hash], map[];
      headHash, current, headHeader, headFast := g.header.hash, g, g.header.hash, g.header.hash;
      new;
      assert Linked(headers, genesis, genesis);
      assert Chain() == [genesis] && [genesis][..0] == [];
    }

    /** Marks a block as canonical and as the head. */
    method Insert(b: Block)
      modifies `canon, `headHash, `current, `headHeader, `headFast
      ensures canon == old(canon)[b.header.number := b.header.hash] && headHash == b.header.hash && current == b
      ensures var changed := CanonicalHash(old(canon), b.header.number) != b.header.hash;
              && headHeader == (if changed then b.header.hash else old(headHeader))
              && headFast == (if changed then b.header.hash else old(headFast))
    {
      var updateHeads := CanonicalHash(canon, b.header.number) != b.header.hash;
      canon := canon[b.header.number := b.header.hash];
      headHash, current := b.header.hash, b;
      if updateHeads {
        headHeader, headFast := b.header.hash, b.header.hash;
      }
    }

    /** Writes the place of every transaction of a block. */
    method WriteTxLookupEntries(b: Block)
      modifies `lookup
      ensures Entered(old(lookup), lookup, b)
    {
      var i := 0;
      while i < |b.txs|
        invariant 0 <= i <= |b.txs|
        invariant forall t | t in b.txs[..i] ::
                    t in lookup && lookup[t].hash == b.header.hash && lookup[t].number == b.header.number
                    && lookup[t].index < |b.txs| && b.txs[lookup[t].index] == t
        invariant forall t | t !in b.txs[..i] ::
                    (t in lookup <==> t in old(lookup)) && (t in old(lookup) ==> lookup[t] == old(lookup)[t])
      {
        assert b.txs[..i + 1] == b.txs[..i] + [b.txs[i]];
        lookup := lookup[b.txs[i] := Entry(b.header.hash, b.header.number, i)];
        i := i + 1;
      }
      assert b.txs[..|b.txs|] == b.txs;
    }

    method DeleteTxLookupEntries(txs: seq<Tx>)
      modifies `lookup
      ensures lookup == map t | t in old(lookup) && t !in txs :: old(lookup)[t]
    {
      var i := 0;
      while i < |txs|
        invariant 0 <= i <= |txs| && lookup == map t | t in old(lookup) && t !in txs[..i] :: old(lookup)[t]
      {
        assert txs[..i + 1] == txs[..i] + [txs[i]];
        lookup := lookup - {txs[i]};
        i := i + 1;
      }
      assert txs[..|txs|] == txs;
    }

    /** Makes the gathered new branch canonical, lowest block first, and returns its transactions. */
    method InsertBranch(chain: seq<Block>, ghost tree: Tree, ghost bodies': Bodies, ghost q: Path,
                        ghost m: nat) returns (added: seq<Tx>)
      requires Gathered(chain, tree, bodies', q, m) && IndexedBy(canon, q, m)
      requires forall n | 0 <= n < |q| :: q[n] in tree && tree[q[n]].number == n && tree[q[n]].hash == q[n]
      modifies `canon, `lookup, `headHash, `current, `headHeader, `headFast
      ensures IndexedBy(canon, q, |q| - 1) && Overlaid(lookup, old(lookup), bodies', q, m, |q| - 1)
              && Met(added, bodies', q, m, |q| - 1)
      ensures chain != [] ==> current == chain[0] && headHash == current.header.hash
    {
      hide Gathered, IndexedBy, Overlaid, Met, Entered;
      added := [];
      NothingOverlaid(lookup, bodies', q, m);
      MetNone(bodies', q, m);
      var i := |chain|;
      ChainLength(chain, tree, bodies', q, m);
      while i > 0
        invariant 0 <= i <= |chain|
        invariant IndexedBy(canon, q, |q| - 1 - i) && Overlaid(lookup, old(lookup), bodies', q, m, |q| - 1 - i)
        invariant Met(added, bodies', q, m, |q| - 1 - i)
        invariant i < |chain| ==> current == chain[i] && headHash == current.header.hash
      {
        i := i - 1;
        ghost var n := |q| - 1 - i;
        GatheredAt(chain, tree, bodies', q, m, n);
        IndexedOnce(canon, q, n);
        Insert(chain[i]);
        ghost var before := lookup;
        WriteTxLookupEntries(chain[i]);
        OverlayOne(old(lookup), before, lookup, tree, bodies', q, m, n);
        MetOne(added, bodies', q, m, n);
        added := added + chain[i].txs;
      }
    }

    /** The block is about to be taken in; index and table are the head's. */
    ghost predicate Taking(c: Scene, x: Block)
      reads `headers, `bodies, `current, `canon, `lookup
    {
      && Setting(c) && c.headers == headers && c.bodies == bodies && c.head == current.header.hash && c.x == x
      && c.genesis == genesis
      && c.head in headers && current == BlockOf(headers, bodies, c.head) && IndexedBy(canon, c.p, |c.p| - 1)
      && Exact(lookup, c.grown, c.p) && Distinct(c.grown, c.p) && Distinct(c.grown, c.q)
    }

    /** Moves the canonical index and the lookup table from the head's branch to that of `x`. */
    method Reorg(x: Block, ghost c: Scene) returns (ok: bool)
      requires Taking(c, x)
      modifies `canon, `lookup, `headHash, `current, `headHeader, `headFast
      ensures ok && IndexedBy(canon, c.q, |c.q| - 1) && Exact(lookup, c.grown, c.q)
    {
      hide Setting, IndexedBy, Exact, Distinct, Gathered, Overlaid, Met, Gone, ForkAt, Down, Minus;
      var gathered, oldChain, newChain, deleted, m := Gather(headers, bodies, current, x, c);
      ok := gathered;
      if !ok {
        return;
      }
      ghost var was := lookup;
      PlacesOf(c);
      IndexedToFork(canon, c.p, c.q, m);
      var added := InsertBranch(newChain, c.tree, c.grown, c.q, m);
      var gone := TxDifference(deleted, added);
      GoneIs(c.grown, c.p, c.q, m, added);
      ghost var overlaid := lookup;
      DeleteTxLookupEntries(gone);
      Switched(was, overlaid, gone, c.grown, c.p, c.q, m, lookup);
    }

    /** Makes `x` the head, reorganising if it does not extend it. */
    method Adopt(x: Block, ghost c: Scene) returns (ok: bool)
      requires Taking(c, x)
      modifies `canon, `lookup, `headHash, `current, `headHeader, `headFast
      ensures ok && current == x && headHash == x.header.hash
      ensures IndexedBy(canon, c.q, |c.q| - 1) && Exact(lookup, c.grown, c.q)
    {
      hide Setting, IndexedBy, Exact, Distinct, Entered, Body;
      SettingOut(c);
      ghost var n := x.header.number;
      ok := true;
      if x.header.parent != current.header.hash {
        ok := Reorg(x, c);
        if !ok {
          return;
        }
        ghost var was := lookup;
        WriteTxLookupEntries(x);
        Rewritten(was, lookup, c.tree, c.grown, c.q, n);
        IndexedAgain(canon, c.q, n);
      } else {
        ghost var was := lookup;
        ExtendsHead(c);
        WriteTxLookupEntries(x);
        Extended(was, lookup, c.tree, c.grown, c.p, c.q, n);
        IndexedFurther(canon, c.p, c.q, n);
      }
      Insert(x);
    }

    /** The parent's total difficulty is found exactly if the parent is stored. */
    lemma Known(x: Block)
      requires Valid() && Importable(headers, bodies, genesis, x)
      ensures Closed(headers, genesis) && current.header.hash in tds
      ensures x.header.parent in headers <==>
                x.header.parent in tds && x.header.parent in headers
                    && headers[x.header.parent].number == Pred(x.header.number)
    {}

    /** Writes a block that has been executed: always stored, and made the head if its branch is heavier, or as
        heavy and shorter, or as heavy and as long and favoured by a coin. */
    method WriteBlockWithState(x: Block) returns (status: Status)
      requires Valid() && Importable(headers, bodies, genesis, x)
      modifies this
      ensures Valid()
      ensures status == UnknownAncestor <==> x.header.parent !in old(headers)
      ensures status == UnknownAncestor ==> headers == old(headers) && bodies == old(bodies) && current == old(current)
      ensures status != UnknownAncestor ==>
                headers == old(headers)[x.header.hash := x.header] && bodies == old(bodies)[x.header.hash := x.txs]
      ensures status == Canonical ==> current == x
      ensures status != Canonical ==> current == old(current) && canon == old(canon) && lookup == old(lookup)
      ensures status != InvalidChain
      ensures status != UnknownAncestor && x.header.parent in old(tds) && old(current.header.hash) in old(tds)
              && x.header.difficulty + old(tds)[x.header.parent] == old(tds)[old(current.header.hash)] ==>
                && (x.header.number < old(current.header.number) ==> status == Canonical)
                && (x.header.number > old(current.header.number) ==> status == Side)
    {
      hide WellStored, Exact, IndexedBy, Distinct, PathTo, HeaderChains.Heaviest, Setting, BlockOf, Fits, Importable,
          Closed, Work;
      status := UnknownAncestor;
      Known(x);
      if !(x.header.parent in tds && x.header.parent in headers
          && headers[x.header.parent].number == Pred(x.header.number)) {
        return;
      }
      var externTd := x.header.difficulty + tds[x.header.parent];
      var localTd := tds[current.header.hash];
      ghost var c := Prepare(headers, bodies, tds, genesis, canon, lookup, current, x);
      ghost var head := current.header.hash;
      tds := tds[x.header.hash := externTd];
      var coin: bool := *;
      var reorg := externTd > localTd
                   || (externTd == localTd && (x.header.number < current.header.number
                       || (x.header.number == current.header.number && coin)));
      status := Side;
      if reorg {
        var ok := Adopt(x, c);
        if !ok {
          return InvalidChain;
        }
        status := Canonical;
      }
      HeaderChains.HeaviestNew(headers, genesis, head, x.header, current.header.hash);
      headers := headers[x.header.hash := x.header];
      bodies := bodies[x.header.hash := x.txs];
    }

    /** Writes a block whose state is not known, and its total difficulty.  The head stays the heaviest exactly
        if that is not above its own. */
    method WriteBlockWithoutState(x: Block, td: nat)
      requires Valid() && Importable(headers, bodies, genesis, x) && x.header.parent in headers
      requires x.header.parent in tds && td == x.header.difficulty + tds[x.header.parent]
      modifies `headers, `bodies, `tds
      ensures Sound() && headers == old(headers)[x.header.hash := x.header]
              && bodies == old(bodies)[x.header.hash := x.txs]
      ensures current.header.hash in old(tds) && (Valid() <==> td <= old(tds)[current.header.hash])
    {
      hide WellStored, Exact, IndexedBy, Distinct, PathTo, HeaderChains.Heaviest, Setting, BlockOf, Fits, Importable,
          Closed, Work;
      Known(x);
      ghost var c := Prepare(headers, bodies, tds, genesis, canon, lookup, current, x);
      HeaderChains.HeaviestStill(headers, genesis, current.header.hash, x.header);
      tds := tds[x.header.hash := td];
      bodies := bodies[x.header.hash := x.txs];
      headers := headers[x.header.hash := x.header];
    }

    /** Looks a transaction up.  If a canonical block up to the head holds it, it is found there; else only the format
        of earlier versions, transactions and positions apart, can have it, wherever that says. */
    method GetTransaction(t: Tx, oldTxs: set<Tx>, oldEntries: map<Tx, Entry>) returns (r: Option<(Tx, Entry)>)
      requires Valid()
      ensures OnPath(bodies, Chain(), t) ==>
                && r.Some? && r.value.0 == t && Right(bodies, Chain(), t, r.value.1)
                && r.value.1.number in canon && canon[r.value.1.number] == r.value.1.hash
      ensures !OnPath(bodies, Chain(), t) ==>
                r == if t in oldTxs && t in oldEntries then Some((t, oldEntries[t])) else None
    {
      LookedUp(t);
      if t !in lookup {
        return if t in oldTxs && t in oldEntries then Some((t, oldEntries[t])) else None;
      }
      var e := lookup[t];
      if e.hash !in bodies || |bodies[e.hash]| <= e.index {
        return None;
      }
      return Some((bodies[e.hash][e.index], e));
    }

    lemma LookedUp(t: Tx)
      requires Valid()
      ensures t in lookup <==> OnPath(bodies, Chain(), t)
      ensures t in lookup ==> Right(bodies, Chain(), t, lookup[t]) && lookup[t].hash in bodies
                              && lookup[t].number in canon && canon[lookup[t].number] == lookup[t].hash
    {
      hide Distinct, PathTo, HeaderChains.Heaviest, Sums, AllDistinct;
      PathEnds(headers, genesis, current.header.hash);
      PathInTree(headers, genesis, current.header.hash);
      if t in lookup {
        var e := lookup[t];
        assert Right(bodies, Chain(), t, e);
        assert t in Body(bodies, Chain()[e.number]);
      }
    }
  }

  /** What may be imported: a block numbered on from its parent, whose hash is its own, and none of whose
      transactions is repeated in it or in its ancestors. */
  ghost predicate Importable(headers: Tree, bodies: Bodies, genesis: Hash, x: Block) {
    && x.header.hash != 0 && x.header.number < MAX_UINT64
    && (x.header.hash in headers ==> headers[x.header.hash] == x.header)
    && (x.header.hash in bodies ==> bodies[x.header.hash] == x.txs)
    && (x.header.parent in headers && Closed(headers, genesis) ==>
          && x.header.number == headers[x.header.parent].number + 1
          && Distinct(bodies[x.header.hash := x.txs], PathTo(headers, genesis, x.header.parent) + [x.header.hash]))
  }

  /** Everything an import needs to know beforehand, of the store with the block in it. */
  lemma Prepare(headers: Tree, bodies: Bodies, tds: map<Hash, nat>, genesis: Hash, canon: map<nat, Hash>,
                lookup: Lookup, head: Block, x: Block)
    returns (c: Scene)
    requires WellStored(headers, genesis, bodies, tds) && Importable(headers, bodies, genesis, x)
             && x.header.parent in headers
    requires head.header.hash in headers && head == BlockOf(headers, bodies, head.header.hash)
    requires IndexedBy(canon, PathTo(headers, genesis, head.header.hash), head.header.number)
    requires Exact(lookup, bodies, PathTo(headers, genesis, head.header.hash))
    ensures Fits(headers, x.header) && Setting(c)
    ensures c.headers == headers && c.bodies == bodies && c.genesis == genesis && c.head == head.header.hash && c.x == x
    ensures c.tree == headers[x.header.hash := x.header] && c.grown == bodies[x.header.hash := x.txs]
    ensures IndexedBy(canon, c.p, |c.p| - 1) && Exact(lookup, c.grown, c.p)
    ensures Distinct(c.grown, c.p) && Distinct(c.grown, c.q)
    ensures WellStored(c.tree, genesis, c.grown, tds[x.header.hash := x.header.difficulty + tds[x.header.parent]])
    ensures Closed(c.tree, genesis) && c.p == PathTo(c.tree, genesis, c.head)
            && c.q == PathTo(c.tree, genesis, x.header.hash)
    ensures |c.p| == head.header.number + 1 && |c.q| == x.header.number + 1
    ensures head == BlockOf(c.tree, c.grown, c.head) && x == BlockOf(c.tree, c.grown, x.header.hash)
    ensures x.header.parent in tds && tds[x.header.parent] == Work(headers, PathTo(headers, genesis, x.header.parent))
    ensures c.head in tds && tds[c.head] == Work(headers, PathTo(headers, genesis, c.head))
  {
    hide Distinct, Exact, Work, IndexedBy;
    var tree, grown := headers[x.header.hash := x.header], bodies[x.header.hash := x.txs];
    GrownIsClosed(headers, genesis, x.header);
    var p, q := PathTo(tree, genesis, head.header.hash), PathTo(tree, genesis, x.header.hash);
    c := Scene(headers, bodies, genesis, head.header.hash, x, tree, grown, p, q);
    PathGrown(headers, genesis, x.header, head.header.hash);
    PathToNew(headers, genesis, x.header);
    BodyGrown(headers, genesis, bodies, x, head.header.hash);
    SameBodies(bodies, grown, p, lookup);
    DistinctGrown(headers, genesis, bodies, x);
    SumsGrown(headers, genesis, tds, x.header);
    AtHeader(tree, genesis, head.header.hash);
    PathEnds(tree, genesis, head.header.hash);
    PathEnds(tree, genesis, x.header.hash);
  }

  lemma IndexedAgain(canon: map<nat, Hash>, q: Path, n: nat)
    requires n == |q| - 1 && IndexedBy(canon, q, n)
    ensures IndexedBy(canon[n := q[n]], q, n)
  {}

  lemma IndexedFurther(canon: map<nat, Hash>, p: Path, q: Path, n: nat)
    requires |p| == n && |q| == n + 1 && q == p + [q[n]] && IndexedBy(canon, p, |p| - 1)
    ensures IndexedBy(canon[n := q[n]], q, n)
  {}

  lemma ExtendsHead(c: Scene)
    requires Setting(c) && c.x.header.parent == c.head
    ensures |c.p| == c.x.header.number > 0 && |c.q| == |c.p| + 1 && c.q == c.p + [c.x.header.hash]
  {
    PathToNew(c.headers, c.genesis, c.x.header);
    PathGrown(c.headers, c.genesis, c.x.header, c.head);
  }

  lemma ChainLength(chain: seq<Block>, tree: Tree, bodies: Bodies, p: Path, m: int)
    requires Gathered(chain, tree, bodies, p, m)
    ensures -1 <= m < |p| && |chain| == |p| - 1 - m
  {}

  lemma PlacesOf(c: Scene)
    requires Setting(c)
    ensures forall n | 0 <= n < |c.q| :: c.q[n] in c.tree && c.tree[c.q[n]].number == n && c.tree[c.q[n]].hash == c.q[n]
  {
    forall n | 0 <= n < |c.q|
      ensures c.q[n] in c.tree && c.tree[c.q[n]].number == n && c.tree[c.q[n]].hash == c.q[n]
    {
      PathPrefix(c.tree, c.genesis, c.x.header.hash, n);
      AtHeader(c.tree, c.genesis, c.q[n]);
    }
  }
}
