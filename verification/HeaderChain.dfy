/** The header chain: a tree of headers in a database, an index from numbers to canonical hashes that is
    rewritten in place, and caches in front of the database that may lose entries at any time. */
module HeaderChains {
  import opened Transactions
  import opened BlockTree

  type Key = (nat, Hash)

  /** The database holds the headers of a tree, each under its number and hash. */
  ghost predicate Stores(tree: Tree, headers: map<Key, Header>, numbers: map<Hash, nat>) {
    && (forall h :: h in numbers <==> h in tree)
    && (forall h | h in tree :: numbers[h] == tree[h].number)
    && (forall k :: k in headers <==> k.1 in tree && tree[k.1].number == k.0)
    && (forall k | k in headers :: headers[k] == tree[k.1])
  }

  ghost predicate SameKeys(headers: map<Key, Header>, tds: map<Key, nat>) {
    forall k :: k in tds <==> k in headers
  }

  /** Every total difficulty is the sum of the difficulties back to genesis. */
  ghost predicate Sums(tree: Tree, genesis: Hash, tds: map<Key, nat>) {
    Closed(tree, genesis) && forall k | k in tds && k.1 in tree :: tds[k] == Work(tree, PathTo(tree, genesis, k.1))
  }

  ghost predicate Heaviest(tree: Tree, genesis: Hash, head: Hash) {
    && Closed(tree, genesis) && head in tree
    && forall h | h in tree :: Work(tree, PathTo(tree, genesis, h)) <= Work(tree, PathTo(tree, genesis, head))
  }

  /** A parent-linked path of stored headers, numbered from zero. */
  ghost predicate Chain(tree: Tree, path: Path) {
    && |path| > 0
    && (forall n | 0 <= n < |path| ::
          path[n] in tree && path[n] != 0 && tree[path[n]].number == n && tree[path[n]].hash == path[n])
    && (forall n | 0 < n < |path| :: tree[path[n]].parent == path[n - 1])
  }

  /** The canonical index is exactly the path. */
  ghost predicate Indexes(canon: map<nat, Hash>, path: Path) {
    && (forall n: nat :: n in canon <==> n < |path|)
    && (forall n | 0 <= n < |path| :: canon[n] == path[n])
  }

  ghost predicate CachedHeaders(tree: Tree, cache: map<Hash, Header>) {
    forall h | h in cache :: h in tree && cache[h] == tree[h]
  }

  /** As `CachedHeaders`, but what has been deleted from the database may linger in the cache. */
  ghost predicate FreshHeaders(tree: Tree, cache: map<Hash, Header>) {
    forall h | h in cache && h in tree :: cache[h] == tree[h]
  }

  ghost predicate CachedTds(tree: Tree, tds: map<Key, nat>, cache: map<Hash, nat>) {
    forall h | h in cache :: h in tree && (tree[h].number, h) in tds && cache[h] == tds[(tree[h].number, h)]
  }

  ghost predicate CachedNumbers(tree: Tree, cache: map<Hash, nat>) {
    forall h | h in cache :: h in tree && cache[h] == tree[h].number
  }

  /** The database is well formed and the caches agree with it. */
  ghost predicate CachedAll(tree: Tree, headers: map<Key, Header>, tds: map<Key, nat>, numbers: map<Hash, nat>,
                            headerCache: map<Hash, Header>, tdCache: map<Hash, nat>, numberCache: map<Hash, nat>) {
    && Stores(tree, headers, numbers) && SameKeys(headers, tds)
    && CachedHeaders(tree, headerCache) && CachedTds(tree, tds, tdCache) && CachedNumbers(tree, numberCache)
  }

  /** Another header cache that agrees with the database will do. */
  lemma OtherHeaders(tree: Tree, headers: map<Key, Header>, tds: map<Key, nat>, numbers: map<Hash, nat>,
                     headerCache: map<Hash, Header>, tdCache: map<Hash, nat>, numberCache: map<Hash, nat>,
                         headerCache': map<Hash, Header>)
    requires CachedAll(tree, headers, tds, numbers, headerCache, tdCache, numberCache)
             && CachedHeaders(tree, headerCache')
    ensures CachedAll(tree, headers, tds, numbers, headerCache', tdCache, numberCache)
  {}

  // ---------- which headers are rooted ----------

  /** The header and all of its ancestors down to genesis are stored. */
  ghost predicate Rooted(tree: Tree, genesis: Hash, h: Hash)
    decreases if h in tree then tree[h].number else 0
  {
    && h in tree
    && (h == genesis || (var up := tree[h].parent;
                         up in tree && tree[up].number < tree[h].number && Rooted(tree, genesis, up)))
  }

  ghost predicate Stored(tree: Tree, path: Path) {
    forall n | 0 <= n < |path| :: path[n] in tree
  }

  /** For a part of a closed tree that is to say that the whole path is there. */
  lemma {:induction false} RootedIff(tree: Tree, ever: Tree, genesis: Hash, h: Hash)
    requires Closed(ever, genesis) && Grown(tree, ever) && h in ever
    ensures Rooted(tree, genesis, h) <==> Stored(tree, PathTo(ever, genesis, h))
    decreases ever[h].number
  {
    AtHeader(ever, genesis, h);
    var p := PathTo(ever, genesis, h);
    assert p[|p| - 1] == h;
    if h == genesis {
      assert |p| == 1 && p[0] == h;
    } else {
      var up := ever[h].parent;
      RootedIff(tree, ever, genesis, up);
      var q := PathTo(ever, genesis, up);
      assert p == q + [h] && q[|q| - 1] == up;
      assert forall n | 0 <= n < |q| :: p[n] == q[n];
      assert Stored(tree, p) <==> h in tree && Stored(tree, q);
    }
  }

  /** A part of a closed tree is closed exactly if every header but genesis has its parent there. */
  ghost predicate Whole(tree: Tree, genesis: Hash) {
    genesis in tree && forall h | h in tree && h != genesis :: tree[h].parent in tree
  }

  lemma WholeIff(tree: Tree, ever: Tree, genesis: Hash)
    requires Closed(ever, genesis) && Grown(tree, ever)
    ensures Closed(tree, genesis) <==> Whole(tree, genesis)
  {
    forall h | h in tree ensures Linked(tree, genesis, h) <==> h == genesis || tree[h].parent in tree {
      AtHeader(ever, genesis, h);
    }
  }

  /** Then its paths, and the work along them, are those of the closed tree, and all of it is rooted. */
  lemma {:induction false} PathsOfPart(tree: Tree, ever: Tree, genesis: Hash, h: Hash)
    requires Closed(ever, genesis) && Grown(tree, ever) && Closed(tree, genesis) && h in tree
    ensures PathTo(tree, genesis, h) == PathTo(ever, genesis, h) && Rooted(tree, genesis, h)
    ensures Work(tree, PathTo(tree, genesis, h)) == Work(ever, PathTo(ever, genesis, h))
    decreases tree[h].number
  {
    AtHeader(tree, genesis, h);
    if h != genesis {
      var up := tree[h].parent;
      PathsOfPart(tree, ever, genesis, up);
      var q := PathTo(tree, genesis, up);
      assert (q + [h])[..|q|] == q;
    } else {
      assert [h][..0] == [];
    }
  }

  /** What is rooted stays so. */
  lemma {:induction false} RootedGrown(tree: Tree, tree': Tree, genesis: Hash, h: Hash)
    requires Grown(tree, tree') && Rooted(tree, genesis, h)
    ensures Rooted(tree', genesis, h)
    decreases tree[h].number
  {
    if h != genesis {
      RootedGrown(tree, tree', genesis, tree[h].parent);
    }
  }

  /** A new header is rooted exactly if its parent was. */
  lemma RootedNew(tree: Tree, ever: Tree, genesis: Hash, x: Header)
    requires Closed(ever, genesis) && Grown(tree, ever) && x.hash in ever && ever[x.hash] == x && x.parent in tree
    requires x.hash != genesis
    ensures Rooted(tree[x.hash := x], genesis, x.hash) <==> Rooted(tree, genesis, x.parent)
  {
    hide Rooted, Linked;
    var tree', p := tree[x.hash := x], PathTo(ever, genesis, x.hash);
    AtHeader(ever, genesis, x.hash);
    ParentPath(ever, genesis, x.hash);
    RootedIff(tree', ever, genesis, x.hash);
    RootedIff(tree, ever, genesis, x.parent);
    var q := PathTo(ever, genesis, x.parent);
    forall n | 0 <= n < |q| ensures q[n] in tree' <==> q[n] in tree {
      PathPrefix(ever, genesis, x.parent, n);
    }
    assert forall n | 0 <= n < |p| :: p[n] == if n < |q| then q[n] else x.hash;
    assert forall n | 0 <= n < |q| :: q[n] == p[n];
  }

  lemma ParentPath(ever: Tree, genesis: Hash, h: Hash)
    requires Closed(ever, genesis) && h in ever && h != genesis
    ensures var up := ever[h].parent;
            && up in ever && ever[h].number == ever[up].number + 1
            && PathTo(ever, genesis, h) == PathTo(ever, genesis, up) + [h]
  {
    AtHeader(ever, genesis, h);
  }

  /** The total difficulty that is kept for a stored header. */
  ghost function TdOf(tree: Tree, tds: map<Key, nat>, h: Hash): nat
    requires h in tree
  {
    var k := (tree[h].number, h);
    if k in tds then tds[k] else 0
  }

  lemma InEver(tree: Tree, ever: Tree, h: Hash)
    requires Grown(tree, ever) && h in tree
    ensures h in ever && ever[h] == tree[h]
  {}

  lemma NotGenesis(ever: Tree, genesis: Hash, x: Header)
    requires Closed(ever, genesis) && Fits(ever, x)
    ensures x.hash != genesis
  {
    AtHeader(ever, genesis, genesis);
  }

  /** What is rooted has its whole path stored. */
  lemma RootedChain(tree: Tree, ever: Tree, genesis: Hash, h: Hash)
    requires Closed(ever, genesis) && Grown(tree, ever) && h in ever && Rooted(tree, genesis, h)
    ensures Chain(tree, PathTo(ever, genesis, h))
  {
    hide Rooted, PathTo;
    RootedIff(tree, ever, genesis, h);
    PathIsChain(ever, genesis, h);
    PathEnds(ever, genesis, h);
  }

  /** Where a walk has met a stored path, the rest of its own is stored too. */
  lemma Meets(tree: Tree, p: Path, q: Path, n: nat)
    requires Chain(tree, p) && n < |p| && n < |q| && p[..n + 1] == q[..n + 1]
    requires Stored(tree, q[n + 1..])
    ensures Stored(tree, q)
  {
    forall k | 0 <= k < |q| ensures q[k] in tree {
      if k <= n {
        assert q[k] == q[..n + 1][k] == p[..n + 1][k] == p[k];
      } else {
        assert q[k] == q[n + 1..][k - (n + 1)];
      }
    }
  }

  lemma StoredTop(tree: Tree, q: Path)
    requires |q| > 0
    ensures q[|q| - 1] in tree ==> Stored(tree, q[|q| - 1..])
  {}

  lemma StoredOn(tree: Tree, q: Path, n: nat)
    requires n < |q| && Stored(tree, q[n + 1..])
    ensures q[n] in tree ==> Stored(tree, q[n..])
    ensures q[n] !in tree ==> !Stored(tree, q)
  {}

  /** A new header keeps a closed tree with its heaviest head what it is. */
  lemma StillValid(tree: Tree, ever: Tree, genesis: Hash, head: Hash, x: Header, head': Hash)
    requires Closed(ever, genesis) && Grown(tree, ever) && Closed(tree, genesis) && Heaviest(tree, genesis, head)
    requires Fits(tree, x) && head in ever && x.parent in ever && (head' == head || head' == x.hash)
    requires var w := Work(ever, PathTo(ever, genesis, x.parent)) + x.difficulty;
             var w0 := Work(ever, PathTo(ever, genesis, head));
             (w > w0 ==> head' == x.hash) && (w < w0 ==> head' == head)
    ensures Closed(tree[x.hash := x], genesis) && Heaviest(tree[x.hash := x], genesis, head')
  {
    hide Heaviest, Work, PathTo, Closed, Grown, Rooted;
    HeaviestParts(tree, genesis, head, head);
    PathsOfPart(tree, ever, genesis, head);
    AtParent(tree, x);
    PathsOfPart(tree, ever, genesis, x.parent);
    GrownIsClosed(tree, genesis, x);
    HeaviestNew(tree, genesis, head, x, head');
  }

  lemma AtParent(tree: Tree, x: Header)
    requires Fits(tree, x)
    ensures x.parent in tree
  {}

  /** In a closed tree everything is rooted. */
  lemma AllRooted(tree: Tree, ever: Tree, genesis: Hash, h: Hash)
    requires Closed(ever, genesis) && Grown(tree, ever) && Closed(tree, genesis) && h in tree
    ensures Rooted(tree, genesis, h)
  {
    PathsOfPart(tree, ever, genesis, h);
  }

  // ---------- what a rewind leaves ----------

  function Shortened(p: Path, head: nat): Path {
    if head + 1 < |p| then p[..head + 1] else p
  }

  function Last(p: Path): Hash {
    if p == [] then 0 else p[|p| - 1]
  }

  /** No header has a greater total difficulty than the head. */
  ghost predicate Tops(tree: Tree, tds: map<Key, nat>, head: Hash) {
    head in tree && forall h | h in tree :: TdOf(tree, tds, h) <= TdOf(tree, tds, head)
  }

  /** A chain cut short is the path to its end, and the total difficulties that are left are right. */
  lemma StillSound(tree: Tree, tree': Tree, tds: map<Key, nat>, tds': map<Key, nat>, ever: Tree, genesis: Hash,
                   head: Hash, p: Path, p': Path, dropped: seq<Hash>)
    requires Closed(ever, genesis) && Grown(tree, ever) && Sums(ever, genesis, tds) && tree' == Without(tree, dropped)
    requires head in ever && p == PathTo(ever, genesis, head) && 0 < |p'| <= |p| && p' == p[..|p'|]
    requires Kept(tds, tds')
    ensures Grown(tree', ever) && Sums(ever, genesis, tds') && Last(p') in ever
            && p' == PathTo(ever, genesis, Last(p')) && p'[0] == genesis
  {
    hide PathTo, Work, Closed;
    PathEnds(ever, genesis, head);
    PathPrefix(ever, genesis, head, |p'| - 1);
  }

  /** The total difficulties of what is left are the ones before. */
  lemma TdsLeft(tree: Tree, tree': Tree, tds: map<Key, nat>, headers': map<Key, Header>, numbers': map<Hash, nat>,
                tds': map<Key, nat>, dropped: seq<Hash>)
    requires tree' == Without(tree, dropped) && Kept(tds, tds')
    requires Stores(tree', headers', numbers') && SameKeys(headers', tds')
    ensures forall h | h in tree' :: h in tree && tree[h] == tree'[h] && TdOf(tree', tds', h) == TdOf(tree, tds, h)
  {
    forall h | h in tree'
      ensures h in tree && tree[h] == tree'[h] && TdOf(tree', tds', h) == TdOf(tree, tds, h)
    {
      assert (tree'[h].number, h) in headers';
    }
  }

  /** Every header has its total difficulty, which is the sum back to genesis. */
  ghost predicate Totalled(tree: Tree, ever: Tree, genesis: Hash, tds: map<Key, nat>) {
    && Closed(ever, genesis)
    && forall h | h in tree :: h in ever && TdOf(tree, tds, h) == Work(ever, PathTo(ever, genesis, h))
  }

  lemma TotalsRight(tree: Tree, ever: Tree, genesis: Hash, headers: map<Key, Header>, numbers: map<Hash, nat>,
                    tds: map<Key, nat>)
    requires Grown(tree, ever) && Sums(ever, genesis, tds) && Stores(tree, headers, numbers) && SameKeys(headers, tds)
    ensures Totalled(tree, ever, genesis, tds)
  {
    hide PathTo, Work, Closed;
    forall h | h in tree ensures h in ever && TdOf(tree, tds, h) == Work(ever, PathTo(ever, genesis, h)) {
      assert (tree[h].number, h) in headers;
    }
  }

  /** A tree is closed with its head heaviest exactly if no parent is missing and the total difficulties say so. */
  lemma HeaviestIff(tree: Tree, ever: Tree, genesis: Hash, tds: map<Key, nat>, head: Hash)
    requires Grown(tree, ever) && Totalled(tree, ever, genesis, tds) && head in tree
    ensures Closed(tree, genesis) && Heaviest(tree, genesis, head) <==>
              Whole(tree, genesis) && Tops(tree, tds, head)
  {
    hide PathTo, Work, Closed, Whole, TdOf, Rooted;
    WholeIff(tree, ever, genesis);
    if Closed(tree, genesis) {
      forall h | h in tree ensures Work(tree, PathTo(tree, genesis, h)) == TdOf(tree, tds, h) {
        assert h in ever && TdOf(tree, tds, h) == Work(ever, PathTo(ever, genesis, h));
        PathsOfPart(tree, ever, genesis, h);
      }
    }
  }

  lemma TopsSame(tree: Tree, tree': Tree, tds: map<Key, nat>, tds': map<Key, nat>, head: Hash)
    requires forall h | h in tree' :: h in tree && tree[h] == tree'[h] && TdOf(tree', tds', h) == TdOf(tree, tds, h)
    ensures Tops(tree', tds', head) <==> Tops(tree', tds, head)
  {}

  // ---------- imports ----------

  /** What has been stored since is not heavier than the head. */
  ghost predicate Light(was: Tree, tree: Tree, tds: map<Key, nat>, head: Hash) {
    head in tree && forall h | h in tree && h !in was :: TdOf(tree, tds, h) <= TdOf(tree, tds, head)
  }

  /** A header has been stored, if it was not, that is not heavier than the head. */
  ghost predicate Beside(tree: Tree, tds: map<Key, nat>, tds': map<Key, nat>, x: Header, head: Hash) {
    && head in tree
    && if x.hash in tree then tds' == tds
       else
         var k := (x.number, x.hash);
         k in tds' && tds' == tds[k := tds'[k]] && tds'[k] <= TdOf(tree, tds, head)
  }

  lemma LightNone(tree: Tree, tds: map<Key, nat>, head: Hash)
    requires head in tree
    ensures Light(tree, tree, tds, head)
  {}

  lemma LightNext(was: Tree, tree: Tree, tds: map<Key, nat>, tds': map<Key, nat>, x: Header, head: Hash)
    requires Light(was, tree, tds, head) && Beside(tree, tds, tds', x, head) && (x.hash in tree ==> tree[x.hash] == x)
    ensures Light(was, tree[x.hash := x], tds', head)
  {
    var tree' := tree[x.hash := x];
    if x.hash in tree {
      assert tree' == tree;
    } else {
      assert forall h | h in tree :: TdOf(tree', tds', h) == TdOf(tree, tds, h);
    }
  }

  /** Headers of which no two have the same hash, each numbered on from its parent. */
  ghost predicate Lawful(u: Tree) {
    forall h | h in u ::
      && u[h].hash == h && h != 0 && u[h].number < MAX_UINT64
      && (u[h].parent in u ==> u[h].number == u[u[h].parent].number + 1)
  }

  /** A run of such headers, linked to one another. */
  ghost predicate Drawn(u: Tree, chain: seq<Header>) {
    && (forall i | 0 <= i < |chain| :: chain[i].hash in u && u[chain[i].hash] == chain[i])
    && (forall i | 0 < i < |chain| :: chain[i].parent == chain[i - 1].hash)
  }

  lemma DrawnBatch(u: Tree, ever: Tree, chain: seq<Header>)
    requires Lawful(u) && Grown(ever, u) && Drawn(u, chain)
    ensures Batch(ever, chain)
  {
    forall i | 0 <= i < |chain|
      ensures chain[i].hash != 0 && chain[i].number < MAX_UINT64
      ensures chain[i].parent in u ==> chain[i].number == u[chain[i].parent].number + 1
    {
      assert chain[i].hash in u && u[chain[i].hash] == chain[i];
    }
    forall i, j | 0 <= i < |chain| && 0 <= j < |chain| && chain[i].parent == chain[j].hash
      ensures chain[i].number == chain[j].number + 1
    {
      assert chain[j].hash in u && u[chain[j].hash] == chain[j];
    }
  }

  lemma StillWithin(u: Tree, ever: Tree, ever': Tree, chain: seq<Header>)
    requires Grown(ever, u) && Grown(ever, ever') && Drawn(u, chain) && Grew(ever, ever', chain)
    ensures Grown(ever', u)
  {}

  /** Nothing has come but the given headers. */
  ghost predicate Grew(ever: Tree, ever': Tree, chain: seq<Header>) {
    forall h | h in ever' :: h in ever || exists i :: 0 <= i < |chain| && ever'[h] == chain[i] && chain[i].hash == h
  }

  lemma NothingGrew(ever: Tree, chain: seq<Header>)
    ensures Grew(ever, ever, chain)
  {}

  lemma GrewOne(ever: Tree, ever': Tree, chain: seq<Header>, i: nat)
    requires Grew(ever, ever', chain) && i < |chain|
    ensures Grew(ever, ever'[chain[i].hash := chain[i]], chain)
  {}

  /** A use of the chain: an import of headers, or a rewind. */
  datatype Use = Import(chain: seq<Header>) | Rewind(head: nat)
  {
    ghost predicate Of(u: Tree) {
      Import? ==> Drawn(u, chain)
    }
  }

  /** Adding to a cache, which may evict any other entries. */
  method CacheAdd<V>(cache: map<Hash, V>, h: Hash, v: V) returns (c: map<Hash, V>)
    ensures Added(cache, h, v, c)
  {
    var keep: set<Hash> := *;
    c := (map k | k in cache && k in keep :: cache[k])[h := v];
  }

  /** Headers to import: linked to one another, numbered on from a known parent, hashes no one else's. */
  ghost predicate Batch(tree: Tree, chain: seq<Header>) {
    && (forall i | 0 <= i < |chain| ::
          && chain[i].hash != 0 && chain[i].number < MAX_UINT64
              && (chain[i].hash in tree ==> tree[chain[i].hash] == chain[i])
          && (chain[i].parent in tree ==> chain[i].number == tree[chain[i].parent].number + 1))
    && (forall i | 0 < i < |chain| ::
          chain[i].parent == chain[i - 1].hash && chain[i].number == chain[i - 1].number + 1)
    && (forall i, j | 0 <= i < |chain| && 0 <= j < |chain| && chain[i].hash == chain[j].hash :: chain[i] == chain[j])
    && (forall i, j | 0 <= i < |chain| && 0 <= j < |chain|
        && chain[i].parent == chain[j].hash :: chain[i].number == chain[j].number + 1)
  }

  lemma BatchAt(tree: Tree, chain: seq<Header>, i: nat)
    requires Batch(tree, chain) && i < |chain|
    ensures chain[i].hash != 0 && chain[i].number < MAX_UINT64
            && (chain[i].hash in tree ==> tree[chain[i].hash] == chain[i])
    ensures chain[i].parent in tree ==> chain[i].number == tree[chain[i].parent].number + 1
    ensures i > 0 ==> chain[i].parent == chain[i - 1].hash
  {}

  lemma BatchOn(tree: Tree, chain: seq<Header>, i: nat)
    requires Batch(tree, chain) && i < |chain|
    ensures Batch(tree[chain[i].hash := chain[i]], chain)
  {}

  /** The headers imported so far are in the tree. */
  ghost predicate Imported(tree: Tree, chain: seq<Header>, n: nat)
    requires n <= |chain|
  {
    forall k | 0 <= k < n :: chain[k].hash in tree && tree[chain[k].hash] == chain[k]
  }

  lemma ImportedOne(tree: Tree, ever: Tree, tree': Tree, chain: seq<Header>, i: nat)
    requires i < |chain| && Imported(tree, chain, i) && Batch(ever, chain)
    requires tree' == tree[chain[i].hash := chain[i]]
    ensures Imported(tree', chain, i + 1)
  {}

  lemma NothingImported(tree: Tree, chain: seq<Header>)
    ensures Imported(tree, chain, 0) && Grown(tree, tree)
  {}

  lemma ImportedLast(tree: Tree, chain: seq<Header>, i: nat)
    requires 0 < i <= |chain| && Imported(tree, chain, i)
    ensures chain[i - 1].hash in tree
  {}

  /** Nothing is lost. */
  ghost predicate Grown(was: Tree, now: Tree) {
    forall h | h in was :: h in now && now[h] == was[h]
  }

  lemma GrownOne(was: Tree, now: Tree, x: Header)
    requires Grown(was, now) && (x.hash in now ==> now[x.hash] == x)
    ensures Grown(was, now[x.hash := x])
  {}

  /** What `CacheAdd` leaves. */
  ghost predicate Added<V>(cache: map<Hash, V>, h: Hash, v: V, c: map<Hash, V>) {
    h in c && c[h] == v && forall k | k in c && k != h :: k in cache && c[k] == cache[k]
  }

  // ---------- what a new header does to the parts of the database ----------

  lemma CachesNew(tree: Tree, tds: map<Key, nat>, headerCache: map<Hash, Header>, tdCache: map<Hash, nat>,
                  numberCache: map<Hash, nat>, tdCache': map<Hash, nat>, x: Header, td: nat)
    requires CachedHeaders(tree, headerCache) && CachedTds(tree, tds, tdCache) && CachedNumbers(tree, numberCache)
    requires Fits(tree, x) && Added(tdCache, x.hash, td, tdCache')
    ensures var tree' := tree[x.hash := x];
            && CachedHeaders(tree', headerCache) && CachedTds(tree', tds[(x.number, x.hash) := td], tdCache')
            && CachedNumbers(tree', numberCache)
  {}

  lemma Remembered(tree: Tree, headerCache: map<Hash, Header>, numberCache: map<Hash, nat>,
                   headerCache': map<Hash, Header>, numberCache': map<Hash, nat>, x: Header)
    requires CachedHeaders(tree, headerCache) && CachedNumbers(tree, numberCache) && x.hash in tree && tree[x.hash] == x
    requires Added(headerCache, x.hash, x, headerCache') && Added(numberCache, x.hash, x.number, numberCache')
    ensures CachedHeaders(tree, headerCache') && CachedNumbers(tree, numberCache')
  {}

  lemma StoresNew(tree: Tree, headers: map<Key, Header>, numbers: map<Hash, nat>, x: Header)
    requires Stores(tree, headers, numbers) && Fits(tree, x)
    ensures Stores(tree[x.hash := x], headers[(x.number, x.hash) := x], numbers[x.hash := x.number])
  {}

  lemma SameKeysNew(headers: map<Key, Header>, tds: map<Key, nat>, x: Header, td: nat)
    requires SameKeys(headers, tds)
    ensures SameKeys(headers[(x.number, x.hash) := x], tds[(x.number, x.hash) := td])
  {}

  /** Every total difficulty is still right when a header is stored, for the first time or again. */
  lemma SumsNew(ever: Tree, genesis: Hash, tds: map<Key, nat>, x: Header, td: nat)
    requires Sums(ever, genesis, tds) && Fits(ever, x) && Keyed(ever, tds)
    requires td == Work(ever, PathTo(ever, genesis, x.parent)) + x.difficulty
    ensures Sums(ever[x.hash := x], genesis, tds[(x.number, x.hash) := td])
  {
    var ever' := ever[x.hash := x];
    GrownIsClosed(ever, genesis, x);
    WorkOfNew(ever, genesis, x);
    var tds' := tds[(x.number, x.hash) := td];
    forall k | k in tds' && k.1 in ever' ensures tds'[k] == Work(ever', PathTo(ever', genesis, k.1)) {
      if k != (x.number, x.hash) {
        assert k in tds;
        WorkOf(ever, genesis, x, k.1);
      }
    }
  }

  /** Total difficulties are kept for known headers only, under their numbers. */
  ghost predicate Keyed(ever: Tree, tds: map<Key, nat>) {
    forall k | k in tds :: k.1 in ever && ever[k.1].number == k.0
  }

  lemma KeyedIn(tree: Tree, ever: Tree, headers: map<Key, Header>, numbers: map<Hash, nat>, tds: map<Key, nat>)
    requires Stores(tree, headers, numbers) && SameKeys(headers, tds) && Grown(tree, ever)
    ensures Keyed(ever, tds)
  {}

  /** The heavier of the old head and the new header is the heaviest. */
  lemma HeaviestNew(tree: Tree, genesis: Hash, head: Hash, x: Header, head': Hash)
    requires Heaviest(tree, genesis, head) && Fits(tree, x) && (head' == head || head' == x.hash)
    requires var w := Work(tree, PathTo(tree, genesis, x.parent)) + x.difficulty;
             var old' := Work(tree, PathTo(tree, genesis, head));
             (w > old' ==> head' == x.hash) && (w < old' ==> head' == head)
    ensures Heaviest(tree[x.hash := x], genesis, head')
  {
    var tree' := tree[x.hash := x];
    GrownIsClosed(tree, genesis, x);
    WorkOfNew(tree, genesis, x);
    forall h | h in tree ensures Work(tree', PathTo(tree', genesis, h)) == Work(tree, PathTo(tree, genesis, h)) {
      WorkOf(tree, genesis, x, h);
    }
  }

  /** A head stays the heaviest with a new header exactly if that is not heavier. */
  lemma HeaviestStill(tree: Tree, genesis: Hash, head: Hash, x: Header)
    requires Heaviest(tree, genesis, head) && Fits(tree, x)
    ensures Heaviest(tree[x.hash := x], genesis, head) <==>
              Work(tree, PathTo(tree, genesis, x.parent)) + x.difficulty <= Work(tree, PathTo(tree, genesis, head))
  {
    hide Heaviest, Work, PathTo, Closed;
    HeaviestParts(tree, genesis, head, head);
    GrownIsClosed(tree, genesis, x);
    WorkOfNew(tree, genesis, x);
    WorkOf(tree, genesis, x, head);
    if Heaviest(tree[x.hash := x], genesis, head) {
      HeaviestParts(tree[x.hash := x], genesis, head, x.hash);
    } else if Work(tree, PathTo(tree, genesis, x.parent)) + x.difficulty <= Work(tree, PathTo(tree, genesis, head)) {
      HeaviestNew(tree, genesis, head, x, head);
    }
  }

  lemma HeaviestParts(tree: Tree, genesis: Hash, head: Hash, h: Hash)
    requires Heaviest(tree, genesis, head)
    ensures Closed(tree, genesis) && head in tree
    ensures h in tree ==> Work(tree, PathTo(tree, genesis, h)) <= Work(tree, PathTo(tree, genesis, head))
  {}

  lemma GenesisPath(g: Header)
    requires g.number == 0 && g.hash != 0 && g.parent == 0
    ensures var tree: Tree := map[g.hash := g];
            && Closed(tree, g.hash) && PathTo(tree, g.hash, g.hash) == [g.hash]
            && Work(tree, [g.hash]) == g.difficulty
  {
    var tree: Tree := map[g.hash := g];
    assert Linked(tree, g.hash, g.hash);
    assert [g.hash][..0] == [];
  }

  /** A database with nothing but genesis. */
  lemma GenesisAlone(g: Header, headers: map<Key, Header>, tds: map<Key, nat>, numbers: map<Hash, nat>,
                     canon: map<nat, Hash>)
    requires g.number == 0 && g.hash != 0 && g.parent == 0 && headers == map[(0, g.hash) := g]
             && tds == map[(0, g.hash) := g.difficulty]
    requires numbers == map[g.hash := 0] && canon == map[0 := g.hash]
    ensures var tree: Tree := map[g.hash := g];
            && Closed(tree, g.hash) && Stores(tree, headers, numbers) && SameKeys(headers, tds)
            && Sums(tree, g.hash, tds) && Heaviest(tree, g.hash, g.hash)
            && Chain(tree, [g.hash]) && Indexes(canon, [g.hash]) && [g.hash] == PathTo(tree, g.hash, g.hash)
  {
    hide PathTo, Work, Closed;
    GenesisPath(g);
    assert forall n: nat :: n in canon <==> n == 0;
  }

  lemma PathIsChain(tree: Tree, genesis: Hash, h: Hash)
    requires Closed(tree, genesis) && h in tree
    ensures Chain(tree, PathTo(tree, genesis, h))
  {
    var p := PathTo(tree, genesis, h);
    forall n | 0 <= n < |p| ensures p[n] in tree && p[n] != 0 && tree[p[n]].number == n && tree[p[n]].hash == p[n] {
      PathPrefix(tree, genesis, h, n);
      AtHeader(tree, genesis, p[n]);
    }
    forall n | 0 < n < |p| ensures tree[p[n]].parent == p[n - 1] {
      PathLink(tree, genesis, h, n);
    }
  }

  lemma ChainAt(tree: Tree, path: Path, n: nat)
    requires Chain(tree, path) && n < |path|
    ensures path[n] in tree && path[n] != 0 && tree[path[n]].number == n
            && (n > 0 ==> tree[path[n]].parent == path[n - 1])
  {}

  lemma ChainHash(tree: Tree, path: Path, n: nat)
    requires Chain(tree, path) && n < |path|
    ensures path[n] in tree && tree[path[n]].hash == path[n]
  {}

  // ---------- taking headers away ----------

  ghost function Without(tree: Tree, hashes: seq<Hash>): Tree {
    map h | h in tree && h !in hashes :: tree[h]
  }

  /** Nothing in `now` is not as it was. */
  ghost predicate Kept(was: map<Key, nat>, now: map<Key, nat>) {
    forall k | k in now :: k in was && now[k] == was[k]
  }

  lemma KeptOn(a: map<Key, nat>, b: map<Key, nat>, c: map<Key, nat>)
    requires Kept(a, b) && Kept(b, c)
    ensures Kept(a, c)
  {}

  lemma WithoutNone(tree: Tree)
    ensures Without(tree, []) == tree
  {}

  lemma WithoutMore(tree: Tree, p: Path, n: nat)
    requires 0 < n <= |p|
    ensures Without(tree, p[n - 1..]) == Without(tree, p[n..]) - {p[n - 1]}
  {}

  lemma Dropped(tree: Tree, headers: map<Key, Header>, numbers: map<Hash, nat>, tds: map<Key, nat>, cache: map<Hash,
                Header>, h: Hash)
    requires Stores(tree, headers, numbers) && SameKeys(headers, tds) && FreshHeaders(tree, cache) && h in tree
    ensures var k := (tree[h].number, h);
            Stores(tree - {h}, headers - {k}, numbers - {h}) && SameKeys(headers - {k}, tds - {k})
                && FreshHeaders(tree - {h}, cache)
  {}

  lemma ChainDropped(tree: Tree, path: Path)
    requires Chain(tree, path) && |path| > 1
    ensures Chain(tree - {path[|path| - 1]}, path[..|path| - 1])
  {}

  lemma IndexDrops(canon: map<nat, Hash>, p: Path, i: nat)
    requires 0 < i < |p| && Indexes(canon, p[..i + 1])
    ensures Indexes(canon - {i}, p[..i])
  {}

  // ---------- rewriting the index ----------

  /** The index while it is being rewritten for the path `q`: below `i` it is the old path's, above `i` and
      below `top` the new one's, and there is nothing above `top`. */
  ghost predicate Walking(canon: map<nat, Hash>, p: Path, q: Path, i: int, top: nat)
    requires -1 <= i < top < |q|
  {
    && (forall n: nat :: n in canon <==> (n < |p| && n <= top) || i < n < top)
    && (forall n | n in canon && n <= i :: canon[n] == p[n])
    && (forall n | i < n < top :: canon[n] == q[n])
  }

  lemma WalkStarts(canon: map<nat, Hash>, p: Path, q: Path, top: nat)
    requires 0 < top < |q| && Cut(canon, p, top)
    ensures Walking(canon, p, q, top - 1, top)
  {}

  lemma WalkSteps(canon: map<nat, Hash>, p: Path, q: Path, i: nat, top: nat)
    requires i < top < |q| && Walking(canon, p, q, i, top)
    ensures Walking(canon[i := q[i]], p, q, i - 1, top)
  {}

  /** Where the walk finds its own hash the paths have met, and the index is the new path. */
  lemma WalkEnds(canon: map<nat, Hash>, p: Path, q: Path, i: nat, top: nat)
    requires i < top < |q| && |q| == top + 1 && Walking(canon, p, q, i, top) && i < |p| && p[..i + 1] == q[..i + 1]
    ensures Indexes(canon[top := q[top]], q)
  {}

  /** The walk meets the old path at genesis at the latest. */
  lemma WalkMeets(canon: map<nat, Hash>, p: Path, q: Path, i: nat, top: nat)
    requires i < top < |q| && Walking(canon, p, q, i, top) && |p| > 0 && p[0] == q[0]
    ensures i in canon <==> i < |p|
    ensures i < |p| ==> canon[i] == p[i]
    ensures i == 0 ==> i in canon && canon[i] == q[i]
  {}

  /** All that is to be said where the walk ends. */
  lemma WalkDone(tree: Tree, ever: Tree, genesis: Hash, head: Hash, x: Hash, canon: map<nat, Hash>, p: Path, q: Path,
                 i: nat)
    requires Closed(ever, genesis) && Grown(tree, ever) && head in ever && x in ever && Chain(tree, p)
    requires p == PathTo(ever, genesis, head) && q == PathTo(ever, genesis, x) && i < ever[x].number
    requires |q| == ever[x].number + 1 && q[|q| - 1] == x && |p| == ever[head].number + 1 && p[0] == q[0]
    requires Walking(canon, p, q, i, ever[x].number) && i in canon && canon[i] == q[i] && Stored(tree, q[i + 1..])
    ensures Rooted(tree, genesis, x) && Indexes(canon[ever[x].number := x], q)
  {
    hide PathTo, Closed, Grown, Chain, Walking, Stored, Indexes, Rooted;
    WalkMeets(canon, p, q, i, ever[x].number);
    PathsMeet(ever, genesis, head, x, i);
    WalkEnds(canon, p, q, i, ever[x].number);
    Meets(tree, p, q, i);
    RootedIff(tree, ever, genesis, x);
  }

  /** The index is the path, without what lies above a number. */
  ghost predicate Cut(canon: map<nat, Hash>, path: Path, top: nat) {
    && (forall n: nat :: n in canon <==> n < |path| && n <= top)
    && (forall n | n in canon :: canon[n] == path[n])
  }

  lemma FreshIfCached(tree: Tree, cache: map<Hash, Header>)
    requires CachedHeaders(tree, cache)
    ensures FreshHeaders(tree, cache)
  {}

  /** What the overwriting walk needs of the new path and the old one. */
  lemma BothEnds(tree: Tree, genesis: Hash, x: Hash, head: Hash)
    requires Closed(tree, genesis) && x in tree && x != genesis && head in tree
    ensures var q, p := PathTo(tree, genesis, x), PathTo(tree, genesis, head);
            && |q| == tree[x].number + 1 && tree[x].number > 0 && tree[x].parent == q[tree[x].number - 1]
            && Chain(tree, q) && Chain(tree, p) && |p| == tree[head].number + 1 && q[0] == p[0] == genesis
  {
    AtHeader(tree, genesis, x);
    PathEnds(tree, genesis, x);
    PathEnds(tree, genesis, head);
    PathIsChain(tree, genesis, x);
    PathIsChain(tree, genesis, head);
    PathLink(tree, genesis, x, tree[x].number);
  }

  /** What the chain keeps in its database: headers and total difficulties under number and hash, numbers by
      hash, the canonical index, and the head. */
  datatype Database = Database(headers: map<Key, Header>, tds: map<Key, nat>, numbers: map<Hash, nat>,
                               canon: map<nat, Hash>, headHash: Hash)

  datatype Caches = Caches(headers: map<Hash, Header>, tds: map<Hash, nat>, numbers: map<Hash, nat>)

  class HeaderChain {
    var db: Database

    const genesis: Header
    var current: Option<Header>
    var currentHash: Hash

    var cache: Caches

    /** Every stored header, by hash, every header that ever was, and the hashes of the canonical chain. */
    ghost var tree: Tree
    ghost var ever: Tree
    ghost var path: Path

    /** The database is well formed and the caches agree with it. */
    ghost predicate Cached()
      reads `db, `cache, `tree
    {
      CachedAll(tree, db.headers, db.tds, db.numbers, cache.headers, cache.tds, cache.numbers)
    }

    /** The canonical chain is well formed. */
    ghost predicate Consistent()
      reads this
    {
      && Cached() && |path| > 0 && Chain(tree, path) && path[0] == genesis.hash && Indexes(db.canon, path)
      && currentHash == db.headHash == path[|path| - 1] && current == Some(tree[currentHash])
    }

    /** What every sequence of header writes and rewinds keeps: it is the head's path, and every total difficulty is
        the sum back to genesis, even where some ancestors have been deleted. */
    ghost predicate Sound()
      reads this
    {
      && Consistent() && Closed(ever, genesis.hash) && Grown(tree, ever)
      && path == PathTo(ever, genesis.hash, currentHash) && Sums(ever, genesis.hash, db.tds)
    }

    /** What every sequence of header writes keeps: nothing lacks its parent, and the head is heaviest. */
    ghost predicate Valid()
      reads this
    {
      Sound() && Closed(tree, genesis.hash) && Heaviest(tree, genesis.hash, currentHash)
    }

    constructor (genesis: Header)
      requires genesis.number == 0 && genesis.hash != 0 && genesis.parent == 0
      ensures Valid() && this.genesis == genesis && tree == ever == map[genesis.hash := genesis]
      ensures db.tds == map[(0, genesis.hash) := genesis.difficulty]
    {
      hide Stores, SameKeys, Sums, Heaviest, Chain, Indexes, PathTo, Closed;
      this.genesis := genesis;
      db := Database(map[(0, genesis.hash) := genesis], map[(0, genesis.hash) := genesis.difficulty],
                     map[genesis.hash := 0], map[0 := genesis.hash], genesis.hash);
      current, currentHash, cache := Some(genesis), genesis.hash, Caches(map[], map[], map[]);
      tree, ever, path := map[genesis.hash := genesis], map[genesis.hash := genesis], [genesis.hash];
      new;
      GenesisAlone(genesis, db.headers, db.tds, db.numbers, db.canon);
    }

    lemma CachedParts()
      requires Cached()
      ensures Stores(tree, db.headers, db.numbers) && SameKeys(db.headers, db.tds)
      ensures FreshHeaders(tree, cache.headers) && CachedHeaders(tree, cache.headers)
    {}

    // ---------- cached reads ----------

    method GetHeader(hash: Hash, number: nat) returns (r: Option<Header>)
      requires Stores(tree, db.headers, db.numbers) && FreshHeaders(tree, cache.headers)
      modifies `cache
      ensures FreshHeaders(tree, cache.headers)
      ensures hash in tree && number == tree[hash].number ==> r == Some(tree[hash])
      ensures CachedHeaders(tree, old(cache.headers)) ==> CachedHeaders(tree, cache.headers)
      ensures cache == old(cache).(headers := cache.headers)
      ensures CachedHeaders(tree, old(cache.headers)) && (hash in db.numbers ==> number == db.numbers[hash]) ==>
                r == if (number, hash) in db.headers then Some(db.headers[(number, hash)]) else None
    {
      if hash in cache.headers {
        return Some(cache.headers[hash]);
      }
      if (number, hash) !in db.headers {
        return None;
      }
      r := Some(db.headers[(number, hash)]);
      var c := CacheAdd(cache.headers, hash, r.value);
      cache := cache.(headers := c);
    }

    method GetTd(hash: Hash, number: nat) returns (r: Option<nat>)
      requires Cached()
      modifies `cache
      ensures Cached() && cache == old(cache).(tds := cache.tds)
      ensures (hash in db.numbers ==> number == db.numbers[hash]) ==>
                r == if (number, hash) in db.tds then Some(db.tds[(number, hash)]) else None
    {
      if hash in cache.tds {
        return Some(cache.tds[hash]);
      }
      if (number, hash) !in db.tds {
        return None;
      }
      r := Some(db.tds[(number, hash)]);
      var c := CacheAdd(cache.tds, hash, r.value);
      cache := cache.(tds := c);
    }

    /** The number of a hash; the largest 64-bit value stands for a missing one. */
    method GetBlockNumber(hash: Hash) returns (r: nat)
      requires Cached() && forall h | h in tree :: tree[h].number < MAX_UINT64
      modifies `cache
      ensures Cached() && cache == old(cache).(numbers := cache.numbers)
      ensures r == if hash in db.numbers then db.numbers[hash] else MAX_UINT64
    {
      if hash in cache.numbers {
        return cache.numbers[hash];
      }
      r := if hash in db.numbers then db.numbers[hash] else MAX_UINT64;
      if r != MAX_UINT64 {
        var c := CacheAdd(cache.numbers, hash, r);
        cache := cache.(numbers := c);
      }
    }

    method HasHeader(hash: Hash, number: nat) returns (r: bool)
      requires Cached()
      ensures (hash in db.numbers ==> number == db.numbers[hash]) ==> r == (hash in tree)
    {
      r := hash in cache.numbers || hash in cache.headers || (number, hash) in db.headers;
    }

    function CanonicalHash(n: nat): Hash
      reads `db
    {
      if n in db.canon then db.canon[n] else 0
    }

    // ---------- writing ----------

    /** Stores a header and its total difficulty in the database. */
    method Store(x: Header, td: nat)
      requires Cached() && Closed(ever, genesis.hash) && Grown(tree, ever) && Sums(ever, genesis.hash, db.tds)
      requires Fits(tree, x) && Fits(ever, x)
      requires td == Work(ever, PathTo(ever, genesis.hash, x.parent)) + x.difficulty
      modifies `db, `cache, `tree, `ever
      ensures Cached() && tree == old(tree)[x.hash := x] && ever == old(ever)[x.hash := x] && Grown(tree, ever)
      ensures db.canon == old(db.canon) && db.headHash == old(db.headHash)
      ensures db.tds == old(db.tds)[(x.number, x.hash) := td] && Sums(ever, genesis.hash, db.tds)
    {
      hide PathTo, Work, Stores, Sums, Closed, CachedHeaders, CachedTds, CachedNumbers, Added, SameKeys, Keyed;
      ghost var tree0, tds0, c := tree, db.tds, cache;
      KeyedIn(tree, ever, db.headers, db.numbers, db.tds);
      SumsNew(ever, genesis.hash, db.tds, x, td);
      StoresNew(tree, db.headers, db.numbers, x);
      SameKeysNew(db.headers, db.tds, x, td);
      db := db.(tds := db.tds[(x.number, x.hash) := td]);
      var cachedTds := CacheAdd(cache.tds, x.hash, td);
      db := db.(headers := db.headers[(x.number, x.hash) := x], numbers := db.numbers[x.hash := x.number]);
      tree, ever := tree[x.hash := x], ever[x.hash := x];
      cache := cache.(tds := cachedTds);
      CachesNew(tree0, tds0, c.headers, c.tds, c.numbers, cachedTds, x, td);
    }

    /** Adds a stored header to the caches. */
    method Remember(x: Header)
      requires Cached() && x.hash in tree && tree[x.hash] == x
      modifies `cache
      ensures Cached()
    {
      hide Stores, CachedHeaders, CachedTds, CachedNumbers, Added, SameKeys;
      var cachedHeaders := CacheAdd(cache.headers, x.hash, x);
      var cachedNumbers := CacheAdd(cache.numbers, x.hash, x.number);
      Remembered(tree, cache.headers, cache.numbers, cachedHeaders, cachedNumbers, x);
      cache := Caches(cachedHeaders, cache.tds, cachedNumbers);
    }

    /** Deletes the canonical entries above a number. */
    method DeleteAbove(number: nat)
      requires Indexes(db.canon, path)
      modifies `db
      ensures Cut(db.canon, path, number)
      ensures db == old(db).(canon := db.canon)
    {
      var i := number + 1;
      while i in db.canon
        invariant number < i && db == old(db).(canon := db.canon)
        invariant forall n: nat :: n in db.canon <==> n < |path| && !(number < n < i)
        invariant forall n | n in db.canon :: db.canon[n] == path[n]
        decreases |path| - i
      {
        db := db.(canon := db.canon - {i});
        i := i + 1;
      }
      assert forall n | n in db.canon :: n <= number;
    }

    /** Overwrites stale canonical entries below a new header, down to where its path meets the old one.  Where that
        path leads to a header that has been deleted the walk reads it, gets nothing, and panics; the index then
        names the missing header. */
    method Overwrite(x: Header) returns (panics: bool)
      requires Stores(tree, db.headers, db.numbers) && CachedHeaders(tree, cache.headers)
      requires Closed(ever, genesis.hash) && Grown(tree, ever) && x.hash in tree && tree[x.hash] == x
      requires x.hash != genesis.hash && currentHash in tree && Chain(tree, path)
      requires path == PathTo(ever, genesis.hash, currentHash) && Cut(db.canon, path, x.number)
      modifies `db, `cache
      ensures CachedHeaders(tree, cache.headers)
      ensures panics <==> !Rooted(tree, genesis.hash, x.hash)
      ensures !panics ==> Indexes(db.canon[x.number := x.hash], PathTo(ever, genesis.hash, x.hash))
      ensures panics ==> exists n :: n in db.canon && db.canon[n] !in tree
      ensures db == old(db).(canon := db.canon) && cache == old(cache).(headers := cache.headers)
    {
      hide PathTo, Work, Closed, Linked, Stores, CachedHeaders, FreshHeaders, Walking, Cut, Indexes, Chain, Rooted,
          Grown, Stored;
      InEver(tree, ever, x.hash);
      InEver(tree, ever, currentHash);
      ghost var g, q := genesis.hash, PathTo(ever, genesis.hash, x.hash);
      BothEnds(ever, g, x.hash, currentHash);
      FreshIfCached(tree, cache.headers);
      panics := false;
      var hash, number := x.parent, x.number - 1;
      WalkStarts(db.canon, path, q, x.number);
      StoredTop(tree, q);
      var header := LookUp(hash, number, q);
      while CanonicalHash(number) != hash
        invariant db == old(db).(canon := db.canon) && cache == old(cache).(headers := cache.headers)
        invariant CachedHeaders(tree, cache.headers) && FreshHeaders(tree, cache.headers)
        invariant 0 <= number < x.number && hash == q[number]
        invariant header == if hash in tree then Some(tree[hash]) else None
        invariant Walking(db.canon, path, q, number, x.number)
        invariant Stored(tree, q[number + 1..])
        decreases number
      {
        WalkMeets(db.canon, path, q, number, x.number);
        WalkSteps(db.canon, path, q, number, x.number);
        StoredOn(tree, q, number);
        db := db.(canon := db.canon[number := hash]);
        if header == None {
          assert number in db.canon && db.canon[number] !in tree;
          RootedIff(tree, ever, g, x.hash);
          panics := true;
          return;
        }
        ChainAt(ever, q, number);
        InEver(tree, ever, hash);
        hash, number := header.value.parent, header.value.number - 1;
        header := LookUp(hash, number, q);
      }
      WalkDone(tree, ever, g, currentHash, x.hash, db.canon, path, q, number);
    }

    /** Reads the header of a hash on a path. */
    method LookUp(hash: Hash, number: nat, ghost q: Path) returns (header: Option<Header>)
      requires Stores(tree, db.headers, db.numbers) && CachedHeaders(tree, cache.headers)
      requires FreshHeaders(tree, cache.headers) && Grown(tree, ever) && Chain(ever, q) && number < |q|
      requires hash == q[number]
      modifies `cache
      ensures CachedHeaders(tree, cache.headers) && FreshHeaders(tree, cache.headers)
      ensures cache == old(cache).(headers := cache.headers)
      ensures header == if hash in tree then Some(tree[hash]) else None
    {
      hide Stores, CachedHeaders, FreshHeaders, Grown, Chain;
      AtNumber(q, number);
      header := GetHeader(hash, number);
    }

    /** The database has a hash of a path, if it has it, under its number on the path. */
    lemma AtNumber(q: Path, n: nat)
      requires Stores(tree, db.headers, db.numbers) && Grown(tree, ever) && Chain(ever, q) && n < |q|
      ensures q[n] in db.numbers ==> db.numbers[q[n]] == n
      ensures (n, q[n]) in db.headers <==> q[n] in tree
      ensures q[n] in tree ==> db.headers[(n, q[n])] == tree[q[n]]
    {}

    /** Makes a stored header the head, or panics on the way. */
    method Reroute(x: Header) returns (panics: bool)
      requires Cached() && Chain(tree, path)
      requires Closed(ever, genesis.hash) && Grown(tree, ever) && x.hash in tree && tree[x.hash] == x
      requires x.hash != genesis.hash && currentHash in tree
      requires path == PathTo(ever, genesis.hash, currentHash) && Indexes(db.canon, path)
      modifies `db, `cache, `current, `currentHash, `path
      ensures panics <==> !Rooted(tree, genesis.hash, x.hash)
      ensures Cached() && db.tds == old(db.tds)
      ensures !panics ==> Indexes(db.canon, path) && Chain(tree, path) && path == PathTo(ever, genesis.hash, x.hash)
                          && currentHash == db.headHash == x.hash && current == Some(x) && path[0] == genesis.hash
      ensures panics ==> currentHash == old(currentHash) && current == old(current) && db.headHash == old(db.headHash)
                         && path == old(path) && exists n :: n in db.canon && db.canon[n] !in tree
    {
      hide PathTo, Work, Closed, Linked, CachedAll, Stores, SameKeys, CachedHeaders, FreshHeaders, Cut, Indexes, Chain,
          Rooted, Grown;
      CachedParts();
      ghost var was := cache.headers;
      DeleteAbove(x.number);
      panics := Overwrite(x);
      OtherHeaders(tree, db.headers, db.tds, db.numbers, was, cache.tds, cache.numbers, cache.headers);
      if panics {
        return;
      }
      db := db.(canon := db.canon[x.number := x.hash], headHash := x.hash);
      currentHash, current := x.hash, Some(x);
      InEver(tree, ever, x.hash);
      path := PathTo(ever, genesis.hash, x.hash);
      PathEnds(ever, genesis.hash, x.hash);
      RootedChain(tree, ever, genesis.hash, x.hash);
    }

    /** Writes a header on from a stored parent.  If it is heavier than the head, or as heavy and chosen, it becomes
        the head; but if an ancestor of it has been deleted by a rewind, that is a panic, and exactly then. */
    method WriteHeader(x: Header) returns (ok: bool, canonical: bool, panics: bool)
      requires Sound() && x.hash != 0 && x.number < MAX_UINT64 && (x.hash in ever ==> ever[x.hash] == x)
      requires x.parent in tree ==> x.number == tree[x.parent].number + 1
      modifies this
      ensures ok == (x.parent in old(tree)) && tree == if ok then old(tree)[x.hash := x] else old(tree)
      ensures ever == if ok then old(ever)[x.hash := x] else old(ever)
      ensures !panics ==> Sound()
      ensures old(Valid()) ==> Valid() && !panics
      ensures ok ==>
                var td := TdOf(old(tree), old(db.tds), x.parent) + x.difficulty;
                var localTd := TdOf(old(tree), old(db.tds), old(currentHash));
                && db.tds == old(db.tds)[(x.number, x.hash) := td]
                && (td > localTd ==> canonical || panics) && (td < localTd ==> !canonical && !panics)
      ensures canonical || panics ==> ok && (panics <==> !Rooted(old(tree), genesis.hash, x.parent))
      ensures canonical ==> !panics && currentHash == x.hash
      ensures !canonical ==> currentHash == old(currentHash) && path == old(path)
      ensures !canonical && !panics ==> db.canon == old(db.canon)
      ensures panics ==> !Rooted(tree, genesis.hash, x.hash) && exists n :: n in db.canon && db.canon[n] !in tree
    {
      hide PathTo, Work, CachedAll, Closed, Sums, Chain, Indexes, Heaviest, Rooted, Grown, TdOf, Fits;
      canonical, panics := false, false;
      HeadIn();
      Totals(currentHash);
      var ptd := GetTd(x.parent, Pred(x.number));
      ParentTd(x);
      if ptd == None {
        return false, false, false;
      }
      ok := true;
      var localTd := GetTd(currentHash, current.value.number);
      var externTd := x.difficulty + ptd.value;
      ghost var was, all, head := tree, ever, currentHash;
      ghost var whole := Valid();
      Regrown(x);
      GrownOne(tree, ever, x);
      if whole {
        AllRooted(tree, ever, genesis.hash, x.parent);
      }
      Store(x, externTd);
      RootedNew(was, ever, genesis.hash, x);
      var coin: bool := *;
      if externTd > localTd.value || (externTd == localTd.value && coin) {
        panics := Reroute(x);
        canonical := !panics;
      }
      if whole {
        StillValid(was, all, genesis.hash, head, x, currentHash);
      }
      if panics {
        return;
      }
      Remember(x);
    }

    /** The parent's total difficulty is found exactly if the parent is stored. */
    lemma ParentTd(x: Header)
      requires Sound() && x.number < MAX_UINT64 && x.hash != 0 && (x.hash in ever ==> ever[x.hash] == x)
      requires x.parent in tree ==> x.number == tree[x.parent].number + 1
      ensures (Pred(x.number), x.parent) in db.tds <==> x.parent in tree
      ensures x.parent in db.numbers ==> db.numbers[x.parent] == Pred(x.number)
      ensures x.parent in tree ==>
                && x.parent in ever && Fits(tree, x) && Fits(ever, x)
                && db.tds[(Pred(x.number), x.parent)] == TdOf(tree, db.tds, x.parent)
                && TdOf(tree, db.tds, x.parent) == Work(ever, PathTo(ever, genesis.hash, x.parent))
    {
      hide Work, PathTo, Closed, Chain, Indexes;
    }

    lemma ValidSound()
      requires Valid()
      ensures Sound()
    {}

    lemma HeadLast()
      requires Sound()
      ensures |path| > 0 && currentHash == path[|path| - 1] && currentHash in tree
    {}

    /** The path to the fourth header of a chain. */
    lemma PathOfFour()
      requires Sound() && currentHash == 4 && genesis.hash == 1
      requires 4 in tree && tree[4] == Header(4, 3, 3, 2) && 3 in tree && tree[3] == Header(3, 2, 2, 2)
      ensures path == [1, 2, 3, 4]
    {
      hide Cached, Sums, Closed, Indexes;
      PathEnds(ever, 1, 4);
      ChainAt(tree, path, 3);
      ChainAt(tree, path, 2);
    }

    lemma HeadIn()
      requires Sound()
      ensures currentHash in tree && currentHash in ever
    {}

    /** A stored header has its total difficulty in the database, and that is the sum back to genesis. */
    lemma Totals(h: Hash)
      requires Sound() && h in tree
      ensures h in ever && (tree[h].number, h) in db.tds && h in db.numbers && db.numbers[h] == tree[h].number
      ensures db.tds[(tree[h].number, h)] == TdOf(tree, db.tds, h)
      ensures TdOf(tree, db.tds, h) == Work(ever, PathTo(ever, genesis.hash, h))
    {
      hide Work, PathTo, Closed, Chain, Indexes;
    }

    /** The canonical chain is still there once the tree has grown. */
    lemma Regrown(x: Header)
      requires Sound() && Fits(ever, x)
      ensures var ever' := ever[x.hash := x];
              && Closed(ever', genesis.hash) && currentHash in ever' && x.hash != genesis.hash
              && path == PathTo(ever', genesis.hash, currentHash) && Chain(tree[x.hash := x], path)
              && tree[x.hash := x][currentHash] == tree[currentHash]
    {
      hide CachedAll, Sums, Indexes, PathTo, Linked;
      GrownIsClosed(ever, genesis.hash, x);
      PathGrown(ever, genesis.hash, x, currentHash);
      NotGenesis(ever, genesis.hash, x);
    }

    /** Imports one header unless it is known. */
    method InsertHeader(x: Header) returns (ok: bool, panics: bool)
      requires Sound() && x.hash != 0 && x.number < MAX_UINT64 && (x.hash in ever ==> ever[x.hash] == x)
      requires x.parent in ever ==> x.number == ever[x.parent].number + 1
      modifies this
      ensures ok <==> x.parent in old(tree) || x.hash in old(tree)
      ensures tree == if ok then old(tree)[x.hash := x] else old(tree)
      ensures ever == if ok then old(ever)[x.hash := x] else old(ever)
      ensures !ok ==> path == old(path)
      ensures !panics ==> Sound()
      ensures old(Valid()) ==> Valid() && !panics
      ensures panics ==> ok && !Rooted(tree, genesis.hash, x.hash) && exists n :: n in db.canon && db.canon[n] !in tree
      ensures ok && !panics && !Rooted(tree, genesis.hash, x.hash) ==>
                && currentHash == old(currentHash) && Beside(old(tree), old(db.tds), db.tds, x, currentHash)
                && !Rooted(old(tree), genesis.hash, x.parent)
    {
      hide Sound, Valid, Grown, Rooted, Closed, TdOf;
      panics := false;
      NumbersRight(x.hash);
      NumbersRight(x.parent);
      HeadIn();
      var known := HasHeader(x.hash, x.number);
      if known {
        assert tree[x.hash := x] == tree && ever[x.hash := x] == ever;
        Regrowing(x);
        return true, false;
      }
      Regrowing(x);
      var canonical;
      ok, canonical, panics := WriteHeader(x);
    }

    /** A header becomes rooted exactly by a rooted parent. */
    lemma Regrowing(x: Header)
      requires Sound() && x.hash != 0 && x.number < MAX_UINT64 && (x.hash in ever ==> ever[x.hash] == x)
      requires x.parent in ever ==> x.number == ever[x.parent].number + 1
      ensures x.parent in tree ==>
                (Rooted(tree[x.hash := x], genesis.hash, x.hash) <==> Rooted(tree, genesis.hash, x.parent))
      ensures Rooted(tree, genesis.hash, x.parent) ==> x.parent in tree
    {
      assert Rooted(tree, genesis.hash, x.parent) ==> x.parent in tree;
      hide PathTo, Work, Closed, Rooted, Chain, Indexes, CachedAll;
      if x.parent in tree {
        assert Fits(ever, x);
        GrownIsClosed(ever, genesis.hash, x);
        NotGenesis(ever, genesis.hash, x);
        RootedNew(tree, ever[x.hash := x], genesis.hash, x);
      }
    }

    /** Imports a linked run of headers, passing over known ones.  Only the first can lack its parent.  `done` of them
        are in when it ends. */
    method InsertHeaders(chain: seq<Header>) returns (done: nat, ok: bool, panics: bool)
      requires Sound() && Batch(ever, chain)
      modifies this
      ensures done <= |chain| && Grown(old(tree), tree) && Imported(tree, chain, done)
      ensures Grown(old(ever), ever) && Grew(old(ever), ever, chain)
      ensures !panics ==> Sound() && (ok <==> chain == [] || chain[0].parent in old(tree) || chain[0].hash in old(tree))
      ensures old(Valid()) ==> Valid() && !panics
      ensures ok <==> !panics && done == |chain|
      ensures !ok && !panics ==> tree == old(tree) && path == old(path)
      ensures panics ==> done > 0 && !Rooted(tree, genesis.hash, chain[done - 1].hash)
                         && exists n :: n in db.canon && db.canon[n] !in tree
      ensures ok && chain != [] && !Rooted(tree, genesis.hash, chain[|chain| - 1].hash) ==>
                currentHash == old(currentHash) && Light(old(tree), tree, db.tds, currentHash)
    {
      hide Sound, Valid, Batch, Imported, Grown, Rooted, Grew, Light, Beside;
      done, ok, panics := 0, true, false;
      NothingImported(tree, chain);
      NothingImported(ever, chain);
      NothingGrew(ever, chain);
      HeadIn();
      LightNone(tree, db.tds, currentHash);
      ghost var whole := Valid();
      while done < |chain|
        invariant 0 <= done <= |chain| && Sound() && Batch(ever, chain)
        invariant done > 0 ==> chain[0].parent in old(tree) || chain[0].hash in old(tree)
        invariant done == 0 ==> tree == old(tree) && path == old(path)
        invariant Imported(tree, chain, done) && Grown(old(tree), tree)
        invariant Grown(old(ever), ever) && Grew(old(ever), ever, chain)
        invariant whole ==> Valid()
        invariant done == 0 || !Rooted(tree, genesis.hash, chain[done - 1].hash) ==>
                    currentHash == old(currentHash) && Light(old(tree), tree, db.tds, currentHash)
      {
        var x := chain[done];
        NumbersRight(x.hash);
        BatchAt(ever, chain, done);
        BatchOn(ever, chain, done);
        ImportedOne(tree, ever, tree[x.hash := x], chain, done);
        GrownOne(old(tree), tree, x);
        GrownOne(old(ever), ever, x);
        GrewOne(old(ever), ever, chain, done);
        if done > 0 {
          ImportedLast(tree, chain, done);
        }
        ghost var was, tds := tree, db.tds;
        ok, panics := InsertHeader(x);
        if !ok {
          return;
        }
        if !panics && !Rooted(tree, genesis.hash, x.hash) {
          LightNext(old(tree), was, tds, db.tds, x, currentHash);
        }
        done := done + 1;
        if panics {
          ok := false;
          return;
        }
      }
    }

    /** Any sequence of imports and rewinds, up to a panic, which only an import after a rewind can be. */
    method Run(uses: seq<Use>, ghost u: Tree) returns (panics: bool)
      requires Sound() && Lawful(u) && Grown(ever, u) && forall i | 0 <= i < |uses| :: uses[i].Of(u)
      modifies this
      ensures !panics ==> Sound()
      ensures old(Valid()) && (forall i | 0 <= i < |uses| :: uses[i].Import?) ==> Valid() && !panics
    {
      hide Sound, Valid, Lawful, Grown, Drawn, Batch, Whole, Tops, TdOf, Without, Imported, Rooted, Light, Grew;
      panics := false;
      ghost var whole := Valid();
      for i := 0 to |uses|
        invariant Sound() && Grown(ever, u)
        invariant whole && (forall j | 0 <= j < i :: uses[j].Import?) ==> Valid()
      {
        match uses[i] {
          case Import(chain) =>
            assert uses[i].Of(u);
            ghost var all := ever;
            DrawnBatch(u, ever, chain);
            var _, _, crash := InsertHeaders(chain);
            StillWithin(u, all, ever, chain);
            if crash {
              return true;
            }
          case Rewind(head) =>
            SetHead(head);
        }
      }
    }

    lemma NumbersRight(h: Hash)
      requires Sound()
      ensures Cached() && (h in db.numbers <==> h in tree) && (h in tree ==> db.numbers[h] == tree[h].number)
      ensures h in tree ==> h in ever && ever[h] == tree[h]
    {}

    // ---------- rewinding ----------

    /** Deletes the head's header and total difficulty and steps back to its parent. */
    method DropTop()
      requires Stores(tree, db.headers, db.numbers) && SameKeys(db.headers, db.tds) && FreshHeaders(tree, cache.headers)
      requires Chain(tree, path) && |path| > 1 && path[|path| - 1] in tree && current == Some(tree[path[|path| - 1]])
      modifies `db, `cache, `current, `tree, `path
      ensures db.canon == old(db.canon) && db.headHash == old(db.headHash)
      ensures path == old(path)[..|old(path)| - 1] && tree == old(tree) - {old(path)[|path|]} && Chain(tree, path)
      ensures path[|path| - 1] in tree && current == Some(tree[path[|path| - 1]]) && current.value.number == |path| - 1
      ensures Stores(tree, db.headers, db.numbers) && SameKeys(db.headers, db.tds) && FreshHeaders(tree, cache.headers)
      ensures Kept(old(db.tds), db.tds)
    {
      hide Stores, SameKeys, FreshHeaders, Chain;
      var x := current.value;
      ChainAt(tree, path, |path| - 1);
      ChainAt(tree, path, |path| - 2);
      ChainHash(tree, path, |path| - 1);
      Dropped(tree, db.headers, db.numbers, db.tds, cache.headers, x.hash);
      ChainDropped(tree, path);
      db := db.(numbers := db.numbers - {x.hash}, headers := db.headers - {(x.number, x.hash)},
          tds := db.tds - {(x.number, x.hash)});
      tree := tree - {x.hash};
      path := path[..|path| - 1];
      ChainAt(tree, path, |path| - 1);
      current := GetHeader(x.parent, Pred(x.number));
    }

    /** Drops db.headers while the head is above a number. */
    method DropAbove(head: nat)
      requires Stores(tree, db.headers, db.numbers) && SameKeys(db.headers, db.tds) && FreshHeaders(tree, cache.headers)
      requires |path| > 0 && Chain(tree, path) && path[|path| - 1] in tree && current == Some(tree[path[|path| - 1]])
      modifies `db, `cache, `current, `tree, `path
      ensures db.canon == old(db.canon) && db.headHash == old(db.headHash)
      ensures path == if head + 1 < |old(path)| then old(path)[..head + 1] else old(path)
      ensures Chain(tree, path) && tree == Without(old(tree), old(path)[|path|..])
      ensures path[|path| - 1] in tree && current == Some(tree[path[|path| - 1]])
      ensures Stores(tree, db.headers, db.numbers) && SameKeys(db.headers, db.tds)
      ensures Kept(old(db.tds), db.tds)
    {
      hide Stores, SameKeys, Chain, FreshHeaders, Without;
      ghost var p := path;
      assert p[..|p|] == p && p[|p|..] == [];
      WithoutNone(tree);
      ChainAt(tree, path, |path| - 1);
      while current.Some? && current.value.number > head
        invariant 0 < |path| <= |p| && path == p[..|path|] && Chain(tree, path)
                  && tree == Without(old(tree), p[|path|..])
        invariant path[|path| - 1] in tree && current == Some(tree[path[|path| - 1]])
                  && current.value.number == |path| - 1
        invariant |path| < |p| ==> |path| > head
        invariant db.canon == old(db.canon) && db.headHash == old(db.headHash)
        invariant Stores(tree, db.headers, db.numbers) && SameKeys(db.headers, db.tds)
                  && FreshHeaders(tree, cache.headers)
        invariant Kept(old(db.tds), db.tds)
        decreases |path|
      {
        WithoutMore(old(tree), p, |path|);
        ghost var before := db.tds;
        DropTop();
        KeptOn(old(db.tds), before, db.tds);
      }
    }

    /** Deletes the canonical entries from a height down to just above a number. */
    method Unindex(height: nat, head: nat, ghost p: Path)
      requires |p| == height + 1 && Indexes(db.canon, p)
      modifies `db
      ensures Indexes(db.canon, if head < height then p[..head + 1] else p) && db == old(db).(canon := db.canon)
    {
      hide Indexes;
      var i := height;
      assert p[..i + 1] == p;
      while i > head
        invariant db == old(db).(canon := db.canon)
        invariant 0 <= i <= height && Indexes(db.canon, p[..i + 1]) && (i < height ==> i >= head)
      {
        IndexDrops(db.canon, p, i);
        db := db.(canon := db.canon - {i});
        i := i - 1;
      }
    }

    method Purge()
      requires Stores(tree, db.headers, db.numbers) && SameKeys(db.headers, db.tds)
      modifies `cache
      ensures Cached()
    {
      cache := Caches(map[], map[], map[]);
    }

    /** The deletions of a rewind. */
    method Rewind(head: nat)
      requires Consistent()
      modifies `db, `cache, `current, `currentHash, `tree, `path
      ensures Consistent() && Kept(old(db.tds), db.tds)
      ensures path == Shortened(old(path), head) && tree == Without(old(tree), old(path)[|path|..])
    {
      hide CachedAll, Stores, SameKeys, Chain, Indexes, FreshHeaders, CachedHeaders, Without, Kept;
      CachedParts();
      ghost var p := path;
      ChainAt(tree, path, |path| - 1);
      var height := if current.Some? then current.value.number else 0;
      DropAbove(head);
      Unindex(height, head, p);
      Purge();
      current := if current == None then Some(genesis) else current;
      ChainHash(tree, path, |path| - 1);
      currentHash := current.value.hash;
      db := db.(headHash := currentHash);
    }

    /** Rewinds to a number: every canonical entry, header and total difficulty above it goes, nothing else
        does, and the canonical header of that number becomes the head.  What side branches there are stay, so that
        the chain is as before in every respect exactly if none of them has lost its root and none is heavier than
        the new head. */
    method SetHead(head: nat)
      requires Sound()
      modifies this
      ensures Sound() && ever == old(ever)
      ensures path == Shortened(old(path), head) && tree == Without(old(tree), old(path)[|path|..])
      ensures forall h | h in tree :: TdOf(tree, db.tds, h) == TdOf(old(tree), old(db.tds), h)
      ensures var p := Shortened(old(path), head);
              var kept := Without(old(tree), old(path)[|p|..]);
              Valid() <==> Whole(kept, genesis.hash) && Tops(kept, old(db.tds), Last(p))
    {
      hide CachedAll, Chain, Indexes, Without, Kept, Closed, PathTo, Sums, Grown, Heaviest, Whole, Tops, TdOf, Totalled,
          Stores, SameKeys, CachedHeaders, FreshHeaders;
      HeadIn();
      ghost var tree0, tds0, p, head0 := tree, db.tds, path, currentHash;
      assert p[..|p|] == p;
      Rewind(head);
      CachedParts();
      ghost var dropped := p[|path|..];
      StillSound(tree0, tree, tds0, db.tds, ever, genesis.hash, head0, p, path, dropped);
      TdsLeft(tree0, tree, tds0, db.headers, db.numbers, db.tds, dropped);
      TotalsRight(tree, ever, genesis.hash, db.headers, db.numbers, db.tds);
      HeadIn();
      HeaviestIff(tree, ever, genesis.hash, db.tds, currentHash);
      TopsSame(tree0, tree, tds0, db.tds, currentHash);
    }
  }
  /** A panic does happen: after a rewind to number one, a header whose grandparent is gone but which is heavier than
      the new head. */
  method RewoundPanics() returns (c: HeaderChain, panics: bool)
    ensures fresh(c) && panics && c.tree.Keys == {1, 2, 5, 6} && exists n :: n in c.db.canon && c.db.canon[n] !in c.tree
  {
    hide HeaderChain.Sound, HeaderChain.Valid, Rooted, Whole, Tops, Without, TdOf;
    c := FourAndSide();
    c.SetHead(1);
    Orphaned(c.tree, c.path);
    c.HeadLast();
    var _, _, crash := c.WriteHeader(Header(6, 5, 4, 1));
    panics := crash;
  }

  /** Genesis and three headers on it, and a lighter one beside the last. */
  method FourAndSide() returns (c: HeaderChain)
    ensures fresh(c) && c.Sound() && c.genesis.hash == 1 && c.path == [1, 2, 3, 4] && c.ever == c.tree
    ensures c.tree == map[1 := Header(1, 0, 0, 1), 2 := Header(2, 1, 1, 2), 3 := Header(3, 2, 2, 2),
                          4 := Header(4, 3, 3, 2), 5 := Header(5, 3, 3, 1)]
    ensures TdOf(c.tree, c.db.tds, 2) == 3 && TdOf(c.tree, c.db.tds, 5) == 6
  {
    hide HeaderChain.Sound, HeaderChain.Valid, Rooted;
    c := Three();
    c.ValidSound();
    var _, _, _ := c.WriteHeader(Header(4, 3, 3, 2));
    c.ValidSound();
    var _, _, _ := c.WriteHeader(Header(5, 3, 3, 1));
    c.ValidSound();
    c.PathOfFour();
  }

  method Three() returns (c: HeaderChain)
    ensures fresh(c) && c.Valid() && c.genesis.hash == 1 && c.currentHash == 3 && c.ever == c.tree
    ensures c.tree == map[1 := Header(1, 0, 0, 1), 2 := Header(2, 1, 1, 2), 3 := Header(3, 2, 2, 2)]
    ensures c.db.tds == map[(0, 1) := 1, (1, 2) := 3, (2, 3) := 5]
  {
    hide HeaderChain.Sound, HeaderChain.Valid, Rooted;
    c := new HeaderChain(Header(1, 0, 0, 1));
    c.ValidSound();
    var _, _, _ := c.WriteHeader(Header(2, 1, 1, 2));
    c.ValidSound();
    var _, _, _ := c.WriteHeader(Header(3, 2, 2, 2));
  }

  lemma Orphaned(tree: Tree, path: Path)
    requires var was := map[1 := Header(1, 0, 0, 1), 2 := Header(2, 1, 1, 2), 3 := Header(3, 2, 2, 2),
                            4 := Header(4, 3, 3, 2), 5 := Header(5, 3, 3, 1)];
             path == [1, 2, 3, 4][..2] && tree == Without(was, [1, 2, 3, 4][|path|..])
    ensures path == [1, 2] && !Rooted(tree, 1, 5)
    ensures tree == map[1 := Header(1, 0, 0, 1), 2 := Header(2, 1, 1, 2), 5 := Header(5, 3, 3, 1)]
  {}
}
