/** Runs of the pool in which a new head leaves an account out of order. */
module PoolRuns {
  import opened Transactions
  import opened Nonces
  import opened ListModel
  import opened PoolAccounts
  import opened TxPools
  import IntrinsicGas

  /** A transaction of the given account, nonce and price that costs nothing but its gas. */
  function Transfer(a: Address, nonce: uint64, price: nat): Tx {
    Tx(Some(a), nonce, price, 21000, 0, [], false, 100, 0)
  }

  /** It passes wherever its nonce is not too low and the price is affordable and not below the floor. */
  lemma TransferPasses(a: Address, nonce: uint64, price: nat, r: Rules)
    requires r.world.Nonce(a) <= nonce && price * 21000 <= r.world.Balance(a)
    requires r.world.maxGas >= 21000 && r.gasPrice <= price
    ensures Passes(Transfer(a, nonce, price), false, r)
  {
    var tx := Transfer(a, nonce, price);
    assert IntrinsicGas.IntrinsicSum(tx.data, tx.create, r.homestead) == 21000;
    assert tx.Cost() == price * 21000;
  }

  /** A transaction that passes has no ground to be refused where its slot is free and the pool not full. */
  lemma NoGrounds(e: Error, tx: Tx, r: Rules, known: set<Tx>, full: bool, bump: nat)
    requires Passes(tx, false, r) && !full
    requires forall x | x in known :: x.From() != tx.From() || x.nonce != tx.nonce
    ensures !Grounds(e, tx, false, r, known, full, bump)
  {
    assert !Fails(e, tx, false, r);
  }

  /** The lists of an account in a pool that knows at most one transaction, which is pending there. */
  lemma OnlyOne(all: set<Tx>, x: Slots, tx: Tx)
    requires ListsOk(x.pending, true) && ListsOk(x.queue, false) && Partition(all, x.pending, x.queue)
    requires all <= {tx} && Apart(x.pending, x.queue, tx.From()) && tx.nonce in ItemsOf(x.pending, tx.From())
    ensures all == {tx} && PairOf(x, tx.From()) == Pair(map[tx.nonce := tx], map[])
  {
    var a := tx.From();
    ApartKeys(x.pending, x.queue, a);
    forall n | n in ItemsOf(x.pending, a) ensures n == tx.nonce && ItemsOf(x.pending, a)[n] == tx {
      assert Holds(x.pending, ItemsOf(x.pending, a)[n]);
    }
    assert tx.nonce in ItemsOf(x.pending, a).Keys;
    assert tx.nonce !in ItemsOf(x.queue, a);
    assert forall n | n in ItemsOf(x.queue, a) :: Holds(x.queue, ItemsOf(x.queue, a)[n]);
    assert ItemsOf(x.pending, a) == map[tx.nonce := tx];
    assert ItemsOf(x.queue, a) == map[];
  }

  /** Submits one transaction to a new pool, where it becomes pending. */
  method WithOne(config: Config, world: World, tx: Tx) returns (pool: TxPool)
    requires config.globalSlots > 0 && Passes(tx, false, Rules(world, {}, 1, true)) && tx.sender.Some?
    requires tx.nonce == world.Nonce(tx.From()) && tx.nonce < MAX_UINT64
    ensures fresh(pool) && fresh(pool.priced) && pool.Valid() && pool.config == config && pool.world == world
    ensures pool.all == {tx} && pool.locals == {} && pool.Judging() == Rules(world, {}, 1, true)
    ensures PairOf(pool.Now(), tx.From()) == Pair(map[tx.nonce := tx], map[])
    ensures pool.PendingNonce(tx.From()) == tx.nonce + 1
  {
    hide Passes, Grounds, Batched, Crowded, OutbidBy, Cheapest, PairOf, AllPlaced, LimitedTo;
    pool := new TxPool(config, 1, world, true);
    ghost var rules := pool.Judging();
    ghost var full := pool.Worst(tx, pool.all);
    var err, _ := pool.AddTx(tx, false, EVERYONE);
    if err.Some? {
      NoGrounds(err.value, tx, rules, {}, full, config.priceBump);
      assert false;
    }
    pool.PoolApart(tx.From(), EVERYONE);
    OnlyOne(pool.all, pool.Now(), tx);
    RunOf(pool.Now(), world, tx);
  }

  lemma RunOf(x: Slots, world: World, tx: Tx)
    requires AllPlaced(x, world, EVERYONE) && PairOf(x, tx.From()) == Pair(map[tx.nonce := tx], map[])
    ensures x.Nonce(world, tx.From()) == tx.nonce + 1
  {
    var a := tx.From();
    assert PlacedIn(x, world, a, EVERYONE);
    var v := x.Nonce(world, a);
    assert tx.nonce in ItemsOf(x.pending, a);
    assert v - 1 in ItemsOf(x.pending, a);
  }

  /** Nonce two of an account is pending when a head brings nonce zero back, and nonce one not.  The gap between them
      is not one in front, which is all that the demotion looks for, and the account ends out of order. */
  method GapAppears() returns (pool: TxPool)
    ensures fresh(pool) && pool.world.Nonce(7) == 0 && !pool.OrderedAt(7)
    ensures pool.all <= {Transfer(7, 0, 1), Transfer(7, 2, 1)}
  {
    hide Passes, Batched, Crowded, OutbidBy, Turned, Straights, Judged, LimitedTo, Found, Capped, Rejoins, Brought,
        PairOf, Payable;
    var config := Config(10, 16, 4096, 64, 1024);
    var t0, t2 := Transfer(7, 0, 1), Transfer(7, 2, 1);
    var before, after := World(map[7 := 2], map[7 := 21000], 21000), World(map[], map[7 := 21000], 21000);
    TransferPasses(7, 2, 1, Rules(before, {}, 1, true));
    pool := WithOne(config, before, t2);
    var _, r, _, _ := pool.Reset(after, false, [t0], EVERYONE);
    GapStays(t0, t2, Rules(after, {}, 1, true));
  }

  lemma GapStays(t0: Tx, t2: Tx, rules: Rules)
    requires t0 == Transfer(7, 0, 1) && t2 == Transfer(7, 2, 1)
    requires rules == Rules(World(map[], map[7 := 21000], 21000), {}, 1, true)
    ensures var l := Brought(Pair(map[2 := t2], map[]), [t0], 7, false, rules, 10);
            !Rejoins(l.pending, 2, 3, Payable(l.queue, 7, rules.world).Keys, 7, rules.world)
  {
    hide Passes;
    TransferPasses(7, 0, 1, rules);
    var l0 := Pair(map[2 := t2], map[]);
    var l := Brought(l0, [t0], 7, false, rules, 10);
    assert [t0][..0] == [] && Brought(l0, [], 7, false, rules, 10) == l0;
    assert l == TakeIn(l0, t0, 7, false, rules, 10);
    assert l == Pair(map[2 := t2], map[0 := t0]);
    assert Payable(l.queue, 7, rules.world).Keys == {0};
    assert {0} - {0} == {};
    assert RunEnd({0}, 0) == 1;
  }

  /** A full pool has one pending transaction of an account, which the new state has gone past, when the head brings
      back a dearer one of another.  The first is dropped, and the virtual nonce falls behind that of the state. */
  method NonceFallsBehind() returns (pool: TxPool)
    ensures fresh(pool) && pool.PendingNonce(7) < pool.world.Nonce(7)
  {
    hide Passes, Batched, Crowded, OutbidBy, Turned, Straights, Judged, LimitedTo, Found, Capped, Rejoins, Brought,
        Payable, Unforgotten, Sends, TakenOf, TxSet;
    var config := Config(10, 16, 1, 64, 0);
    var t, u := Transfer(7, 0, 1), Transfer(8, 0, 5);
    var before := World(map[], map[7 := 21000, 8 := 105000], 21000);
    var after := before.(nonces := map[7 := 1]);
    ghost var rules := Rules(after, {}, 1, true);
    TransferPasses(7, 0, 1, Rules(before, {}, 1, true));
    TransferPasses(8, 0, 5, rules);
    pool := WithOne(config, before, t);
    ghost var x := Slots(pool.pending, pool.queue, map[]);
    var errs, r, turn, _ := pool.Reset(after, false, [u], EVERYONE);
    Accepted(t, u, errs, rules, config.priceBump);
    Ousted(t, u, x, r, turn.before, rules, config);
    Lost(map[0 := t], ItemsOf(turn.before.pending, 7));
  }

  lemma Lost(p: Items, p': Items)
    requires 0 in p && 0 !in p'
    ensures !Unforgotten(p, p', 1)
  {}

  /** A dearer transaction is accepted by a full pool of one. */
  lemma Accepted(t: Tx, u: Tx, errs: seq<Option<Error>>, rules: Rules, bump: nat)
    requires Passes(u, false, rules) && t.From() != u.From() && t.price < u.price
    requires |errs| == 1 && Judged([u], errs, false, rules, {t}, 1, bump)
    ensures errs[0] == None && TakenOf([u], errs) == [u]
  {
    hide Passes, Grounds;
    if errs[0].Some? {
      assert Refused(errs[0].value, [u], errs, 0, false, rules, {t}, 1, bump);
      assert Before({t}, [u], errs, 0) == {t};
      NotOutpriced(t, u, rules.locals);
      NoGrounds(errs[0].value, u, rules, {t}, Outpriced(u, rules.locals, {t}, 1), bump);
    }
  }

  lemma NotOutpriced(t: Tx, u: Tx, locals: set<Address>)
    requires t.price < u.price
    ensures !Outpriced(u, locals, {t}, 1)
  {
    forall s: set<Tx> | s <= {t} && |s| >= 1 ensures exists x :: x in s && x.price < u.price {
      var x :| x in s;
    }
  }

  lemma TwoAtLeast(s: set<Tx>, t: Tx, u: Tx)
    requires t in s && u in s && t != u
    ensures |s| >= 2
  {
    assert s == {t, u} + (s - {t, u});
  }

  lemma OneFound(t: Tx, u: Tx, start: Slots)
    requires t.From() != u.From() && start.Has(u) && LimitedTo(Found(start, {t} + TxSet([u])), {}, 1)
    ensures !start.Has(t)
  {
    hide Holds;
    var found := Found(start, {t} + TxSet([u]));
    assert u in TxSet([u]) && u in found;
    if t in found {
      TwoAtLeast(found, t, u);
    }
  }

  /** Then the one that it had is gone before the demotion. */
  lemma Ousted(t: Tx, u: Tx, x: Slots, r: Batch, b: Slots, rules: Rules, c: Config)
    requires t.From() != u.From() && t.sender.Some? && r.taken == [u] && r.start.Has(u) && c.globalSlots == 1
    requires t.nonce < rules.world.Nonce(t.From()) && rules.locals == {}
    requires LimitedTo(Found(r.start, {t} + TxSet(r.taken)), {}, 1) && Batched(x, {t}, 1, r, b, rules.world, {}, c)
    ensures !Sends(r.taken, t.From()) && t.nonce !in ItemsOf(b.pending, t.From())
  {
    hide Filled, Sound, OutbidBy, ProcessedAll, Capped, Total, LimitedTo, Found, Payable, Within, TxSet, IsLowest,
        ReadyTo, NonceAfter;
    var a := t.From();
    OneFound(t, u, r.start);
    SlotFree(t, u, r.start);
    if r.accounts != [] {
      ProcessedHere(r.start, r.mid, rules.world, r.accounts, {}, c.accountQueue, a);
      PayableSound(ItemsOf(r.start.queue, a), a, rules.world);
      CappedWithin(r.mid, b.pending, b.queue, {}, c);
      FewerPending(r.mid.pending, b.pending, a, t.nonce);
    }
  }

  lemma SlotFree(t: Tx, u: Tx, start: Slots)
    requires ListsOk(start.pending, true) && !start.Has(t) && t.From() != u.From()
    requires forall x | start.Has(x) :: x in {t} || x in [u]
    ensures t.nonce !in ItemsOf(start.pending, t.From())
  {
    assert forall n | n in ItemsOf(start.pending, t.From()) :: start.Has(ItemsOf(start.pending, t.From())[n]);
  }

  lemma FewerPending(m: Lists, m': Lists, a: Address, n: nat)
    requires Within(m, m') && n !in ItemsOf(m, a)
    ensures n !in ItemsOf(m', a)
  {}
}
