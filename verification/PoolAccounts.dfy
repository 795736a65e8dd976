/** The pool's per-account maps as values, and what each pool step does to the slots of one account. */
module PoolAccounts {
  import opened Transactions
  import opened Nonces
  import opened ListModel
  import L = TxLists
  import E = Equalisation

  type Lists = map<Address, List>

  /** The limits of a pool. */
  datatype Config = Config(priceBump: nat, accountSlots: nat, globalSlots: nat, accountQueue: nat, globalQueue: nat)

  /** The chain state the pool validates against. */
  datatype World = World(nonces: map<Address, uint64>, balances: map<Address, nat>, maxGas: uint64)
  {
    function Nonce(a: Address): uint64 {
      if a in nonces then nonces[a] else 0
    }

    function Balance(a: Address): nat {
      if a in balances then balances[a] else 0
    }

    predicate Affords(tx: Tx) {
      tx.Cost() <= Balance(tx.From()) && tx.gas <= maxGas
    }
  }

  /** The nonce a managed state reports: the managed one if there is one, else that of the state. */
  function VirtualNonce(managed: map<Address, nat>, world: World, a: Address): nat {
    if a in managed then managed[a] else world.Nonce(a)
  }

  function Get(m: Lists, a: Address, strict: bool): List {
    if a in m then m[a] else NewList(strict)
  }

  function ItemsOf(m: Lists, a: Address): Items {
    if a in m then m[a].items else map[]
  }

  /** Every transaction of `m` was sent by `a` and has a nonce whose successor is representable. */
  ghost predicate Owned(m: Items, a: Address) {
    forall n | n in m :: m[n].sender == Some(a) && m[n].nonce < MAX_UINT64
  }

  ghost predicate ListOk(l: List, a: Address, strict: bool) {
    l.strict == strict && Bounded(l) && Owned(l.items, a)
  }

  ghost predicate ListsOk(m: Lists, strict: bool) {
    forall a | a in m :: ListOk(m[a], a, strict)
  }

  predicate In(m: Items, tx: Tx) {
    tx.nonce in m && m[tx.nonce] == tx
  }

  /** `tx` sits in its sender's list. */
  predicate Holds(m: Lists, tx: Tx) {
    In(ItemsOf(m, tx.From()), tx)
  }

  /** The known transactions are exactly those in the pending and the queued lists. */
  ghost predicate Partition(all: set<Tx>, pending: Lists, queue: Lists) {
    forall tx :: tx in all <==> Holds(pending, tx) || Holds(queue, tx)
  }

  /** Pending nonces run without a gap from the state nonce to the virtual nonce; queued nonces are
      not below the latter. */
  ghost predicate Ordered(pending: Items, queued: Items, lo: nat, hi: nat) {
    GapFree(pending, lo, hi) && forall n | n in queued :: hi <= n
  }

  /** Where an account is in order its lists are `Ordered`; where it is not, no nonce is in both of them. */
  ghost predicate Placed(pending: Items, queued: Items, lo: nat, hi: nat, good: bool) {
    if good then Ordered(pending, queued, lo, hi) else pending.Keys !! queued.Keys
  }

  ghost const EVERYONE: iset<Address> := iset a: Address | true

  /** The account has the same in both. */
  ghost predicate SameAt(m: Lists, m': Lists, a: Address) {
    (a in m <==> a in m') && (a in m ==> m[a] == m'[a])
  }

  /** `m` and `m'` differ at most at `a`. */
  ghost predicate SameBut(m: Lists, m': Lists, a: Address) {
    forall b | b != a :: (b in m <==> b in m') && (b in m ==> m[b] == m'[b])
  }

  /** Virtual nonces differ at most at `a`. */
  ghost predicate NoncesBut(m: map<Address, nat>, m': map<Address, nat>, world: World, a: Address) {
    forall b | b != a :: VirtualNonce(m, world, b) == VirtualNonce(m', world, b)
  }

  lemma SameButOne(m: Lists, a: Address, l: List)
    ensures SameBut(m, m[a := l], a)
  {}

  lemma SameButSelf(m: Lists, a: Address)
    ensures SameBut(m, m, a)
  {}

  lemma ApartKeys(p: Lists, q: Lists, a: Address)
    ensures Apart(p, q, a) <==> ItemsOf(p, a).Keys !! ItemsOf(q, a).Keys
  {}

  lemma SameElsewhere(m: Lists, m': Lists, a: Address, b: Address)
    requires SameBut(m, m', a) && b != a
    ensures SameAt(m, m', b) && ItemsOf(m, b) == ItemsOf(m', b)
  {}

  lemma PlacedApart(p: Lists, q: Lists, a: Address, lo: nat, hi: nat, good: bool)
    requires Placed(ItemsOf(p, a), ItemsOf(q, a), lo, hi, good)
    ensures Apart(p, q, a)
  {}

  /** The lists and the managed nonces of a pool. */
  datatype Slots = Slots(pending: Lists, queue: Lists, managed: map<Address, nat>)
  {
    function Nonce(world: World, a: Address): nat {
      VirtualNonce(managed, world, a)
    }

    predicate Has(tx: Tx) {
      Holds(pending, tx) || Holds(queue, tx)
    }
  }

  /** The account is in order if it is one of the good ones, and else its two lists have no nonce in common. */
  ghost predicate PlacedIn(x: Slots, world: World, a: Address, good: iset<Address>) {
    Placed(ItemsOf(x.pending, a), ItemsOf(x.queue, a), world.Nonce(a), x.Nonce(world, a), a in good)
  }

  ghost predicate AllPlaced(x: Slots, world: World, good: iset<Address>) {
    forall a :: PlacedIn(x, world, a, good)
  }

  lemma OnePlaced(x: Slots, world: World, a: Address, good: iset<Address>)
    requires AllPlaced(x, world, good)
    ensures PlacedIn(x, world, a, good) && Apart(x.pending, x.queue, a)
  {
    assert PlacedIn(x, world, a, good);
    PlacedApart(x.pending, x.queue, a, world.Nonce(a), x.Nonce(world, a), a in good);
  }

  /** What is in order for some accounts is so for fewer. */
  lemma FewerInOrder(x: Slots, world: World, good: iset<Address>, fewer: iset<Address>)
    requires AllPlaced(x, world, good)
    ensures fewer <= good ==> AllPlaced(x, world, fewer)
  {
    if fewer <= good {
      forall a ensures PlacedIn(x, world, a, fewer) {
        OnePlaced(x, world, a, good);
      }
    }
  }

  /** A step on one account keeps the order of the others. */
  lemma OthersPlaced(x: Slots, y: Slots, world: World, a: Address, good: iset<Address>)
    requires AllPlaced(x, world, good) && PlacedIn(y, world, a, good)
    requires SameBut(x.pending, y.pending, a) && SameBut(x.queue, y.queue, a)
    requires NoncesBut(x.managed, y.managed, world, a)
    ensures AllPlaced(y, world, good)
  {
    hide Placed, VirtualNonce;
    forall b ensures PlacedIn(y, world, b, good) {
      assert PlacedIn(x, world, b, good);
      if b != a {
        SameElsewhere(x.pending, y.pending, a, b);
        SameElsewhere(x.queue, y.queue, a, b);
      }
    }
  }

  /** A smaller queue, or a pending list with the same nonces, is as well placed. */
  lemma PlacedSub(p: Items, q: Items, p': Items, q': Items, lo: nat, hi: nat, good: bool)
    requires Placed(p, q, lo, hi, good) && p'.Keys == p.Keys && q'.Keys <= q.Keys
    ensures Placed(p', q', lo, hi, good)
  {
    assert forall n :: n in p' <==> n in p'.Keys;
    assert forall n | n in q' :: n in q'.Keys;
  }

  /** So is a queue with another nonce that is not pending. */
  lemma PlacedMore(p: Items, q: Items, q': Items, lo: nat, hi: nat, good: bool, n: nat)
    requires Placed(p, q, lo, hi, good) && lo <= n && n !in p && q'.Keys == q.Keys + {n}
    ensures Placed(p, q', lo, hi, good)
  {
    assert forall k | k in q' :: k in q'.Keys;
  }

  /** One account's list becomes `l`; an empty list is dropped from the map. */
  function Put(m: Lists, a: Address, l: List): Lists {
    if l.items.Keys == {} then m - {a} else m[a := l]
  }

  lemma PutItems(m: Lists, a: Address, l: List)
    ensures ItemsOf(Put(m, a, l), a) == l.items && SameBut(m, Put(m, a, l), a)
  {}

  lemma PutOk(m: Lists, a: Address, l: List, strict: bool)
    requires ListsOk(m, strict) && ListOk(l, a, strict)
    ensures ListsOk(Put(m, a, l), strict) && ListsOk(m[a := l], strict)
  {}

  lemma GetOk(m: Lists, a: Address, strict: bool)
    requires ListsOk(m, strict)
    ensures ListOk(Get(m, a, strict), a, strict) && Get(m, a, strict).items == ItemsOf(m, a)
  {}

  lemma SubOk(l: List, a: Address, strict: bool, items: Items)
    requires ListOk(l, a, strict)
    requires items.Keys <= l.items.Keys && forall n | n in items :: items[n] == l.items[n]
    ensures ListOk(l.(items := items), a, strict)
  {}

  lemma AddOk(l: List, a: Address, strict: bool, tx: Tx, bump: nat)
    requires ListOk(l, a, strict) && tx.sender == Some(a) && tx.nonce < MAX_UINT64
    ensures ListOk(Add(l, tx, bump).list, a, strict)
  {}

  lemma FilterOk(l: List, a: Address, strict: bool, cost: int, gas: nat)
    requires ListOk(l, a, strict)
    ensures ListOk(Filter(l, cost, gas).list, a, strict)
  {
    FilterIsScan(l, cost, gas);
  }

  // ---- how the known transactions follow the lists of one account ----

  /** When the slots of one account lose `gone` and otherwise only move between its two lists, the
      known transactions must lose `gone` as well. */
  lemma PartitionMoves(all: set<Tx>, p: Lists, q: Lists, p': Lists, q': Lists, a: Address, all': set<Tx>)
    requires Partition(all, p, q) && SameBut(p, p', a) && SameBut(q, q', a)
    requires forall tx: Tx | tx.From() != a :: tx in all' <==> tx in all
    requires forall tx: Tx | tx.From() == a :: tx in all' <==> Holds(p', tx) || Holds(q', tx)
    ensures Partition(all', p', q')
  {}

  /** A free nonce takes a transaction without conflict. */
  lemma AddFree(m: Lists, a: Address, strict: bool, tx: Tx, bump: nat)
    requires ListsOk(m, strict) && tx.sender == Some(a) && tx.nonce < MAX_UINT64 && tx.nonce !in ItemsOf(m, a)
    ensures var r := Add(Get(m, a, strict), tx, bump);
            && r.inserted && r.replaced == None
            && ListsOk(m[a := r.list], strict) && SameBut(m, m[a := r.list], a)
            && ItemsOf(m[a := r.list], a) == ItemsOf(m, a)[tx.nonce := tx]
  {
    GetOk(m, a, strict);
    AddOk(Get(m, a, strict), a, strict, tx, bump);
  }

  /** The part of `m` that the first `i` transactions of a listing cover. */
  ghost function PartOf(m: Items, txs: seq<Tx>, i: nat): Items
    requires i <= |txs|
  {
    map n | n in m && m[n] in txs[..i] :: m[n]
  }

  ghost function Grown(base: Items, m: Items, txs: seq<Tx>, i: nat): Items
    requires i <= |txs|
  {
    base + PartOf(m, txs, i)
  }

  lemma PartSnoc(m: Items, txs: seq<Tx>, i: nat)
    requires L.Lists(txs, m) && WellKeyed(m) && i < |txs|
    ensures var n := txs[i].nonce;
            && n in m && m[n] == txs[i] && n !in PartOf(m, txs, i)
            && PartOf(m, txs, i + 1) == PartOf(m, txs, i)[n := txs[i]]
  {
    var n := txs[i].nonce;
    assert n in m && m[n] == txs[i] && txs[i] !in txs[..i];
    assert forall t :: t in txs[..i + 1] <==> t in txs[..i] || t == txs[i];
    assert forall k | k in m && m[k] == txs[i] :: k == n;
  }

  lemma GrownSnoc(base: Items, m: Items, a: Address, txs: seq<Tx>, i: nat)
    requires L.Lists(txs, m) && WellKeyed(m) && Owned(m, a) && i < |txs| && m.Keys !! base.Keys
    ensures txs[i].sender == Some(a) && txs[i].nonce < MAX_UINT64
    ensures txs[i].nonce in m && m[txs[i].nonce] == txs[i] && txs[i].nonce !in Grown(base, m, txs, i)
    ensures Grown(base, m, txs, i + 1) == Grown(base, m, txs, i)[txs[i].nonce := txs[i]]
  {
    hide L.Lists, WellKeyed, PartOf;
    PartSnoc(m, txs, i);
    assert txs[i].nonce in m.Keys;
  }

  lemma GrownEnds(base: Items, m: Items, txs: seq<Tx>)
    requires L.Lists(txs, m)
    ensures Grown(base, m, txs, 0) == base && Grown(base, m, txs, |txs|) == base + m
  {}

  // ---- removal of one transaction ----

  /** Removing a pending transaction leaves the lower nonces pending and sends the higher ones to the
      queue. */
  lemma RemovePending(all: set<Tx>, p: Lists, q: Lists, q': Lists, tx: Tx, a: Address)
    requires ListsOk(p, true) && Partition(all, p, q) && a == tx.From() && Apart(p, q, a)
    requires tx in all && tx.nonce in ItemsOf(p, a)
    requires SameBut(q, q', a) && ItemsOf(q', a) == ItemsOf(q, a) + Remove(p[a], tx.nonce).invalids
    ensures var p' := Put(p, a, Remove(p[a], tx.nonce).list);
            && ListsOk(p', true) && SameBut(p, p', a) && Apart(p', q', a)
            && ItemsOf(p', a) == Below(ItemsOf(p, a), tx.nonce)
            && ItemsOf(q', a) == ItemsOf(q, a) + AtLeast(ItemsOf(p, a), tx.nonce + 1)
            && Partition(all - {tx}, p', q')
  {
    hide ListsOk, ListOk, Owned, Bounded, Remove, Put, Sub;
    var l, r := p[a], Remove(p[a], tx.nonce);
    var p' := Put(p, a, r.list);
    RemovedList(p, tx.nonce, a);
    PutItems(p, a, r.list);
    PutOk(p, a, r.list, true);
    assert l.items[tx.nonce] == tx by { assert tx.nonce in ItemsOf(p, a).Keys; }
    forall t: Tx | t.From() == a ensures t in all - {tx} <==> Holds(p', t) || Holds(q', t) {
      assert t in all <==> Holds(p, t) || Holds(q, t);
      RemovedSlots(l, ItemsOf(q, a), tx.nonce, t);
    }
    PartitionMoves(all, p, q, p', q', a, all - {tx});
  }

  lemma RemovedList(p: Lists, nonce: nat, a: Address)
    requires ListsOk(p, true) && a in p && nonce in p[a].items
    ensures p[a].strict && WellKeyed(p[a].items) && ListOk(Remove(p[a], nonce).list, a, true)
    ensures Remove(p[a], nonce).list.items == Below(p[a].items, nonce)
    ensures Remove(p[a], nonce).invalids == AtLeast(p[a].items, nonce + 1)
  {
    RemoveCuts(p[a], nonce);
    SubOk(p[a], a, true, Remove(p[a], nonce).list.items);
  }

  /** Where the account was in order it still is, with the virtual nonce at the removed one. */
  lemma RemovedOrdered(p: Items, q: Items, lo: nat, hi: nat, n: nat)
    requires Ordered(p, q, lo, hi) && n in p
    ensures Ordered(Below(p, n), q + AtLeast(p, n + 1), lo, n) && n < hi
  {}

  lemma RemovedPlaced(p: Items, q: Items, p': Items, q': Items, lo: nat, hi: nat, hi': nat, good: bool, n: nat)
    requires Placed(p, q, lo, hi, good) && n in p && p'.Keys !! q'.Keys
    requires p' == Below(p, n) && q' == q + AtLeast(p, n + 1) && hi' == if hi > n then n else hi
    ensures Placed(p', q', lo, hi', good)
  {
    if good {
      RemovedOrdered(p, q, lo, hi, n);
    }
  }

  lemma HeldKnown(all: set<Tx>, p: Lists, q: Lists, tx: Tx)
    requires Partition(all, p, q)
    ensures Holds(p, tx) || Holds(q, tx) <==> tx in all
  {}

  /** The nonce tells in which of the two lists a known transaction is. */
  lemma Whereabouts(all: set<Tx>, p: Lists, q: Lists, tx: Tx, a: Address)
    requires Partition(all, p, q) && a == tx.From() && tx in all && Apart(p, q, a)
    ensures Holds(p, tx) <==> a in p && Remove(p[a], tx.nonce).found
    ensures Holds(q, tx) <==> !Holds(p, tx)
    ensures Holds(p, tx) <==> tx.nonce in ItemsOf(p, a)
    ensures Holds(q, tx) ==> a in q
  {
    assert tx.nonce in ItemsOf(p, a).Keys <==> tx.nonce in ItemsOf(p, a);
    assert tx.nonce in ItemsOf(q, a).Keys <==> tx.nonce in ItemsOf(q, a);
  }

  /** What `RemovePending` needs of the transactions it postpones. */
  lemma InvalidsFree(all: set<Tx>, p: Lists, q: Lists, tx: Tx, a: Address)
    requires ListsOk(p, true) && Partition(all, p, q) && a == tx.From() && Apart(p, q, a)
    requires tx.nonce in ItemsOf(p, a)
    ensures var m := Remove(p[a], tx.nonce).invalids;
            && WellKeyed(m) && Owned(m, a) && m.Keys !! ItemsOf(q, a).Keys && m == AtLeast(p[a].items, tx.nonce + 1)
            && forall n | n in m :: m[n] in all - {tx}
  {
    GetOk(p, a, true);
    RemoveCuts(p[a], tx.nonce);
    forall n | n in Remove(p[a], tx.nonce).invalids ensures p[a].items[n] in all {
      assert Holds(p, p[a].items[n]);
    }
  }

  /** Where a transaction of the account is after the removal of a pending nonce. */
  lemma RemovedSlots(l: List, q: Items, nonce: nat, t: Tx)
    requires l.strict && WellKeyed(l.items) && nonce in l.items && q.Keys !! l.items.Keys
    ensures var r := Remove(l, nonce);
            In(r.list.items, t) || In(q + r.invalids, t) <==>
            (In(l.items, t) || In(q, t)) && !(In(l.items, t) && t.nonce == nonce)
  {}

  lemma RemoveQueued(all: set<Tx>, p: Lists, q: Lists, tx: Tx, a: Address)
    requires ListsOk(q, false) && Partition(all, p, q) && a == tx.From() && tx in all && tx.nonce !in ItemsOf(p, a)
    ensures a in q
    ensures var q' := Put(q, a, Remove(q[a], tx.nonce).list);
            && ListsOk(q', false) && SameBut(q, q', a) && ItemsOf(q', a) == ItemsOf(q, a) - {tx.nonce}
            && Partition(all - {tx}, p, q')
  {
    assert Holds(q, tx);
    var l, r := q[a], Remove(q[a], tx.nonce);
    var q' := Put(q, a, r.list);
    GetOk(q, a, false);
    PutItems(q, a, r.list);
    SubOk(l, a, false, r.list.items);
    PutOk(q, a, r.list, false);
    forall t: Tx | t.From() == a ensures t in all - {tx} <==> Holds(p, t) || Holds(q', t) {
      assert t in all <==> Holds(p, t) || Holds(q, t);
    }
    PartitionMoves(all, p, q, p, q', a, all - {tx});
  }

  // ---- insertion of one transaction ----

  /** The known transactions after `tx` took its slot in one list, over `replaced` if there was one. */
  function Replace(all: set<Tx>, replaced: Option<Tx>, tx: Tx): set<Tx> {
    (if replaced.Some? then all - {replaced.value} else all) + {tx}
  }

  /** An insertion in one of the two lists of an account, at a nonce that is free in the other. */
  lemma InsertSlot(all: set<Tx>, m: Lists, o: Lists, a: Address, tx: Tx, bump: nat, strict: bool)
    requires ListsOk(m, strict) && Partition(all, m, o)
    requires tx.sender == Some(a) && tx.nonce < MAX_UINT64 && tx.nonce !in ItemsOf(o, a)
    requires Add(Get(m, a, strict), tx, bump).inserted
    ensures var r := Add(Get(m, a, strict), tx, bump);
            var m' := m[a := r.list];
            && ListsOk(m', strict) && SameBut(m, m', a)
            && ItemsOf(m', a) == ItemsOf(m, a)[tx.nonce := tx]
            && Partition(Replace(all, r.replaced, tx), m', o)
            && (r.replaced.Some? <==> tx.nonce in ItemsOf(m, a))
            && (r.replaced.Some? ==>
                  var x := r.replaced.value; x in all && x.From() == a && x.nonce == tx.nonce && Outbids(tx, x, bump))
  {
    var r := Add(Get(m, a, strict), tx, bump);
    var m' := m[a := r.list];
    GetOk(m, a, strict);
    AddOk(Get(m, a, strict), a, strict, tx, bump);
    PutOk(m, a, r.list, strict);
    if r.replaced.Some? {
      assert Holds(m, r.replaced.value);
    }
    var all' := Replace(all, r.replaced, tx);
    forall t: Tx | t.From() == a ensures t in all' <==> Holds(m', t) || Holds(o, t) {
      assert t in all <==> Holds(m, t) || Holds(o, t);
    }
    PartitionMoves(all, m, o, m', o, a, all');
  }

  /** `tx` has taken its slot: over a pending transaction with the same nonce, else in the queue. */
  ghost predicate Slotted(x: Slots, y: Slots, tx: Tx) {
    var a := tx.From();
    && SameBut(x.pending, y.pending, a) && SameBut(x.queue, y.queue, a) && y.managed == x.managed
    && if tx.nonce in ItemsOf(x.pending, a) then
         ItemsOf(y.pending, a) == ItemsOf(x.pending, a)[tx.nonce := tx] && y.queue == x.queue
       else y.pending == x.pending && ItemsOf(y.queue, a) == ItemsOf(x.queue, a)[tx.nonce := tx]
  }

  lemma SlotQueued(x: Slots, y: Slots, tx: Tx)
    requires Slotted(x, y, tx) && tx.nonce !in ItemsOf(x.pending, tx.From())
    ensures ItemsOf(y.queue, tx.From()) == ItemsOf(x.queue, tx.From())[tx.nonce := tx]
    ensures y.pending == x.pending && y.managed == x.managed
  {}

  lemma PartitionSwap(all: set<Tx>, p: Lists, q: Lists)
    requires Partition(all, p, q)
    ensures Partition(all, q, p)
  {}

  /** Known transactions carry a recovered sender and a nonce with a representable successor. */
  lemma KnownOwned(all: set<Tx>, p: Lists, q: Lists)
    requires ListsOk(p, true) && ListsOk(q, false) && Partition(all, p, q)
    ensures forall tx | tx in all :: tx.sender == Some(tx.From()) && tx.nonce < MAX_UINT64
  {}

  /** A replacement in the pending list. */
  lemma ReplaceFacts(all: set<Tx>, p: Lists, q: Lists, tx: Tx, bump: nat)
    requires ListsOk(p, true) && Partition(all, p, q) && tx.sender.Some? && tx.nonce < MAX_UINT64
    requires Apart(p, q, tx.From()) && tx.nonce in ItemsOf(p, tx.From())
    ensures var a := tx.From();
            var r := Add(p[a], tx, bump);
            && (!r.inserted ==> p[a].items[tx.nonce].nonce == tx.nonce && p[a].items[tx.nonce] in all
                                && p[a].items[tx.nonce].From() == a && !Outbids(tx, p[a].items[tx.nonce], bump))
            && (r.inserted ==>
                  && r.replaced.Some? && r.replaced.value in all && r.replaced.value.From() == a
                  && r.replaced.value.nonce == tx.nonce && Outbids(tx, r.replaced.value, bump)
                  && ListsOk(p[a := r.list], true) && SameBut(p, p[a := r.list], a)
                  && ItemsOf(p[a := r.list], a) == ItemsOf(p, a)[tx.nonce := tx]
                  && Partition(Replace(all, r.replaced, tx), p[a := r.list], q))
  {
    var a := tx.From();
    GetOk(p, a, true);
    assert Holds(p, p[a].items[tx.nonce]);
    assert tx.nonce in ItemsOf(p, a).Keys;
    if Add(p[a], tx, bump).inserted {
      InsertSlot(all, p, q, a, tx, bump, true);
    }
  }

  /** An insertion in the queue of an account whose pending list does not have the nonce. */
  lemma EnqueueFacts(all: set<Tx>, p: Lists, q: Lists, tx: Tx, bump: nat)
    requires ListsOk(q, false) && Partition(all, p, q) && tx.sender.Some? && tx.nonce < MAX_UINT64
    requires tx.nonce !in ItemsOf(p, tx.From())
    ensures var a := tx.From();
            var r := Add(Get(q, a, false), tx, bump);
            && (!r.inserted ==> q[a := r.list] == q && tx.nonce in ItemsOf(q, a) && ItemsOf(q, a)[tx.nonce] in all
                                && ItemsOf(q, a)[tx.nonce].nonce == tx.nonce
                                && ItemsOf(q, a)[tx.nonce].From() == a && !Outbids(tx, ItemsOf(q, a)[tx.nonce], bump))
            && (r.inserted ==>
                  && (r.replaced.Some? ==>
                        && r.replaced.value in all && r.replaced.value.From() == a
                        && r.replaced.value.nonce == tx.nonce && Outbids(tx, r.replaced.value, bump))
                  && (r.replaced.Some? <==> tx.nonce in ItemsOf(q, a))
                  && ListsOk(q[a := r.list], false) && SameBut(q, q[a := r.list], a)
                  && ItemsOf(q[a := r.list], a) == ItemsOf(q, a)[tx.nonce := tx]
                  && Partition(Replace(all, r.replaced, tx), p, q[a := r.list]))
  {
    var a := tx.From();
    GetOk(q, a, false);
    var r := Add(Get(q, a, false), tx, bump);
    if r.inserted {
      PartitionSwap(all, p, q);
      InsertSlot(all, q, p, a, tx, bump, false);
      PartitionSwap(Replace(all, r.replaced, tx), q[a := r.list], p);
    } else {
      assert Holds(q, ItemsOf(q, a)[tx.nonce]);
    }
  }

  // ---- lists that lose or exchange transactions ----

  /** `r` is a part of `m`. */
  ghost predicate Sub(r: Items, m: Items) {
    r.Keys <= m.Keys && forall n | n in r :: r[n] == m[n]
  }

  ghost predicate Apart(p: Lists, q: Lists, a: Address) {
    ItemsOf(p, a).Keys !! ItemsOf(q, a).Keys
  }

  /** One list of an account loses transactions, and so do the known ones. */
  lemma Shrink(all: set<Tx>, m: Lists, o: Lists, a: Address, l: List, drops: seq<Tx>, strict: bool)
    requires ListsOk(m, strict) && Partition(all, m, o) && Apart(m, o, a)
    requires a in m && ListOk(l, a, strict) && Sub(l.items, m[a].items)
    requires L.Lists(drops, m[a].items - l.items.Keys)
    ensures ListsOk(m[a := l], strict) && SameBut(m, m[a := l], a)
    ensures Partition(all - (set tx | tx in drops), m[a := l], o)
  {
    var m', all' := m[a := l], all - (set tx | tx in drops);
    GetOk(m, a, strict);
    forall t: Tx ensures t in drops <==> In(m[a].items - l.items.Keys, t) {
    }
    forall t: Tx | t.From() == a ensures t in all' <==> Holds(m', t) || Holds(o, t) {
      assert t in all <==> Holds(m, t) || Holds(o, t);
    }
    forall t: Tx | t.From() != a ensures t in all' <==> t in all {
      assert t !in drops;
    }
    PartitionMoves(all, m, o, m', o, a, all');
  }

  lemma KeyedRest(m: Lists, a: Address, l: List, strict: bool)
    requires ListsOk(m, strict) && a in m
    ensures WellKeyed(m[a].items - l.items.Keys)
  {}

  /** An emptied list leaves the map. */
  lemma Tidy(all: set<Tx>, m: Lists, o: Lists, a: Address, strict: bool)
    requires ListsOk(m, strict) && Partition(all, m, o) && a in m && m[a].items.Keys == {}
    ensures ListsOk(m - {a}, strict) && Partition(all, m - {a}, o) && SameBut(m, m - {a}, a)
    ensures ItemsOf(m - {a}, a) == ItemsOf(m, a)
  {}

  /** A part of the queue moves to the pending list. */
  lemma Exchange(all: set<Tx>, p: Lists, q: Lists, p': Lists, a: Address, t: nat)
    requires ListsOk(q, false) && Partition(all, p, q) && Apart(p, q, a) && a in q
    requires SameBut(p, p', a) && ItemsOf(p', a) == ItemsOf(p, a) + Below(q[a].items, t)
    ensures var q' := q[a := Forward(q[a], t)];
            && ListsOk(q', false) && SameBut(q, q', a) && Partition(all, p', q') && Apart(p', q', a)
            && ItemsOf(q', a) == AtLeast(q[a].items, t)
  {
    var q' := q[a := Forward(q[a], t)];
    SubOk(q[a], a, false, AtLeast(q[a].items, t));
    forall x: Tx | x.From() == a ensures x in all <==> Holds(p', x) || Holds(q', x) {
      assert x in all <==> Holds(p, x) || Holds(q, x);
    }
    PartitionMoves(all, p, q, p', q', a, all);
  }

  /** Like `Ordered`, but the queue may also hold nonces the state has gone past. */
  ghost predicate Promotable(p: Items, q: Items, lo: nat, hi: nat) {
    GapFree(p, lo, hi) && forall n | n in q :: n < lo || hi <= n
  }

  /** Where the run that is ready ends, told by what is queued. */
  function ReadyTo(q: Items, start: nat): nat {
    if q.Keys == {} || Min(q.Keys) > start then 0 else RunEnd(q.Keys, Min(q.Keys))
  }

  /** The virtual nonce once the run has become pending. */
  function NonceAfter(q: Items, start: nat): nat {
    if ReadyTo(q, start) == 0 then start else ReadyTo(q, start)
  }

  /** In a queue above the virtual nonce the run that is ready starts there, and the pending run grows by it. */
  lemma ReadyFacts(p: Items, q: Items, lo: nat, hi: nat)
    requires Ordered(p, q, lo, hi)
    ensures NonceAfter(q, hi) == RunEnd(q.Keys, hi)
    ensures Below(q, ReadyTo(q, hi)) == Below(q, RunEnd(q.Keys, hi))
            && AtLeast(q, ReadyTo(q, hi)) == AtLeast(q, RunEnd(q.Keys, hi))
    ensures Ordered(p + Below(q, ReadyTo(q, hi)), AtLeast(q, ReadyTo(q, hi)), lo, NonceAfter(q, hi))
  {
    if hi in q {
      assert hi in q.Keys && Min(q.Keys) == hi;
    } else {
      assert forall n | n in q.Keys :: hi < n;
    }
  }

  /** The listing of a consecutive run ends just before its end. */
  lemma LastNonce(s: seq<Tx>, m: Items, lo: nat, hi: nat)
    requires SortedOf(s, m) && WellKeyed(m) && GapFree(m, lo, hi)
    ensures lo == hi ==> s == []
    ensures lo < hi ==> |s| > 0 && s[|s| - 1].nonce + 1 == hi
  {
    assert |s| > 0 ==> s[0].nonce in m;
    if lo < hi {
      assert m[hi - 1] in s;
    }
  }

  /** Everything `MoveReady` needs to know about the run it takes off the queue. */
  lemma RunFacts(all: set<Tx>, p: Lists, q: Lists, a: Address, start: nat)
    requires ListsOk(q, false) && Partition(all, p, q) && Apart(p, q, a) && a in q
    ensures var e := ReadyTo(q[a].items, start);
            var m := Below(q[a].items, e);
            && e == ReadyEnd(q[a], start)
            && WellKeyed(m) && Owned(m, a) && m.Keys !! ItemsOf(p, a).Keys && (forall n | n in m :: m[n] in all)
            && (e > 0 ==> Min(q[a].items.Keys) < e && GapFree(m, Min(q[a].items.Keys), e))
            && (e == 0 ==> m == map[])
  {
    forall n | n in q[a].items ensures q[a].items[n] in all {
      assert Holds(q, q[a].items[n]);
    }
  }

  /** The listing of the run that is ready ends just before its end. */
  lemma RunListed(txs: seq<Tx>, q: Items, start: nat)
    requires WellKeyed(q) && SortedOf(txs, Below(q, ReadyTo(q, start)))
    ensures ReadyTo(q, start) == 0 <==> txs == []
    ensures txs != [] ==> txs[|txs| - 1].nonce + 1 == ReadyTo(q, start)
  {
    hide SortedOf;
    var e := ReadyTo(q, start);
    var m := Below(q, e);
    if e > 0 {
      LastNonce(txs, m, Min(q.Keys), e);
    } else {
      LastNonce(txs, m, 0, 0);
    }
  }

  lemma ReadyPlaced(p: Items, q: Items, p': Items, q': Items, lo: nat, hi: nat, good: bool)
    requires Placed(p, q, lo, hi, good) && p'.Keys !! q'.Keys
    requires p' == p + Below(q, ReadyTo(q, hi)) && q' == AtLeast(q, ReadyTo(q, hi))
    ensures Placed(p', q', lo, NonceAfter(q, hi), good)
  {
    if good {
      ReadyFacts(p, q, lo, hi);
    }
  }

  /** The queued transactions that the state has not gone past and that are payable. */
  ghost function Payable(q: Items, a: Address, world: World): Items {
    map n | n in q && world.Nonce(a) <= n && !Exceeds(world.Balance(a), world.maxGas)(q[n]) :: q[n]
  }

  lemma ForwardFacts(q: Lists, a: Address, t: nat)
    requires ListsOk(q, false) && a in q
    ensures ListOk(Forward(q[a], t), a, false) && Sub(Forward(q[a], t).items, q[a].items)
  {}

  lemma PayableFacts(q: Lists, a: Address, world: World, was: Items)
    requires ListsOk(q, false) && a in q && q[a].items == AtLeast(was, world.Nonce(a))
    ensures var f := Filter(q[a], world.Balance(a), world.maxGas).list;
            ListOk(f, a, false) && Sub(f.items, q[a].items) && f.items == Payable(was, a, world)
  {
    FilterOk(q[a], a, false, world.Balance(a), world.maxGas);
    FilterIsScan(q[a], world.Balance(a), world.maxGas);
  }

  /** Like `Placed`, for an account whose queue has not been processed under the current state. */
  ghost predicate Unprocessed(p: Items, q: Items, lo: nat, hi: nat, good: bool) {
    if good then Promotable(p, q, lo, hi) else p.Keys !! q.Keys
  }

  lemma PayablePlaced(p: Items, q: Items, a: Address, world: World, hi: nat, good: bool)
    requires Unprocessed(p, q, world.Nonce(a), hi, good)
    ensures Placed(p, Payable(q, a, world), world.Nonce(a), hi, good)
    ensures p.Keys !! q.Keys && p.Keys !! AtLeast(q, world.Nonce(a)).Keys
  {}

  lemma UnprocessedApart(p: Lists, q: Lists, a: Address, lo: nat, hi: nat, good: bool)
    requires Unprocessed(ItemsOf(p, a), ItemsOf(q, a), lo, hi, good)
    ensures Apart(p, q, a)
  {}

  lemma PlacedUnprocessed(p: Items, q: Items, lo: nat, hi: nat, good: bool)
    requires Placed(p, q, lo, hi, good)
    ensures Unprocessed(p, q, lo, hi, good)
  {}

  /** An account without a queue has nothing to process. */
  lemma NoQueuePlaced(p: Items, lo: nat, hi: nat, good: bool)
    requires Unprocessed(p, map[], lo, hi, good)
    ensures Placed(p, map[], lo, hi, good)
  {}

  lemma LowFacts(q: Lists, a: Address, kept: Items, k: nat)
    requires ListsOk(q, false) && a in q && IsLowest(kept, q[a].items, k)
    ensures ListOk(q[a].(items := kept), a, false) && Sub(kept, q[a].items)
  {}

  /** What processing the queue of an account makes of its lists and its virtual nonce: stale and unpayable
      transactions go, the run that is ready becomes pending, and of the rest a remote account keeps the lowest. */
  ghost predicate Processed(p: Items, q: Items, v: nat, p': Items, q': Items, v': nat, a: Address, world: World,
                            local: bool, k: nat)
  {
    var payable := Payable(q, a, world);
    var e := ReadyTo(payable, v);
    && p' == p + Below(payable, e) && v' == NonceAfter(payable, v)
    && if local then q' == AtLeast(payable, e) else IsLowest(q', AtLeast(payable, e), k)
  }

  lemma NothingQueued(p: Items, v: nat, a: Address, world: World, local: bool, k: nat)
    ensures Processed(p, map[], v, p, map[], v, a, world, local, k)
  {
    assert Payable(map[], a, world).Keys == {};
  }

  lemma KeyedList(m: Lists, a: Address, strict: bool)
    requires ListsOk(m, strict) && a in m
    ensures WellKeyed(m[a].items)
  {}

  // ---- sizes ----

  function Len(m: Lists, a: Address): nat {
    |ItemsOf(m, a)|
  }

  /** The number of transactions in all lists together. */
  ghost function Total(m: Lists): nat
    decreases |m|
  {
    if m.Keys == {} then 0
    else
      var a :| a in m.Keys;
      assert (m - {a}).Keys == m.Keys - {a};
      |m[a].items| + Total(m - {a})
  }

  lemma TotalStep(m: Lists, a: Address) returns (b: Address)
    requires a in m
    ensures b in m && Total(m) == |m[b].items| + Total(m - {b})
  {
    assert m.Keys != {};
    b :| b in m.Keys && Total(m) == |m[b].items| + Total(m - {b});
  }

  lemma {:induction false} TotalSplit(m: Lists, a: Address)
    requires a in m
    ensures Total(m) == |m[a].items| + Total(m - {a})
    decreases |m|
  {
    hide Total;
    var b := TotalStep(m, a);
    if b != a {
      assert (m - {b}).Keys == m.Keys - {b};
      assert (m - {a}).Keys == m.Keys - {a};
      TotalSplit(m - {b}, a);
      TotalSplit(m - {a}, b);
      assert m - {a} - {b} == m - {b} - {a};
    }
  }

  lemma TotalUpdate(m: Lists, a: Address, l: List)
    requires a in m
    ensures Total(m[a := l]) == Total(m) - |m[a].items| + |l.items|
  {
    TotalSplit(m, a);
    TotalSplit(m[a := l], a);
    assert m[a := l] - {a} == m - {a};
  }

  /** The counting loop over a map of lists. */
  method Count(m: Lists) returns (n: nat)
    ensures n == Total(m)
  {
    n := 0;
    var left := m.Keys;
    ghost var rest := m;
    while left != {}
      invariant left <= m.Keys && rest == map a | a in m && a in left :: m[a]
      invariant n + Total(rest) == Total(m)
    {
      var a :| a in left;
      TotalSplit(rest, a);
      n, left, rest := n + |m[a].items|, left - {a}, rest - {a};
    }
    assert rest == map[];
  }

  /** Cutting the highest nonce off a pending list. */
  lemma CutFacts(p: Lists, a: Address, kept: Items)
    requires ListsOk(p, true) && a in p && |p[a].items| > 0 && IsLowest(kept, p[a].items, |p[a].items| - 1)
    ensures ListOk(p[a].(items := kept), a, true) && Sub(kept, p[a].items) && |kept| == |p[a].items| - 1
  {
    SubOk(p[a], a, true, kept);
  }

  /** Where the account is in order this is the one before the virtual nonce. */
  lemma CutOrdered(p: Items, q: Items, kept: Items, lo: nat, hi: nat)
    requires Ordered(p, q, lo, hi) && |p| > 0 && IsLowest(kept, p, |p| - 1)
    ensures lo < hi && Ordered(kept, q, lo, hi - 1) && hi - 1 in p - kept.Keys
    ensures forall n | n in p - kept.Keys :: n == hi - 1
  {
    GapFreeSize(p, lo, hi);
    LowestGapFree(p, kept, lo, hi, |p| - 1);
  }

  /** The highest nonce alone is what goes. */
  lemma CutTop(p: Items, kept: Items, drops: seq<Tx>) returns (n: nat)
    requires |p| > 0 && IsLowest(kept, p, |p| - 1) && WellKeyed(p) && L.Lists(drops, p - kept.Keys)
    ensures n in p && n !in kept && kept == Below(p, n) && drops != [] && forall d | d in drops :: d.nonce == n
  {
    assert |kept.Keys| == |p.Keys| - 1;
    n := OneGone(p.Keys, kept.Keys);
    assert n in p - kept.Keys && (p - kept.Keys)[n] in drops;
    forall d | d in drops ensures d.nonce == n {
      var i :| 0 <= i < |drops| && drops[i] == d;
      assert d.nonce in (p - kept.Keys).Keys;
    }
    assert forall k | k in p :: k in kept.Keys || k == n;
  }

  lemma OneGone(keys: set<nat>, kept: set<nat>) returns (n: nat)
    requires kept <= keys && |kept| == |keys| - 1
    ensures n !in kept && keys == kept + {n}
  {
    var gone := keys - kept;
    assert keys == gone + kept;
    n :| n in gone;
    assert |gone - {n}| == 0;
  }

  lemma CutPlaced(p: Items, q: Items, kept: Items, lo: nat, hi: nat, n: nat, good: bool)
    requires Placed(p, q, lo, hi, good) && |p| > 0 && IsLowest(kept, p, |p| - 1) && n in p && n !in kept
    ensures Placed(kept, q, lo, if hi > n then n else hi, good)
  {
    if good {
      CutOrdered(p, q, kept, lo, hi);
      assert n in p - kept.Keys;
    }
  }

  /** A pending list and its virtual nonce, cut at a nonce of the list. */
  ghost predicate CutDown(p: Items, v: nat, p': Items, v': nat, n: nat) {
    n in p && p' == Below(p, n) && v' == if v > n then n else v
  }

  /** A pending list and its virtual nonce are as they were, or cut at some nonce of the list. */
  ghost predicate Curtailed(p: Items, v: nat, p': Items, v': nat) {
    (p' == p && v' == v) || exists n: nat :: CutDown(p, v, p', v', n)
  }

  lemma CurtailedOn(p: Items, v: nat, p': Items, v': nat, p'': Items, v'': nat)
    requires Curtailed(p, v, p', v') && Curtailed(p', v', p'', v'')
    ensures Curtailed(p, v, p'', v'')
  {
    if !(p' == p && v' == v) && !(p'' == p' && v'' == v') {
      var n: nat :| CutDown(p, v, p', v', n);
      var m: nat :| CutDown(p', v', p'', v'', m);
      assert CutDown(p, v, p'', v'', m);
    }
  }

  ghost predicate CurtailedAt(x: Slots, y: Slots, world: World, a: Address) {
    Curtailed(ItemsOf(x.pending, a), x.Nonce(world, a), ItemsOf(y.pending, a), y.Nonce(world, a))
  }

  /** Every account's pending list is as it was or cut, and its virtual nonce with it. */
  ghost predicate AllCurtailed(x: Slots, y: Slots, world: World) {
    forall a :: CurtailedAt(x, y, world, a)
  }

  lemma CurtailedSame(x: Slots, y: Slots, world: World)
    requires y.pending == x.pending && y.managed == x.managed
    ensures AllCurtailed(x, y, world)
  {}

  lemma CurtailedThen(x: Slots, y: Slots, z: Slots, world: World, a: Address)
    requires CurtailedAt(x, y, world, a) && CurtailedAt(y, z, world, a)
    ensures CurtailedAt(x, z, world, a)
  {
    hide Curtailed;
    CurtailedOn(ItemsOf(x.pending, a), x.Nonce(world, a), ItemsOf(y.pending, a), y.Nonce(world, a),
        ItemsOf(z.pending, a), z.Nonce(world, a));
  }

  lemma AllCurtailedThen(x: Slots, y: Slots, z: Slots, world: World)
    requires AllCurtailed(x, y, world) && AllCurtailed(y, z, world)
    ensures AllCurtailed(x, z, world)
  {
    hide CurtailedAt;
    forall a ensures CurtailedAt(x, z, world, a) {
      CurtailedThen(x, y, z, world, a);
    }
  }

  /** One account's list has been cut. */
  lemma CurtailedOne(x: Slots, y: Slots, world: World, a: Address)
    requires SameBut(x.pending, y.pending, a) && NoncesBut(x.managed, y.managed, world, a)
    requires CurtailedAt(x, y, world, a)
    ensures AllCurtailed(x, y, world)
  {
    hide Curtailed, VirtualNonce;
    forall b ensures CurtailedAt(x, y, world, b) {
      if b != a {
        Uncut(ItemsOf(x.pending, b), x.Nonce(world, b));
      }
    }
  }

  /** The removal of one transaction cuts its account's pending list there, if it was in it. */
  lemma RemovedCurtails(x: Slots, y: Slots, world: World, tx: Tx)
    requires SameBut(x.pending, y.pending, tx.From()) && NoncesBut(x.managed, y.managed, world, tx.From())
    requires !x.Has(tx) || Holds(x.queue, tx) ==> y.pending == x.pending && y.managed == x.managed
    requires Holds(x.pending, tx) ==>
               var a := tx.From();
               && ItemsOf(y.pending, a) == Below(ItemsOf(x.pending, a), tx.nonce)
               && y.Nonce(world, a) == if x.Nonce(world, a) > tx.nonce then tx.nonce else x.Nonce(world, a)
    ensures AllCurtailed(x, y, world)
  {
    hide AllCurtailed, CurtailedAt, SameBut, NoncesBut, Below, VirtualNonce;
    if Holds(x.pending, tx) {
      IsCut(x, y, world, tx.From(), tx.nonce);
      CurtailedOne(x, y, world, tx.From());
    } else {
      CurtailedSame(x, y, world);
    }
  }

  lemma Uncut(p: Items, v: nat)
    ensures Curtailed(p, v, p, v)
  {}

  lemma IsCut(x: Slots, y: Slots, world: World, a: Address, n: nat)
    requires CutDown(ItemsOf(x.pending, a), x.Nonce(world, a), ItemsOf(y.pending, a), y.Nonce(world, a), n)
    ensures CurtailedAt(x, y, world, a)
  {}

  /** Exactly the given accounts lost one transaction each. */
  ghost predicate CutBy(m: Lists, m': Lists, cut: seq<Address>) {
    && m.Keys == m'.Keys
    && (forall a | a in m && a !in cut :: m'[a] == m[a])
    && (forall a | a in cut :: Len(m', a) == Len(m, a) - 1)
    && (forall a | a in m :: Sub(m'[a].items, m[a].items))
  }

  lemma NoneCut(m: Lists)
    ensures CutBy(m, m, [])
  {}

  lemma NextOffender(m: Lists, m': Lists, offenders: seq<Address>, i: nat)
    requires i < |offenders| && E.Distinct(offenders) && CutBy(m, m', offenders[..i])
    requires forall a | a in offenders :: Len(m, a) > 0
    ensures Len(m', offenders[i]) > 0
  {}

  lemma SubTrans(m: Lists, m': Lists, m'': Lists)
    requires m.Keys == m'.Keys == m''.Keys
    requires forall a | a in m :: Sub(m'[a].items, m[a].items) && Sub(m''[a].items, m'[a].items)
    ensures forall a | a in m :: Sub(m''[a].items, m[a].items)
  {}

  lemma SubStep(m: Lists, m': Lists, a: Address)
    requires m.Keys == m'.Keys && SameBut(m, m', a) && Sub(ItemsOf(m', a), ItemsOf(m, a))
    ensures forall b | b in m :: Sub(m'[b].items, m[b].items)
  {}

  lemma CutAnother(m: Lists, m': Lists, m'': Lists, offenders: seq<Address>, i: nat)
    requires i < |offenders| && E.Distinct(offenders) && CutBy(m, m', offenders[..i])
    requires m''.Keys == m'.Keys && SameBut(m', m'', offenders[i])
    requires Len(m'', offenders[i]) == Len(m', offenders[i]) - 1
    requires Sub(ItemsOf(m'', offenders[i]), ItemsOf(m', offenders[i]))
    ensures CutBy(m, m'', offenders[..i + 1])
  {
    hide Sub;
    var a := offenders[i];
    CutMembers(offenders, i);
    SubStep(m', m'', a);
    SubTrans(m, m', m'');
    forall b | b in offenders[..i + 1] ensures Len(m'', b) == Len(m, b) - 1 {
      if b != a {
        assert ItemsOf(m'', b) == ItemsOf(m', b);
      } else {
        assert ItemsOf(m', a) == ItemsOf(m, a);
      }
    }
  }

  lemma CutMembers(offenders: seq<Address>, i: nat)
    requires i < |offenders| && E.Distinct(offenders)
    ensures offenders[i] !in offenders[..i]
    ensures forall b :: b in offenders[..i + 1] <==> b in offenders[..i] || b == offenders[i]
  {}

  lemma EmptyElsewhere(m: Lists)
    ensures forall a | Len(m, a) > 0 :: a in m
  {}

  // ---- the lists behind an equalisation ----

  function Lens(m: Lists): map<Address, nat> {
    map a | a in m :: |m[a].items|
  }

  lemma LensOf(m: Lists)
    ensures Lens(m).Keys == m.Keys && forall a | a in m :: Lens(m)[a] == Len(m, a)
  {}

  /** Only lists of the given accounts changed, and they only lost transactions. */
  ghost predicate Trimmed(m: Lists, m': Lists, offenders: seq<Address>) {
    && m.Keys == m'.Keys
    && (forall a | a in m && a !in offenders :: m'[a] == m[a])
    && (forall a | a in m :: Sub(m'[a].items, m[a].items))
  }

  lemma RoundOf(m: Lists, m': Lists, group: seq<Address>)
    requires CutBy(m, m', group) && forall a | a in group :: a in m
    ensures E.Round(Lens(m), Lens(m'), group)
  {}

  lemma TrimmedNone(m: Lists)
    ensures Trimmed(m, m, []) && E.Distinct([])
  {}

  /** No remote account holds more than its slots. */
  ghost predicate WithinSlots(m: Lists, locals: set<Address>, slots: nat) {
    forall a | a in m && a !in locals :: Len(m, a) <= slots
  }

  /** Local accounts are untouched, a list only loses transactions and not below the slots, and no uncut
      remote account is longer than a cut one. */
  ghost predicate CutFairly(m: Lists, m': Lists, locals: set<Address>, slots: nat) {
    && m.Keys == m'.Keys
    && (forall a | a in locals && a in m :: m'[a] == m[a])
    && (forall a | a in m :: Sub(m'[a].items, m[a].items))
    && (forall a | a in m && Len(m', a) < Len(m, a) :: slots <= Len(m', a))
    && (forall u, c | u in m && c in m && u !in locals && c !in locals && Len(m', u) == Len(m, u)
        && Len(m', c) < Len(m, c) ::
          Len(m', u) <= Len(m', c))
  }

  lemma NothingCut(m: Lists, locals: set<Address>, slots: nat)
    ensures CutFairly(m, m, locals, slots)
  {}

  lemma CutSummary(m: Lists, m': Lists, offenders: seq<Address>, spammers: set<Address>, locals: set<Address>,
                   slots: nat)
    requires Trimmed(m, m', offenders) && E.Cutting(Lens(m), Lens(m'), offenders, spammers, locals, slots)
    requires E.Fair(Lens(m), Lens(m'), locals)
    ensures CutFairly(m, m', locals, slots)
  {
    E.CuttingFacts(Lens(m), Lens(m'), offenders, spammers, locals, slots);
    LensOf(m);
    LensOf(m');
  }

  lemma SettledWithin(m: Lists, m': Lists, offenders: seq<Address>, locals: set<Address>, slots: nat)
    requires E.Settled(Lens(m), Lens(m'), offenders, {}, locals, slots)
    requires forall a | a in offenders :: Len(m', a) <= slots
    ensures WithinSlots(m', locals, slots)
  {}

  lemma TrimmedWider(m: Lists, m': Lists, offenders: seq<Address>, a: Address)
    requires Trimmed(m, m', offenders) && E.Distinct(offenders) && a !in offenders
    ensures Trimmed(m, m', offenders + [a]) && E.Distinct(offenders + [a])
  {}

  lemma TrimmedMore(m: Lists, m': Lists, m'': Lists, offenders: seq<Address>, group: seq<Address>)
    requires Trimmed(m, m', offenders) && CutBy(m', m'', group) && forall a | a in group :: a in offenders
    ensures Trimmed(m, m'', offenders)
  {
    SubTrans(m, m', m'');
  }

  /** Level offenders that are above the guaranteed slots all have something to lose. */
  lemma AllAbove(p0: Lists, p: Lists, offenders: seq<Address>, locals: set<Address>, slots: nat)
    requires E.Settled(Lens(p0), Lens(p), offenders, {}, locals, slots) && |offenders| > 0
    ensures Len(p, offenders[|offenders| - 1]) > slots ==> forall a | a in offenders :: Len(p, a) > slots
    ensures Len(p, offenders[|offenders| - 1]) <= slots ==> forall a | a in offenders :: Len(p, a) <= slots
  {
    hide E.Settled, Lens;
    E.SettledFacts(Lens(p0), Lens(p), offenders, {}, locals, slots);
    LensOf(p);
    assert offenders[|offenders| - 1] in offenders;
  }

  /** A round over level offenders leaves them level. */
  lemma ReducedOnce(p0: Lists, p: Lists, p': Lists, offenders: seq<Address>, locals: set<Address>, slots: nat)
    requires E.Settled(Lens(p0), Lens(p), offenders, {}, locals, slots) && Trimmed(p0, p, offenders)
    requires CutBy(p, p', offenders) && forall a | a in offenders :: Len(p, a) > slots
    ensures E.Settled(Lens(p0), Lens(p'), offenders, {}, locals, slots) && Trimmed(p0, p', offenders)
  {
    hide E.Settled, E.Round, Trimmed, CutBy, Lens;
    E.SettledFacts(Lens(p0), Lens(p), offenders, {}, locals, slots);
    LensOf(p);
    RoundOf(p, p', offenders);
    E.FullRound(Lens(p0), Lens(p), Lens(p'), offenders, locals, slots);
    TrimmedMore(p0, p, p', offenders, offenders);
  }

  /** The group is level too, and either has met the last offender or has something to lose. */
  lemma GroupAbove(p0: Lists, p: Lists, group: seq<Address>, last: Address, spammers: set<Address>,
                   locals: set<Address>, slots: nat)
    requires E.Phase(Lens(p0), Lens(p), group, last, spammers, locals, slots)
    ensures last in p && forall a | a in group :: a in p
    ensures |group| > 0 && Len(p, group[|group| - 1]) > Len(p, last) ==> forall a | a in group :: Len(p, a) > Len(p,
            last)
    ensures |group| > 0 && Len(p, group[|group| - 1]) <= Len(p, last) ==> forall a | a in group :: Len(p, a) <= Len(p,
            last)
  {
    hide E.Phase, Lens;
    E.GroupFacts(Lens(p0), Lens(p), group, last, spammers, locals, slots);
    LensOf(p);
    assert |group| > 0 ==> group[|group| - 1] in group;
  }

  lemma EqualisedOnce(p0: Lists, p: Lists, p': Lists, group: seq<Address>, last: Address, spammers: set<Address>,
                      locals: set<Address>, slots: nat)
    requires E.Phase(Lens(p0), Lens(p), group, last, spammers, locals, slots) && Trimmed(p0, p, group + [last])
    requires CutBy(p, p', group) && forall a | a in group :: Len(p, a) > Len(p, last)
    ensures E.Phase(Lens(p0), Lens(p'), group, last, spammers, locals, slots) && Trimmed(p0, p', group + [last])
    ensures Len(p', last) == Len(p, last)
  {
    hide E.Phase, E.Round, Trimmed, Lens, Sub;
    E.GroupFacts(Lens(p0), Lens(p), group, last, spammers, locals, slots);
    LensOf(p);
    RoundOf(p, p', group);
    E.GroupRound(Lens(p0), Lens(p), Lens(p'), group, last, spammers, locals, slots);
    TrimmedMore(p0, p, p', group + [last], group);
    assert last !in group;
  }

  lemma GroupMet(p0: Lists, p: Lists, group: seq<Address>, last: Address, spammers: set<Address>,
                 locals: set<Address>, slots: nat)
    requires E.Phase(Lens(p0), Lens(p), group, last, spammers, locals, slots) && last in p
    requires forall a | a in group :: Len(p, a) <= Len(p, last)
    ensures E.Settled(Lens(p0), Lens(p), group + [last], spammers, locals, slots)
  {
    hide E.Phase, E.Settled, Lens;
    LensOf(p);
    E.Met(Lens(p0), Lens(p), group, last, spammers, locals, slots);
  }

  // ---- the queue limit ----

  lemma TotalAt(m: Lists, a: Address)
    ensures Total(m) == Len(m, a) + Total(m - {a})
  {
    if a in m {
      TotalSplit(m, a);
    } else {
      assert m - {a} == m;
    }
  }

  lemma TotalChange(m: Lists, m': Lists, a: Address)
    requires SameBut(m, m', a)
    ensures Total(m') - Len(m', a) == Total(m) - Len(m, a)
  {
    hide Total, Len;
    TotalAt(m, a);
    TotalAt(m', a);
    assert m - {a} == m' - {a};
  }

  /** Some order of the accounts in a set; the pool sorts them by heartbeat. */
  method Order(accounts: set<Address>) returns (s: seq<Address>)
    ensures E.Distinct(s) && forall a :: a in s <==> a in accounts
  {
    s := [];
    var left := accounts;
    while left != {}
      invariant left <= accounts && E.Distinct(s) && forall a :: a in s <==> a in accounts && a !in left
    {
      var a :| a in left;
      s, left := s + [a], left - {a};
    }
  }

  lemma SortedOwned(m: Lists, a: Address, txs: seq<Tx>)
    requires ListsOk(m, false) && a in m && SortedOf(txs, m[a].items)
    ensures |txs| == Len(m, a)
    ensures forall i | 0 <= i < |txs| :: txs[i].From() == a && Holds(m, txs[i])
    ensures forall i, j | 0 <= i < j < |txs| :: txs[i].nonce < txs[j].nonce
  {
    SortedNonces(txs, m[a].items);
    IncreasingSize(NoncesOf(txs), m[a].items.Keys);
  }

  /** Of the transactions of an account, in the order of their nonces, those from `lo` up to `hi` are left. */
  ghost predicate Left(m: Lists, m': Lists, a: Address, txs: seq<Tx>, lo: nat, hi: nat) {
    && lo <= hi <= |txs| == Len(m, a) && SameBut(m, m', a) && Sub(ItemsOf(m', a), ItemsOf(m, a))
    && Len(m', a) == hi - lo && Total(m') == Total(m) - |txs| + (hi - lo)
    && (forall i | 0 <= i < |txs| :: txs[i].From() == a)
    && (forall i, j | 0 <= i < j < |txs| :: txs[i].nonce < txs[j].nonce)
    && (forall i | lo <= i < hi :: Holds(m', txs[i]))
  }

  lemma LeftAll(m: Lists, a: Address, txs: seq<Tx>)
    requires ListsOk(m, false) && a in m && SortedOf(txs, m[a].items)
    ensures Left(m, m, a, txs, 0, |txs|) && |txs| == Len(m, a)
  {
    hide Total, SortedOf, ListsOk;
    SortedOwned(m, a, txs);
  }

  lemma LeftAt(m: Lists, m': Lists, a: Address, txs: seq<Tx>, lo: nat, hi: nat, i: nat)
    requires Left(m, m', a, txs, lo, hi) && lo <= i < hi
    ensures Holds(m', txs[i]) && txs[i].From() == a
  {}

  lemma LeftLess(m: Lists, m': Lists, m'': Lists, a: Address, txs: seq<Tx>, lo: nat, hi: nat, first: bool)
    requires Left(m, m', a, txs, lo, hi) && lo < hi && SameBut(m', m'', a)
    requires ItemsOf(m'', a) == ItemsOf(m', a) - {txs[if first then lo else hi - 1].nonce}
    requires Total(m'') == Total(m') - 1 && Len(m'', a) == Len(m', a) - 1
    ensures Left(m, m'', a, txs, if first then lo + 1 else lo, if first then hi else hi - 1)
  {
    hide Total;
  }

  lemma LeftEnds(m: Lists, m': Lists, a: Address, txs: seq<Tx>, lo: nat, hi: nat)
    requires Left(m, m', a, txs, lo, hi)
    ensures SameBut(m, m', a) && Sub(ItemsOf(m', a), ItemsOf(m, a)) && Len(m', a) == hi - lo
    ensures Total(m') == Total(m) - |txs| + (hi - lo) && |txs| == Len(m, a)
  {}

  // ---- processing the queues ----

  /** The account has the same in both. */
  ghost predicate Untouched(x: Slots, y: Slots, world: World, a: Address) {
    SameAt(x.pending, y.pending, a) && SameAt(x.queue, y.queue, a) && x.Nonce(world, a) == y.Nonce(world, a)
  }

  /** Only the one account has been touched. */
  ghost predicate TouchedAt(x: Slots, y: Slots, world: World, a: Address) {
    forall b | b != a :: Untouched(x, y, world, b)
  }

  ghost function TxSet(txs: seq<Tx>): set<Tx> {
    set tx | tx in txs
  }

  lemma OneMoreTx(txs: seq<Tx>, i: nat)
    requires i < |txs|
    ensures TxSet(txs[..i + 1]) == TxSet(txs[..i]) + {txs[i]} && TxSet(txs[..0]) == {}
  {}

  /** Only the senders' accounts have been touched. */
  ghost predicate TouchedBy(x: Slots, y: Slots, world: World, txs: set<Tx>) {
    forall a | (forall d | d in txs :: d.From() != a) :: Untouched(x, y, world, a)
  }

  lemma TouchedByNone(x: Slots, world: World)
    ensures TouchedBy(x, x, world, {})
  {}

  lemma UntouchedTrans(x: Slots, y: Slots, z: Slots, world: World, a: Address)
    requires Untouched(x, y, world, a) && Untouched(y, z, world, a)
    ensures Untouched(x, z, world, a)
  {}

  lemma TouchedNext(x: Slots, y: Slots, z: Slots, world: World, txs: seq<Tx>, i: nat)
    requires i < |txs| && TouchedAt(y, z, world, txs[i].From()) && TouchedBy(x, y, world, TxSet(txs[..i]))
    ensures TouchedBy(x, z, world, TxSet(txs[..i + 1]))
  {
    hide Untouched;
    var now := TxSet(txs[..i + 1]);
    assert now == TxSet(txs[..i]) + {txs[i]};
    forall a | (forall d | d in now :: d.From() != a) ensures Untouched(x, z, world, a) {
      assert txs[i] in now;
      UntouchedTrans(x, y, z, world, a);
    }
  }

  lemma TouchedOnly(x: Slots, y: Slots, world: World, a: Address)
    requires SameBut(x.pending, y.pending, a) && SameBut(x.queue, y.queue, a)
    requires NoncesBut(x.managed, y.managed, world, a)
    ensures TouchedAt(x, y, world, a)
  {
    hide VirtualNonce;
  }

  /** The queues of exactly the given accounts have been processed. */
  ghost predicate ProcessedAll(x: Slots, y: Slots, world: World, accounts: seq<Address>, locals: set<Address>, k: nat) {
    forall a :: ProcessedAt(x, y, world, a, a in accounts, a in locals, k)
  }

  ghost predicate ProcessedAt(x: Slots, y: Slots, world: World, a: Address, given: bool, local: bool, k: nat) {
    if given then
      Processed(ItemsOf(x.pending, a), ItemsOf(x.queue, a), x.Nonce(world, a),
                ItemsOf(y.pending, a), ItemsOf(y.queue, a), y.Nonce(world, a), a, world, local, k)
    else Untouched(x, y, world, a)
  }

  lemma ProcessedNone(x: Slots, world: World, locals: set<Address>, k: nat)
    ensures ProcessedAll(x, x, world, [], locals, k)
  {}

  lemma ProcessedNext(x: Slots, y: Slots, z: Slots, world: World, accounts: seq<Address>, i: nat, locals: set<Address>,
                      k: nat)
    requires i < |accounts| && E.Distinct(accounts) && ProcessedAll(x, y, world, accounts[..i], locals, k)
    requires TouchedAt(y, z, world, accounts[i])
    requires ProcessedAt(y, z, world, accounts[i], true, accounts[i] in locals, k)
    ensures ProcessedAll(x, z, world, accounts[..i + 1], locals, k)
  {
    hide ProcessedAt, Untouched, E.Distinct;
    CutMembers(accounts, i);
    forall b ensures ProcessedAt(x, z, world, b, b in accounts[..i + 1], b in locals, k) {
      assert ProcessedAt(x, y, world, b, b in accounts[..i], b in locals, k);
      if b != accounts[i] {
        ProcessedStill(x, y, z, world, b, b in accounts[..i], b in locals, k);
      } else {
        ProcessedNow(x, y, z, world, b, b in locals, k);
      }
    }
  }

  lemma ProcessedStill(x: Slots, y: Slots, z: Slots, world: World, a: Address, given: bool, local: bool, k: nat)
    requires ProcessedAt(x, y, world, a, given, local, k) && Untouched(y, z, world, a)
    ensures ProcessedAt(x, z, world, a, given, local, k)
  {
    hide Processed;
  }

  lemma ProcessedNow(x: Slots, y: Slots, z: Slots, world: World, a: Address, local: bool, k: nat)
    requires ProcessedAt(x, y, world, a, false, local, k) && ProcessedAt(y, z, world, a, true, local, k)
    ensures ProcessedAt(x, z, world, a, true, local, k)
  {
    hide Processed;
  }

  /** A transaction the state has not gone past and that is affordable. */
  predicate Sound(tx: Tx, world: World) {
    world.Nonce(tx.From()) <= tx.nonce && world.Affords(tx)
  }

  lemma SoundNonce(tx: Tx, world: World)
    requires Sound(tx, world)
    ensures world.Nonce(tx.From()) <= tx.nonce
  {}

  /** Remote transactions of those known, none dearer than a remote one that is left. */
  ghost predicate Cheapest(dropped: set<Tx>, known: set<Tx>, locals: set<Address>) {
    && dropped <= known && (forall d | d in dropped :: d.From() !in locals)
    && forall d, x | d in dropped && x in known && x !in dropped && x.From() !in locals :: d.price <= x.price
  }

  lemma DroppedCheapest(drop: seq<Tx>, known: set<Tx>, locals: set<Address>)
    requires forall tx | tx in drop :: tx in known && tx.From() !in locals
    requires forall d, tx | d in drop && tx in known && tx !in drop && tx.From() !in locals :: d.price <= tx.price
    ensures Cheapest(TxSet(drop), known, locals)
  {}

  lemma {:induction false} TxSetSize(txs: seq<Tx>)
    ensures |TxSet(txs)| <= |txs|
  {
    if txs != [] {
      var n := |txs| - 1;
      TxSetSize(txs[..n]);
      assert txs == txs[..n] + [txs[n]];
      assert TxSet(txs) == TxSet(txs[..n]) + {txs[n]};
    }
  }

  lemma EmptyTxSet(txs: seq<Tx>)
    ensures TxSet(txs) == {} <==> txs == []
  {
    if txs != [] {
      assert txs[0] in TxSet(txs);
    }
  }

  lemma NothingDropped(known: set<Tx>, locals: set<Address>)
    ensures Cheapest({}, known, locals)
  {}

  /** Lists that only lost transactions. */
  ghost predicate Within(m: Lists, m': Lists) {
    forall a :: Sub(ItemsOf(m', a), ItemsOf(m, a))
  }

  lemma WithinSelf(m: Lists)
    ensures Within(m, m)
  {}

  lemma WithinTrans(m: Lists, m': Lists, m'': Lists)
    requires Within(m, m') && Within(m', m'')
    ensures Within(m, m'')
  {
    forall a ensures Sub(ItemsOf(m'', a), ItemsOf(m, a)) {
      assert Sub(ItemsOf(m'', a), ItemsOf(m', a)) && Sub(ItemsOf(m', a), ItemsOf(m, a));
    }
  }

  /** The account's queue, if it is one of the good ones, holds nonces below the state's or above the pending ones. */
  ghost predicate UnprocessedIn(x: Slots, world: World, a: Address, good: iset<Address>) {
    Unprocessed(ItemsOf(x.pending, a), ItemsOf(x.queue, a), world.Nonce(a), x.Nonce(world, a), a in good)
  }

  /** The queues of the given accounts are still to be processed, all others are in order. */
  ghost predicate Processing(x: Slots, world: World, good: iset<Address>, accounts: seq<Address>) {
    forall a :: UnprocessedIn(x, world, a, good) && (a !in accounts ==> PlacedIn(x, world, a, good))
  }

  lemma ToProcess(x: Slots, world: World, good: iset<Address>, accounts: seq<Address>, a: Address)
    requires Processing(x, world, good, accounts)
    ensures UnprocessedIn(x, world, a, good)
  {}

  lemma ProcessingApart(x: Slots, world: World, good: iset<Address>, accounts: seq<Address>)
    requires Processing(x, world, good, accounts)
    ensures forall a :: Apart(x.pending, x.queue, a)
  {
    hide Apart, Unprocessed;
    forall a ensures Apart(x.pending, x.queue, a) {
      assert UnprocessedIn(x, world, a, good);
      UnprocessedApart(x.pending, x.queue, a, world.Nonce(a), x.Nonce(world, a), a in good);
    }
  }

  lemma OneProcessed(x: Slots, y: Slots, world: World, good: iset<Address>, accounts: seq<Address>, i: nat)
    requires i < |accounts| && Processing(x, world, good, accounts[i..]) && TouchedAt(x, y, world, accounts[i])
    requires PlacedIn(y, world, accounts[i], good)
    ensures Processing(y, world, good, accounts[i + 1..])
  {
    hide PlacedIn, UnprocessedIn, Untouched;
    assert accounts[i..] == [accounts[i]] + accounts[i + 1..];
    forall a ensures UnprocessedIn(y, world, a, good) && (a !in accounts[i + 1..] ==> PlacedIn(y, world, a, good)) {
      assert UnprocessedIn(x, world, a, good) && (a !in accounts[i..] ==> PlacedIn(x, world, a, good));
      if a == accounts[i] {
        PlacedIsProcessed(y, world, a, good);
      } else {
        StillPlaced(x, y, world, a, good);
      }
    }
  }

  lemma PlacedIsProcessed(x: Slots, world: World, a: Address, good: iset<Address>)
    requires PlacedIn(x, world, a, good)
    ensures UnprocessedIn(x, world, a, good)
  {
    PlacedUnprocessed(ItemsOf(x.pending, a), ItemsOf(x.queue, a), world.Nonce(a), x.Nonce(world, a), a in good);
  }

  lemma StillPlaced(x: Slots, y: Slots, world: World, a: Address, good: iset<Address>)
    requires Untouched(x, y, world, a)
    ensures PlacedIn(x, world, a, good) ==> PlacedIn(y, world, a, good)
    ensures UnprocessedIn(x, world, a, good) ==> UnprocessedIn(y, world, a, good)
  {
    hide Placed, Unprocessed;
  }

  lemma AllProcessed(x: Slots, world: World, good: iset<Address>)
    requires Processing(x, world, good, [])
    ensures AllPlaced(x, world, good)
  {
    hide PlacedIn, UnprocessedIn;
    forall a ensures PlacedIn(x, world, a, good) {
      assert UnprocessedIn(x, world, a, good) && PlacedIn(x, world, a, good);
    }
  }

  /** Between operations, any accounts may have their queues processed. */
  lemma ReadyToPromote(x: Slots, world: World, good: iset<Address>, accounts: seq<Address>)
    requires AllPlaced(x, world, good)
    ensures Processing(x, world, good, accounts)
  {
    hide PlacedIn, UnprocessedIn;
    forall a ensures UnprocessedIn(x, world, a, good) && PlacedIn(x, world, a, good) {
      assert PlacedIn(x, world, a, good);
      PlacedIsProcessed(x, world, a, good);
    }
  }

  /** What is left of the processed accounts was pending before or is sound. */
  lemma SoundAfter(x: Slots, y: Slots, p: Lists, q: Lists, world: World, accounts: seq<Address>, locals: set<Address>,
                   k: nat, tx: Tx)
    requires ProcessedAll(x, y, world, accounts, locals, k) && Within(y.pending, p) && Within(y.queue, q)
    requires Holds(p, tx) || Holds(q, tx)
    ensures Sound(tx, world) || Holds(x.pending, tx) || (tx.From() !in accounts && Holds(x.queue, tx))
  {
    hide Processed, Sound;
    var a := tx.From();
    assert ProcessedAt(x, y, world, a, a in accounts, a in locals, k);
    assert Sub(ItemsOf(p, a), ItemsOf(y.pending, a)) && Sub(ItemsOf(q, a), ItemsOf(y.queue, a));
    if a in accounts {
      FromPayable(ItemsOf(x.pending, a), ItemsOf(x.queue, a), x.Nonce(world, a), ItemsOf(y.pending, a),
          ItemsOf(y.queue, a), y.Nonce(world, a), a, world, a in locals, k, tx);
    }
  }

  lemma FromPayable(p: Items, q: Items, v: nat, p': Items, q': Items, v': nat, a: Address, world: World, local: bool,
                    k: nat, tx: Tx)
    requires Processed(p, q, v, p', q', v', a, world, local, k) && tx.From() == a && (In(p', tx) || In(q', tx))
    ensures In(p, tx) || Sound(tx, world)
  {
    hide ReadyTo, NonceAfter, Payable, Sound;
    InPayable(q, a, world, tx);
  }

  /** The number of queued transactions of an account that are payable but not ready. */
  ghost function Waiting(x: Slots, world: World, a: Address): nat {
    var payable := Payable(ItemsOf(x.queue, a), a, world);
    |AtLeast(payable, ReadyTo(payable, x.Nonce(world, a)))|
  }

  /** A sound transaction is still there after the queues were processed, unless its account is a remote one with
      too many waiting. */
  lemma SoundKept(x: Slots, y: Slots, world: World, accounts: seq<Address>, locals: set<Address>, k: nat, tx: Tx)
    requires ProcessedAll(x, y, world, accounts, locals, k) && Apart(x.pending, x.queue, tx.From())
    requires Sound(tx, world) && x.Has(tx)
    ensures y.Has(tx) || (tx.From() !in locals && tx.From() in accounts && Waiting(x, world, tx.From()) > k)
  {
    hide Processed, Sound;
    var a := tx.From();
    assert ProcessedAt(x, y, world, a, a in accounts, a in locals, k);
    if a in accounts {
      SoundProcessed(ItemsOf(x.pending, a), ItemsOf(x.queue, a), x.Nonce(world, a), ItemsOf(y.pending, a),
          ItemsOf(y.queue, a), y.Nonce(world, a), a, world, a in locals, k, tx);
    }
  }

  lemma SoundProcessed(p: Items, q: Items, v: nat, p': Items, q': Items, v': nat, a: Address, world: World, local: bool,
                       k: nat, tx: Tx)
    requires Processed(p, q, v, p', q', v', a, world, local, k) && tx.From() == a && (In(p, tx) || In(q, tx))
    requires p.Keys !! q.Keys && Sound(tx, world)
    ensures var payable := Payable(q, a, world);
            In(p', tx) || In(q', tx) || (!local && |AtLeast(payable, ReadyTo(payable, v))| > k)
  {
    hide ReadyTo, NonceAfter, IsLowest, Payable, Sound;
    var payable := Payable(q, a, world);
    var e := ReadyTo(payable, v);
    InPayable(q, a, world, tx);
    if In(p, tx) {
      assert tx.nonce in p.Keys;
    } else if tx.nonce >= e && !local && |AtLeast(payable, e)| <= k {
      AllLowest(q', AtLeast(payable, e), k);
    }
  }

  lemma InPayable(q: Items, a: Address, world: World, tx: Tx)
    requires tx.From() == a
    ensures In(Payable(q, a, world), tx) <==> In(q, tx) && Sound(tx, world)
    ensures Payable(q, a, world).Keys <= q.Keys
  {}

  lemma AllLowest(r: Items, m: Items, k: nat)
    requires IsLowest(r, m, k) && |m| <= k
    ensures r == m
  {
    SameSize(r.Keys, m.Keys);
  }

  lemma SameSize(r: set<nat>, m: set<nat>)
    requires r <= m && |r| == |m|
    ensures r == m
  {
    var rest := m - r;
    assert m == r + rest;
    assert |rest| == 0;
  }

  // ---- the limits ----

  /** What the queue limit leaves: local accounts are untouched, and no more goes than is too many. */
  ghost predicate QueueCapped(m: Lists, m': Lists, locals: set<Address>, limit: nat) {
    && Within(m, m') && (forall a | a in locals :: ItemsOf(m', a) == ItemsOf(m, a))
    && (if Total(m) <= limit then m' == m else limit <= Total(m'))
    && (Total(m') <= limit || forall a | a !in locals :: Len(m', a) == 0)
  }

  lemma WithinAt(m: Lists, m': Lists, a: Address)
    requires SameBut(m, m', a) && Sub(ItemsOf(m', a), ItemsOf(m, a))
    ensures Within(m, m')
  {}

  /** What the pending limit and the queue limit leave of the lists. */
  ghost predicate Capped(mid: Slots, p: Lists, q: Lists, locals: set<Address>, c: Config) {
    && CutFairly(mid.pending, p, locals, c.accountSlots)
    && (Total(mid.pending) <= c.globalSlots ==> p == mid.pending)
    && (Total(p) <= c.globalSlots || WithinSlots(p, locals, c.accountSlots))
    && QueueCapped(mid.queue, q, locals, c.globalQueue)
  }

  lemma CappedBoth(mid: Slots, p: Lists, q: Lists, locals: set<Address>, c: Config)
    requires CutFairly(mid.pending, p, locals, c.accountSlots)
    requires Total(mid.pending) <= c.globalSlots ==> p == mid.pending
    requires Total(p) <= c.globalSlots || WithinSlots(p, locals, c.accountSlots)
    requires QueueCapped(mid.queue, q, locals, c.globalQueue)
    ensures Capped(mid, p, q, locals, c)
  {}

  lemma CappedSame(mid: Slots, p: Lists, q: Lists, locals: set<Address>, c: Config)
    requires Capped(mid, p, q, locals, c)
    ensures Total(mid.pending) <= c.globalSlots ==> p == mid.pending
  {}

  lemma Fewer(a: set<Tx>, b: set<Tx>)
    requires a <= b
    ensures |a| <= |b|
  {
    assert b == a + (b - a);
  }

  lemma CappedWithin(mid: Slots, p: Lists, q: Lists, locals: set<Address>, c: Config)
    requires Capped(mid, p, q, locals, c)
    ensures Within(mid.pending, p) && Within(mid.queue, q)
    ensures forall a | a in locals :: ItemsOf(p, a) == ItemsOf(mid.pending, a) && ItemsOf(q, a) == ItemsOf(mid.queue, a)
  {
    CutLocals(mid.pending, p, locals, c.accountSlots);
  }

  /** A transaction is of a remote account, and a limit has been exceeded: the account's own queue limit, the pending
      limit and the account's slots, or the queue limit. */
  ghost predicate Crowded(x: Slots, mid: Slots, world: World, accounts: seq<Address>, locals: set<Address>, c: Config,
                          tx: Tx)
  {
    var a := tx.From();
    && a !in locals
    && (|| (a in accounts && Waiting(x, world, a) > c.accountQueue)
        || (Total(mid.pending) > c.globalSlots && Len(mid.pending, a) > c.accountSlots)
        || Total(mid.queue) > c.globalQueue)
  }

  lemma CrowdedRemote(x: Slots, mid: Slots, world: World, accounts: seq<Address>, locals: set<Address>, c: Config)
    ensures forall tx | Crowded(x, mid, world, accounts, locals, c, tx) :: tx.From() !in locals
  {}

  /** Only a transaction that is crowded out is lost. */
  lemma Losses(known: set<Tx>, x: Slots, mid: Slots, known': set<Tx>, p: Lists, q: Lists, world: World,
               accounts: seq<Address>, locals: set<Address>, c: Config)
    requires Partition(known, x.pending, x.queue) && Partition(known', p, q)
    requires forall a :: Apart(x.pending, x.queue, a)
    requires ProcessedAll(x, mid, world, accounts, locals, c.accountQueue) && Capped(mid, p, q, locals, c)
    ensures forall tx | tx in known && tx !in known' && Sound(tx, world) ::
              Crowded(x, mid, world, accounts, locals, c, tx)
  {
    hide ProcessedAll, Capped, Crowded, Sound, Apart;
    forall tx | tx in known && tx !in known' && Sound(tx, world)
      ensures Crowded(x, mid, world, accounts, locals, c, tx)
    {
      assert Apart(x.pending, x.queue, tx.From());
      LostOnly(x, mid, p, q, world, accounts, locals, c, tx);
    }
  }

  lemma LostOnly(x: Slots, mid: Slots, p: Lists, q: Lists, world: World, accounts: seq<Address>, locals: set<Address>,
                 c: Config, tx: Tx)
    requires ProcessedAll(x, mid, world, accounts, locals, c.accountQueue) && Capped(mid, p, q, locals, c)
    requires Apart(x.pending, x.queue, tx.From()) && Sound(tx, world) && x.Has(tx)
    requires !Holds(p, tx) && !Holds(q, tx)
    ensures Crowded(x, mid, world, accounts, locals, c, tx)
  {
    hide ProcessedAll, CutFairly, Total, Waiting, Sound, Len;
    SoundKept(x, mid, world, accounts, locals, c.accountQueue, tx);
    if Holds(mid.pending, tx) {
      CutLoses(mid.pending, p, locals, c.accountSlots, tx);
    }
  }

  /** A local account's next nonce becomes pending. */
  lemma NextIsPending(x: Slots, start: Slots, mid: Slots, p: Lists, q: Lists, world: World, tx: Tx,
                      locals: set<Address>,
                      c: Config)
    requires var a := tx.From();
             && a in locals && Sound(tx, world) && start.Nonce(world, a) == tx.nonce
             && Ordered(ItemsOf(x.pending, a), ItemsOf(x.queue, a), world.Nonce(a), tx.nonce)
             && ItemsOf(start.queue, a) == ItemsOf(x.queue, a)[tx.nonce := tx]
             && ProcessedAll(start, mid, world, [a], locals, c.accountQueue) && Capped(mid, p, q, locals, c)
    ensures Holds(p, tx)
  {
    hide ProcessedAll, Capped, Sound, Ordered;
    var a := tx.From();
    ProcessedOne(start, mid, world, a, locals, c.accountQueue);
    CappedWithin(mid, p, q, locals, c);
    NextReady(ItemsOf(x.pending, a), ItemsOf(x.queue, a), ItemsOf(start.queue, a), world, tx);
    hide Payable, ReadyTo, NonceAfter;
    assert tx.nonce in Below(Payable(ItemsOf(start.queue, a), a, world), ReadyTo(Payable(ItemsOf(start.queue, a), a,
          world), tx.nonce));
  }

  lemma ProcessedOne(x: Slots, y: Slots, world: World, a: Address, locals: set<Address>, k: nat)
    requires ProcessedAll(x, y, world, [a], locals, k)
    ensures ProcessedAt(x, y, world, a, true, a in locals, k)
  {
    assert ProcessedAt(x, y, world, a, a in [a], a in locals, k);
  }

  lemma NextReady(p: Items, q: Items, q': Items, world: World, tx: Tx)
    requires Ordered(p, q, world.Nonce(tx.From()), tx.nonce) && q' == q[tx.nonce := tx] && Sound(tx, world)
    ensures var payable := Payable(q', tx.From(), world);
            tx.nonce in payable && payable[tx.nonce] == tx && tx.nonce < ReadyTo(payable, tx.nonce)
  {
    var payable := Payable(q', tx.From(), world);
    assert tx.nonce in payable.Keys;
    assert forall n | n in payable.Keys :: tx.nonce <= n;
    assert Min(payable.Keys) == tx.nonce;
  }

  /** The transaction is the next one of its account, which is in order, and none has been queued for its nonce. */
  ghost predicate NextIn(x: Slots, world: World, tx: Tx, good: iset<Address>) {
    tx.From() in good && tx.nonce == x.Nonce(world, tx.From()) && tx.nonce !in ItemsOf(x.queue, tx.From())
  }

  /** A local account's next transaction replaces none and is queued. */
  lemma NextQueued(x: Slots, room: Slots, start: Slots, dropped: set<Tx>, known: set<Tx>, locals: set<Address>,
                   world: World, tx: Tx, good: iset<Address>)
    requires AllPlaced(x, world, good) && NextIn(x, world, tx, good) && tx.From() in locals
    requires Cheapest(dropped, known, locals) && TouchedBy(x, room, world, dropped) && Slotted(room, start, tx)
    ensures var a := tx.From();
            && tx.nonce !in ItemsOf(room.pending, a) && tx.nonce !in ItemsOf(room.queue, a)
            && start.Nonce(world, a) == tx.nonce && ItemsOf(start.queue, a) == ItemsOf(x.queue, a)[tx.nonce := tx]
            && Ordered(ItemsOf(x.pending, a), ItemsOf(x.queue, a), world.Nonce(a), tx.nonce)
  {
    var a := tx.From();
    assert PlacedIn(x, world, a, good);
    hide Cheapest, TouchedBy, Slotted;
    LocalUntouched(dropped, known, locals, x, room, world, a);
    SlotQueued(room, start, tx);
  }

  lemma NotOutbid(tx: Tx, bump: nat)
    ensures !OutbidBy(tx, [tx], bump)
  {}

  lemma NotDropped(dropped: set<Tx>, known: set<Tx>, locals: set<Address>, tx: Tx)
    requires Cheapest(dropped, known, locals)
    ensures tx !in known ==> tx !in dropped
  {}

  /** What a full pool drops is not a local account's. */
  lemma LocalUntouched(dropped: set<Tx>, known: set<Tx>, locals: set<Address>, x: Slots, y: Slots, world: World,
                       a: Address)
    requires Cheapest(dropped, known, locals) && a in locals && TouchedBy(x, y, world, dropped)
    ensures Untouched(x, y, world, a) && ItemsOf(y.pending, a) == ItemsOf(x.pending, a)
    ensures ItemsOf(y.queue, a) == ItemsOf(x.queue, a) && y.Nonce(world, a) == x.Nonce(world, a)
  {
    assert Untouched(x, y, world, a);
  }

  // ---- batches ----

  /** What a batch of transactions did: those taken in, those a full pool gave up, the lists before and after the
      promotion that followed, and the accounts of that. */
  datatype Batch = Batch(taken: seq<Tx>, dropped: set<Tx>, start: Slots, mid: Slots, accounts: seq<Address>)

  /** All about a batch of `n` transactions that found the lists `x` and the transactions `known` and left the lists
      `z`.  Before the promotion there is what was known or taken in, less what was dropped, which only a full pool
      does, or outbid; while nothing is dropped only slots are filled.  Then the accounts noted are processed and
      the limits enforced. */
  ghost predicate Batched(x: Slots, known: set<Tx>, n: nat, r: Batch, z: Slots, world: World, locals: set<Address>,
                          c: Config)
  {
    && ListsOk(r.start.pending, true) && ListsOk(r.start.queue, false)
    && (r.dropped == {} ==> Filled(x, r.start, r.taken, Members(r.accounts)))
    && (r.dropped != {} ==> |r.dropped| + c.globalSlots + c.globalQueue <= |known| + n)
    && r.dropped <= known + TxSet(r.taken)
    && (forall t | t in r.taken :: Sound(t, world)) && (forall t | r.start.Has(t) :: t in known || t in r.taken)
    && (forall t | (t in known || t in r.taken) && !r.start.Has(t) ::
          t in r.dropped || OutbidBy(t, r.taken, c.priceBump))
    && if r.accounts == [] then z == r.start
       else
         && ProcessedAll(r.start, r.mid, world, r.accounts, locals, c.accountQueue)
         && Capped(r.mid, z.pending, z.queue, locals, c)
         && (Total(r.mid.pending) <= c.globalSlots ==> z.managed == r.mid.managed)
         && Total(r.mid.pending) <= |known| + n
  }

  /** All but the promotion, told by the transactions known then. */
  ghost predicate Entered(x: Slots, known: set<Tx>, n: nat, r: Batch, now: set<Tx>, world: World, c: Config) {
    && now <= known + TxSet(r.taken) && (forall t | t in r.taken :: Sound(t, world)) && |now| <= |known| + n
    && (r.dropped != {} ==> |r.dropped| + c.globalSlots + c.globalQueue <= |known| + n)
    && r.dropped <= known + TxSet(r.taken)
    && (r.dropped == {} ==> Filled(x, r.start, r.taken, Members(r.accounts)))
    && Accounted(known, r.taken, now, r.dropped, c.priceBump)
  }

  lemma BatchDone(x: Slots, known: set<Tx>, n: nat, r: Batch, now: set<Tx>, z: Slots, world: World,
                  locals: set<Address>,
                  c: Config)
    requires Partition(now, r.start.pending, r.start.queue) && Entered(x, known, n, r, now, world, c)
    requires ListsOk(r.start.pending, true) && ListsOk(r.start.queue, false)
    requires r.accounts == [] ==> z == r.start
    requires r.accounts != [] ==>
               && ProcessedAll(r.start, r.mid, world, r.accounts, locals, c.accountQueue)
               && Capped(r.mid, z.pending, z.queue, locals, c) && Total(r.mid.pending) <= |now|
               && (Total(r.mid.pending) <= c.globalSlots ==> z.managed == r.mid.managed)
    ensures Batched(x, known, n, r, z, world, locals, c)
  {
    hide Filled, Sound, OutbidBy, ProcessedAll, Capped, Total, Holds, ListsOk;
    assert forall t :: t in TxSet(r.taken) <==> t in r.taken;
    assert forall t :: r.start.Has(t) <==> t in now;
  }

  lemma EnteredMid(x: Slots, known: set<Tx>, n: nat, r: Batch, mid: Slots, now: set<Tx>, world: World, c: Config)
    requires Entered(x, known, n, r, now, world, c)
    ensures Entered(x, known, n, r.(mid := mid), now, world, c) && |now| <= |known| + n
  {}

  lemma BatchEnds(x: Slots, known: set<Tx>, n: nat, r: Batch, z: Slots, world: World, locals: set<Address>, c: Config)
    requires Batched(x, known, n, r, z, world, locals, c)
    ensures r.accounts != [] ==> ProcessedAll(r.start, r.mid, world, r.accounts, locals, c.accountQueue)
                                 && Capped(r.mid, z.pending, z.queue, locals, c)
  {}

  /** What is lost by a batch. */
  lemma BatchLoses(x: Slots, known: set<Tx>, n: nat, r: Batch, now: set<Tx>, p: Lists, q: Lists, m: map<Address, nat>,
                   world: World, locals: set<Address>, c: Config)
    requires Batched(x, known, n, r, Slots(p, q, m), world, locals, c) && Partition(now, p, q)
    requires forall a :: Apart(r.start.pending, r.start.queue, a)
    ensures forall t | (t in known || t in r.taken) && t !in now && Sound(t, world) ::
              || t in r.dropped || OutbidBy(t, r.taken, c.priceBump)
              || (r.accounts != [] && Crowded(r.start, r.mid, world, r.accounts, locals, c, t))
  {
    hide Filled, Sound, OutbidBy, ProcessedAll, Capped, Crowded, Apart, ListsOk;
    forall t | (t in known || t in r.taken) && t !in now && Sound(t, world)
      ensures || t in r.dropped || OutbidBy(t, r.taken, c.priceBump)
              || (r.accounts != [] && Crowded(r.start, r.mid, world, r.accounts, locals, c, t))
    {
      if r.start.Has(t) && r.accounts != [] {
        assert Apart(r.start.pending, r.start.queue, t.From());
        LostOnly(r.start, r.mid, p, q, world, r.accounts, locals, c, t);
      }
    }
  }

  /** One of the transactions outbids `x` in its slot. */
  ghost predicate OutbidBy(x: Tx, txs: seq<Tx>, bump: nat) {
    exists t :: t in txs && x.From() == t.From() && x.nonce == t.nonce && Outbids(t, x, bump)
  }

  ghost function Members(s: seq<Address>): set<Address> {
    set a | a in s
  }

  /** While nothing is dropped, a batch only fills slots: pending nonces and virtual nonces stay, and what is queued
      anew are the nonces taken in that are not pending, in the accounts noted. */
  ghost predicate Filled(x: Slots, y: Slots, taken: seq<Tx>, dirty: set<Address>) {
    y.managed == x.managed && forall a :: FilledAt(x, y, taken, a, a in dirty)
  }

  ghost predicate FilledAt(x: Slots, y: Slots, taken: seq<Tx>, a: Address, dirty: bool) {
    && ItemsOf(y.pending, a).Keys == ItemsOf(x.pending, a).Keys
    && (forall n: nat :: n in ItemsOf(y.queue, a) <==>
          n in ItemsOf(x.queue, a) || (n !in ItemsOf(x.pending, a) && Brings(taken, a, n)))
    && (!dirty ==> ItemsOf(y.queue, a).Keys == ItemsOf(x.queue, a).Keys)
  }

  ghost predicate Brings(txs: seq<Tx>, a: Address, n: nat) {
    exists t :: t in txs && t.From() == a && t.nonce == n
  }

  lemma FilledNone(x: Slots)
    ensures Filled(x, x, [], {})
  {}

  lemma FilledNext(x: Slots, y: Slots, z: Slots, taken: seq<Tx>, dirty: set<Address>, tx: Tx, replaced: bool)
    requires Filled(x, y, taken, dirty) && Slotted(y, z, tx)
    requires replaced <==> tx.nonce in ItemsOf(y.pending, tx.From()) || tx.nonce in ItemsOf(y.queue, tx.From())
    ensures Filled(x, z, taken + [tx], if replaced then dirty else dirty + {tx.From()})
  {
    hide FilledAt;
    var dirty' := if replaced then dirty else dirty + {tx.From()};
    forall a ensures FilledAt(x, z, taken + [tx], a, a in dirty') {
      assert FilledAt(x, y, taken, a, a in dirty);
      BringsMore(taken, tx, a);
      if a == tx.From() {
        FilledSlot(x, y, z, taken, tx, a in dirty, replaced);
      } else {
        FilledOther(x, y, z, taken, tx, a, a in dirty);
      }
    }
  }

  /** What local accounts see of a batch, whatever is dropped: only slots are filled. */
  ghost predicate FilledLocals(x: Slots, y: Slots, world: World, taken: seq<Tx>, dirty: set<Address>,
                               locals: set<Address>)
  {
    forall a | a in locals :: FilledAt(x, y, taken, a, a in dirty) && y.Nonce(world, a) == x.Nonce(world, a)
  }

  lemma LocalsTouched(x: Slots, y: Slots, z: Slots, world: World, taken: seq<Tx>, dirty: set<Address>,
                      locals: set<Address>, d: set<Tx>)
    requires FilledLocals(x, y, world, taken, dirty, locals) && TouchedBy(y, z, world, d)
    requires forall t | t in d :: t.From() !in locals
    ensures FilledLocals(x, z, world, taken, dirty, locals)
  {
    hide FilledAt, Untouched, VirtualNonce;
    forall a | a in locals ensures FilledAt(x, z, taken, a, a in dirty) && z.Nonce(world, a) == x.Nonce(world, a) {
      assert FilledAt(x, y, taken, a, a in dirty);
      assert Untouched(y, z, world, a);
      FilledSame(x, y, z, world, taken, a, a in dirty);
    }
  }

  lemma FilledSame(x: Slots, y: Slots, z: Slots, world: World, taken: seq<Tx>, a: Address, dirty: bool)
    requires FilledAt(x, y, taken, a, dirty) && Untouched(y, z, world, a)
    ensures FilledAt(x, z, taken, a, dirty) && y.Nonce(world, a) == z.Nonce(world, a)
  {
    hide Brings;
  }

  lemma LocalsNext(x: Slots, y: Slots, z: Slots, world: World, taken: seq<Tx>, dirty: set<Address>,
                   locals: set<Address>, tx: Tx, replaced: bool)
    requires FilledLocals(x, y, world, taken, dirty, locals) && Slotted(y, z, tx)
    requires replaced <==> tx.nonce in ItemsOf(y.pending, tx.From()) || tx.nonce in ItemsOf(y.queue, tx.From())
    ensures FilledLocals(x, z, world, taken + [tx], if replaced then dirty else dirty + {tx.From()}, locals)
  {
    hide FilledAt;
    var dirty' := if replaced then dirty else dirty + {tx.From()};
    forall a | a in locals
      ensures FilledAt(x, z, taken + [tx], a, a in dirty') && z.Nonce(world, a) == x.Nonce(world, a)
    {
      assert FilledAt(x, y, taken, a, a in dirty);
      BringsMore(taken, tx, a);
      if a == tx.From() {
        FilledSlot(x, y, z, taken, tx, a in dirty, replaced);
      } else {
        FilledOther(x, y, z, taken, tx, a, a in dirty);
      }
    }
  }

  /** What a batch has filled of a local account, or of any in a pool with room. */
  lemma FilledFor(x: Slots, known: set<Tx>, n: nat, r: Batch, z: Slots, world: World, locals0: set<Address>,
                  locals: set<Address>, c: Config, a: Address)
    requires Batched(x, known, n, r, z, world, locals, c)
    requires FilledLocals(x, r.start, world, r.taken, Members(r.accounts), locals0)
    requires a in locals0 || |known| + n <= c.globalSlots
    ensures FilledAt(x, r.start, r.taken, a, a in Members(r.accounts)) && r.start.Nonce(world, a) == x.Nonce(world, a)
  {
    hide FilledAt, VirtualNonce, OutbidBy, Capped, ProcessedAll, Sound, ListsOk, Total, Holds;
  }

  /** The next nonce of a local account, or of any in a pool with room, if one of the batch has it, ends up pending. */
  lemma BatchNext(x: Slots, known: set<Tx>, n: nat, r: Batch, z: Slots, world: World, locals: set<Address>, c: Config,
                  tx: Tx, good: iset<Address>)
    requires AllPlaced(x, world, good) && Partition(known, x.pending, x.queue) && NextIn(x, world, tx, good)
    requires tx in r.taken && (tx.From() in locals || |known| + n <= c.globalSlots)
    requires Batched(x, known, n, r, z, world, locals, c)
    requires var a := tx.From();
             && FilledAt(x, r.start, r.taken, a, a in Members(r.accounts))
             && r.start.Nonce(world, a) == x.Nonce(world, a)
    ensures tx.nonce in ItemsOf(z.pending, tx.From())
  {
    var a := tx.From();
    assert PlacedIn(x, world, a, good);
    hide AllPlaced, Partition, Filled, OutbidBy, Capped, ProcessedAll, Sound, ListsOk, Total, Brings, Holds;
    var s := ItemsOf(r.start.queue, a);
    assert Brings(r.taken, a, tx.nonce) by { BringsIt(r.taken, tx); }
    assert tx.nonce in s && tx.nonce !in ItemsOf(x.pending, a) && a in r.accounts;
    SlotSound(x, known, n, r, z, world, locals, c, a, tx.nonce);
    NoneBefore(ItemsOf(x.pending, a), ItemsOf(x.queue, a), s, r.taken, a, world, tx.nonce);
    ProcessedHere(r.start, r.mid, world, r.accounts, locals, c.accountQueue, a);
    CappedWithin(r.mid, z.pending, z.queue, locals, c);
    CappedSame(r.mid, z.pending, z.queue, locals, c);
    ReadyNext(s, a, world, tx.nonce);
  }

  lemma RoomNext(x: Slots, known: set<Tx>, n: nat, r: Batch, z: Slots, world: World, locals: set<Address>, c: Config,
                 tx: Tx, good: iset<Address>)
    requires AllPlaced(x, world, good) && Partition(known, x.pending, x.queue) && NextIn(x, world, tx, good)
    requires tx in r.taken && |known| + n <= c.globalSlots && Batched(x, known, n, r, z, world, locals, c)
    ensures tx.nonce in ItemsOf(z.pending, tx.From())
  {
    hide AllPlaced, Partition, NextIn, Batched, FilledAt, VirtualNonce, ItemsOf;
    FilledFor(x, known, n, r, z, world, {}, locals, c, tx.From());
    BatchNext(x, known, n, r, z, world, locals, c, tx, good);
  }

  /** A single submission of a next nonce: what it is for a local account, and for any in a pool with room. */
  lemma OneNext(x: Slots, room: Slots, known: set<Tx>, r: Batch, z: Slots, world: World, locals0: set<Address>,
                locals: set<Address>, c: Config, tx: Tx, replaced: bool, good: iset<Address>)
    requires AllPlaced(x, world, good) && Partition(known, x.pending, x.queue) && NextIn(x, world, tx, good)
    requires r.taken == [tx] && r.accounts == (if replaced then [] else [tx.From()]) && Sound(tx, world)
    requires Cheapest(r.dropped, known, locals0) && TouchedBy(x, room, world, r.dropped) && Slotted(room, r.start, tx)
    requires replaced <==> tx.nonce in ItemsOf(room.pending, tx.From()) || tx.nonce in ItemsOf(room.queue, tx.From())
    requires Batched(x, known, 1, r, z, world, locals, c) && locals0 <= locals
    ensures tx.From() in locals0 ==> Holds(z.pending, tx)
    ensures |known| + 1 <= c.globalSlots ==> tx.nonce in ItemsOf(z.pending, tx.From())
  {
    hide AllPlaced, Partition, NextIn, Sound, Cheapest, TouchedBy, Slotted, ItemsOf, Batched, Holds, ProcessedAll,
        Capped, Ordered, VirtualNonce;
    if tx.From() in locals0 {
      NextQueued(x, room, r.start, r.dropped, known, locals0, world, tx, good);
      BatchEnds(x, known, 1, r, z, world, locals, c);
      NextIsPending(x, r.start, r.mid, z.pending, z.queue, world, tx, locals, c);
    }
    if |known| + 1 <= c.globalSlots {
      RoomNext(x, known, 1, r, z, world, locals, c, tx, good);
    }
  }

  lemma BringsIt(txs: seq<Tx>, tx: Tx)
    requires tx in txs
    ensures Brings(txs, tx.From(), tx.nonce)
  {}

  /** What holds a slot that was free before the batch was taken in by it. */
  lemma SlotSound(x: Slots, known: set<Tx>, n: nat, r: Batch, z: Slots, world: World, locals: set<Address>, c: Config,
                  a: Address, nonce: nat)
    requires Batched(x, known, n, r, z, world, locals, c) && Partition(known, x.pending, x.queue)
    requires nonce in ItemsOf(r.start.queue, a)
    requires nonce !in ItemsOf(x.pending, a) && nonce !in ItemsOf(x.queue, a)
    ensures nonce in Payable(ItemsOf(r.start.queue, a), a, world)
  {
    hide Filled, OutbidBy, Capped, ProcessedAll, Total, Sound;
    var t := ItemsOf(r.start.queue, a)[nonce];
    SlotOwner(r.start.queue, a, nonce);
    assert r.start.Has(t);
    assert t !in known;
    InPayable(ItemsOf(r.start.queue, a), a, world, t);
  }

  lemma SlotOwner(q: Lists, a: Address, nonce: nat)
    requires ListsOk(q, false) && nonce in ItemsOf(q, a)
    ensures var t := ItemsOf(q, a)[nonce]; t.From() == a && t.nonce == nonce && Holds(q, t)
  {}

  /** Nothing payable comes before the next nonce of an account that was in order. */
  lemma NoneBefore(p: Items, q: Items, s: Items, taken: seq<Tx>, a: Address, world: World, hi: nat)
    requires Ordered(p, q, world.Nonce(a), hi)
    requires forall n: nat :: n in s <==> n in q || (n !in p && Brings(taken, a, n))
    ensures forall n | n in Payable(s, a, world) :: hi <= n
  {
    hide Brings;
  }

  lemma ReadyNext(s: Items, a: Address, world: World, nonce: nat)
    requires nonce in Payable(s, a, world) && forall n | n in Payable(s, a, world) :: nonce <= n
    ensures var payable := Payable(s, a, world); nonce in Below(payable, ReadyTo(payable, nonce))
  {
    hide Payable;
    var payable := Payable(s, a, world);
    assert nonce in payable.Keys && Min(payable.Keys) == nonce;
  }

  lemma BringsMore(txs: seq<Tx>, tx: Tx, a: Address)
    ensures forall n :: Brings(txs + [tx], a, n) <==> Brings(txs, a, n) || (tx.From() == a && tx.nonce == n)
  {
    assert tx in txs + [tx];
    forall n | Brings(txs, a, n) ensures Brings(txs + [tx], a, n) {
      var t :| t in txs && t.From() == a && t.nonce == n;
      assert t in txs + [tx];
    }
  }

  lemma FilledOther(x: Slots, y: Slots, z: Slots, taken: seq<Tx>, tx: Tx, a: Address, dirty: bool)
    requires FilledAt(x, y, taken, a, dirty) && Slotted(y, z, tx) && a != tx.From()
    requires forall n :: Brings(taken + [tx], a, n) <==> Brings(taken, a, n) || (tx.From() == a && tx.nonce == n)
    ensures FilledAt(x, z, taken + [tx], a, dirty)
  {
    hide Brings;
    SameElsewhere(y.pending, z.pending, tx.From(), a);
    SameElsewhere(y.queue, z.queue, tx.From(), a);
  }

  lemma FilledSlot(x: Slots, y: Slots, z: Slots, taken: seq<Tx>, tx: Tx, dirty: bool, replaced: bool)
    requires FilledAt(x, y, taken, tx.From(), dirty) && Slotted(y, z, tx)
    requires replaced <==> tx.nonce in ItemsOf(y.pending, tx.From()) || tx.nonce in ItemsOf(y.queue, tx.From())
    requires var a := tx.From();
             forall n :: Brings(taken + [tx], a, n) <==> Brings(taken, a, n) || tx.nonce == n
    ensures FilledAt(x, z, taken + [tx], tx.From(), if replaced then dirty else true)
  {
    hide Brings;
    var a := tx.From();
    assert forall n :: n in ItemsOf(y.pending, a) <==> n in ItemsOf(y.pending, a).Keys;
    assert forall n :: n in ItemsOf(x.pending, a) <==> n in ItemsOf(x.pending, a).Keys;
    assert tx.nonce in ItemsOf(y.pending, a) <==> tx.nonce in ItemsOf(x.pending, a);
    if tx.nonce !in ItemsOf(y.pending, a) {
      SlotQueued(y, z, tx);
    } else {
      assert ItemsOf(z.pending, a).Keys == ItemsOf(y.pending, a).Keys;
    }
  }

  /** Every transaction known before or taken in is still there, or was dropped or outbid. */
  ghost predicate Accounted(known: set<Tx>, taken: seq<Tx>, now: set<Tx>, dropped: set<Tx>, bump: nat) {
    forall x | (x in known || x in taken) && x !in now :: x in dropped || OutbidBy(x, taken, bump)
  }

  lemma OutbidMore(x: Tx, txs: seq<Tx>, tx: Tx, bump: nat)
    requires OutbidBy(x, txs, bump) || (x.From() == tx.From() && x.nonce == tx.nonce && Outbids(tx, x, bump))
    ensures OutbidBy(x, txs + [tx], bump)
  {
    if OutbidBy(x, txs, bump) {
      var t :| t in txs && x.From() == t.From() && x.nonce == t.nonce && Outbids(t, x, bump);
      assert t in txs + [tx];
    } else {
      assert tx in txs + [tx];
    }
  }

  lemma AccountedTook(known: set<Tx>, taken: seq<Tx>, now: set<Tx>, dropped: set<Tx>, bump: nat, tx: Tx, d: set<Tx>,
                      victim: Option<Tx>)
    requires Accounted(known, taken, now, dropped, bump)
    requires victim.Some? ==> victim.value.From() == tx.From() && victim.value.nonce == tx.nonce
                              && Outbids(tx, victim.value, bump)
    ensures Accounted(known, taken + [tx], Replace(now - d, victim, tx), dropped + d, bump)
  {
    hide OutbidBy, Outbids;
    var now' := Replace(now - d, victim, tx);
    forall x | (x in known || x in taken + [tx]) && x !in now'
      ensures x in dropped + d || OutbidBy(x, taken + [tx], bump)
    {
      assert x != tx;
      if x !in dropped + d {
        OutbidMore(x, taken, tx, bump);
      }
    }
  }

  /** How far a batch has got. */
  ghost predicate Adding(known: set<Tx>, now: set<Tx>, x: Slots, y: Slots, taken: seq<Tx>, dropped: set<Tx>,
                         dirty: set<Address>, i: nat, world: World, locals: set<Address>, cap: nat, bump: nat)
  {
    && now <= known + TxSet(taken) && (forall tx | tx in taken :: Sound(tx, world))
    && |now| + |dropped| <= |known| + i && (forall d | d in dropped :: d.From() !in locals)
    && (dropped != {} ==> |dropped| + cap <= |known| + i) && (dropped == {} ==> Filled(x, y, taken, dirty))
    && dropped <= known + TxSet(taken) && Accounted(known, taken, now, dropped, bump)
    && FilledLocals(x, y, world, taken, dirty, locals) && Spared(x, y, world, taken, locals, dropped)
    && forall a | a in dirty :: Sends(taken, a)
  }

  ghost predicate Sends(txs: seq<Tx>, a: Address) {
    exists t :: t in txs && t.From() == a
  }

  lemma SendsMore(txs: seq<Tx>, tx: Tx)
    ensures forall a :: Sends(txs + [tx], a) <==> Sends(txs, a) || tx.From() == a
  {
    assert tx in txs + [tx];
    forall a | Sends(txs, a) ensures Sends(txs + [tx], a) {
      var t :| t in txs && t.From() == a;
      assert t in txs + [tx];
    }
  }

  /** What becomes of an account that a batch has nothing for: its pending list can only be cut, and not even that if
      it is `kept`. */
  ghost predicate SparedAt(x: Slots, y: Slots, world: World, a: Address, kept: bool) {
    CurtailedAt(x, y, world, a) && (kept ==> ItemsOf(y.pending, a) == ItemsOf(x.pending, a))
  }

  /** That holds for all of them; kept are local accounts, and all while nothing is dropped. */
  ghost predicate Spared(x: Slots, y: Slots, world: World, taken: seq<Tx>, locals: set<Address>, dropped: set<Tx>) {
    forall a | !Sends(taken, a) :: SparedAt(x, y, world, a, a in locals || dropped == {})
  }

  lemma SparedCurtails(x: Slots, y: Slots, world: World, a: Address, kept: bool)
    requires SparedAt(x, y, world, a, kept)
    ensures CurtailedAt(x, y, world, a)
  {}

  lemma SparedThen(x: Slots, y: Slots, z: Slots, world: World, a: Address, kept: bool, kept': bool)
    requires SparedAt(x, y, world, a, kept) && SparedAt(y, z, world, a, kept')
    ensures SparedAt(x, z, world, a, kept && kept')
  {
    hide CurtailedAt;
    CurtailedThen(x, y, z, world, a);
  }

  lemma SparedSame(x: Slots, y: Slots, world: World, a: Address, kept: bool)
    requires ItemsOf(y.pending, a) == ItemsOf(x.pending, a) && y.Nonce(world, a) == x.Nonce(world, a)
    ensures SparedAt(x, y, world, a, kept)
  {}

  lemma SparedDrop(x: Slots, y: Slots, z: Slots, world: World, taken: seq<Tx>, locals: set<Address>, dropped: set<Tx>,
                   d: set<Tx>)
    requires Spared(x, y, world, taken, locals, dropped) && AllCurtailed(y, z, world) && TouchedBy(y, z, world, d)
    requires (d == {} ==> z == y) && forall t | t in d :: t.From() !in locals
    ensures Spared(x, z, world, taken, locals, dropped + d)
  {
    hide CurtailedAt, Untouched, VirtualNonce, Sends;
    forall a | !Sends(taken, a) ensures SparedAt(x, z, world, a, a in locals || dropped + d == {}) {
      assert CurtailedAt(y, z, world, a) && SparedAt(x, y, world, a, a in locals || dropped == {});
      if a in locals {
        assert Untouched(y, z, world, a);
        SameItems(y, z, world, a);
      }
      assert dropped + d == {} ==> dropped == {} && d == {};
      CurtailedThen(x, y, z, world, a);
    }
  }

  lemma SameItems(x: Slots, y: Slots, world: World, a: Address)
    requires Untouched(x, y, world, a)
    ensures ItemsOf(y.pending, a) == ItemsOf(x.pending, a) && y.Nonce(world, a) == x.Nonce(world, a)
    ensures ItemsOf(y.queue, a) == ItemsOf(x.queue, a)
  {}

  lemma SparedSlot(x: Slots, y: Slots, z: Slots, world: World, taken: seq<Tx>, locals: set<Address>, dropped: set<Tx>,
                   tx: Tx)
    requires Spared(x, y, world, taken, locals, dropped) && Slotted(y, z, tx)
    ensures Spared(x, z, world, taken + [tx], locals, dropped)
  {
    hide SparedAt, Sends, VirtualNonce;
    SendsMore(taken, tx);
    forall a | !Sends(taken + [tx], a) ensures SparedAt(x, z, world, a, a in locals || dropped == {}) {
      var kept := a in locals || dropped == {};
      SameElsewhere(y.pending, z.pending, tx.From(), a);
      SparedSame(y, z, world, a, kept);
      SparedThen(x, y, z, world, a, kept, kept);
    }
  }

  /** The whole of a batch, for an account that it has nothing for. */
  lemma BatchSpares(x: Slots, known: set<Tx>, n: nat, r: Batch, z: Slots, world: World, locals0: set<Address>,
                    locals: set<Address>, c: Config, a: Address)
    requires Batched(x, known, n, r, z, world, locals, c) && Spared(x, r.start, world, r.taken, locals0, r.dropped)
    requires r.accounts != [] ==> AllCurtailed(r.mid, z, world)
    requires locals0 <= locals && !Sends(r.taken, a) && (forall b | b in r.accounts :: Sends(r.taken, b))
    ensures SparedAt(x, z, world, a, a in locals0 || |known| + n <= c.globalSlots)
  {
    hide Filled, Sound, OutbidBy, ProcessedAll, Capped, Total, Holds, ListsOk, CurtailedAt, Sends, Untouched,
        VirtualNonce;
    var kept := a in locals0 || |known| + n <= c.globalSlots;
    assert SparedAt(x, r.start, world, a, a in locals0 || r.dropped == {});
    if r.accounts != [] {
      ProcessedHere(r.start, r.mid, world, r.accounts, locals, c.accountQueue, a);
      SameItems(r.start, r.mid, world, a);
      SparedSame(r.start, r.mid, world, a, kept);
      SparedThen(x, r.start, r.mid, world, a, a in locals0 || r.dropped == {}, kept);
      assert CurtailedAt(r.mid, z, world, a);
      CappedSame(r.mid, z.pending, z.queue, locals, c);
      CappedWithin(r.mid, z.pending, z.queue, locals, c);
      SparedThen(x, r.mid, z, world, a, kept, kept);
    }
  }

  lemma AddingNone(known: set<Tx>, x: Slots, world: World, locals: set<Address>, cap: nat, bump: nat)
    ensures Adding(known, known, x, x, [], {}, {}, 0, world, locals, cap, bump)
  {
    FilledNone(x);
    hide VirtualNonce, Curtailed;
    forall a ensures SparedAt(x, x, world, a, true) {
      Uncut(ItemsOf(x.pending, a), x.Nonce(world, a));
    }
  }

  lemma AddingTook(known: set<Tx>, now: set<Tx>, x: Slots, y: Slots, taken: seq<Tx>, dropped: set<Tx>,
                   dirty: set<Address>, i: nat, world: World, locals: set<Address>, cap: nat, bump: nat, tx: Tx,
                   d: set<Tx>, victim: Option<Tx>, room: Slots, z: Slots, replaced: bool)
    requires Adding(known, now, x, y, taken, dropped, dirty, i, world, locals, cap, bump)
    requires (d != {} ==> |d| + cap <= |now| + 1) && (forall t | t in d :: t.From() !in locals)
    requires (d == {} ==> room == y) && d <= now
    requires victim.Some? ==> victim.value.From() == tx.From() && victim.value.nonce == tx.nonce
                              && Outbids(tx, victim.value, bump)
    requires Sound(tx, world) && Slotted(room, z, tx) && TouchedBy(y, room, world, d) && AllCurtailed(y, room, world)
    requires replaced <==> tx.nonce in ItemsOf(room.pending, tx.From()) || tx.nonce in ItemsOf(room.queue, tx.From())
    ensures Adding(known, Replace(now - d, victim, tx), x, z, taken + [tx], dropped + d,
                   if replaced then dirty else dirty + {tx.From()}, i + 1, world, locals, cap, bump)
  {
    hide Filled, FilledLocals, Accounted, Slotted, Sound, Outbids, TxSet, TouchedBy, ItemsOf, Spared, AllCurtailed,
        Sends, Replace;
    SetsTook(known, now, taken, dropped, i, cap, tx, d, victim);
    SendsMore(taken, tx);
    SparedDrop(x, y, room, world, taken, locals, dropped, d);
    SparedSlot(x, room, z, world, taken, locals, dropped + d, tx);
    LocalsTouched(x, y, room, world, taken, dirty, locals, d);
    LocalsNext(x, room, z, world, taken, dirty, locals, tx, replaced);
    var now', dirty' := Replace(now - d, victim, tx), if replaced then dirty else dirty + {tx.From()};
    AccountedTook(known, taken, now, dropped, bump, tx, d, victim);
    if dropped == {} && d == {} {
      FilledNext(x, y, z, taken, dirty, tx, replaced);
    }
  }

  lemma SetsTook(known: set<Tx>, now: set<Tx>, taken: seq<Tx>, dropped: set<Tx>, i: nat, cap: nat, tx: Tx, d: set<Tx>,
                 victim: Option<Tx>)
    requires now <= known + TxSet(taken) && |now| + |dropped| <= |known| + i && d <= now
    requires dropped <= known + TxSet(taken)
    requires (dropped != {} ==> |dropped| + cap <= |known| + i) && (d != {} ==> |d| + cap <= |now| + 1)
    ensures var now' := Replace(now - d, victim, tx);
            && now' <= known + TxSet(taken + [tx]) && |now'| + |dropped + d| <= |known| + i + 1
            && dropped + d <= known + TxSet(taken + [tx])
            && (dropped + d != {} ==> |dropped + d| + cap <= |known| + i + 1)
            && (dropped + d == {} <==> dropped == {} && d == {})
  {
    hide TxSet;
    MoreTaken(taken, tx);
    MoreDropped(known, now, dropped, i, cap, d);
    OneMore(now - d, Replace(now - d, victim, tx), tx);
  }

  /** No more is dropped than has become too many. */
  lemma MoreDropped(known: set<Tx>, now: set<Tx>, dropped: set<Tx>, i: nat, cap: nat, d: set<Tx>)
    requires |now| + |dropped| <= |known| + i && d <= now
    requires (dropped != {} ==> |dropped| + cap <= |known| + i) && (d != {} ==> |d| + cap <= |now| + 1)
    ensures |now - d| == |now| - |d| && |now - d| + |dropped + d| <= |known| + i
    ensures dropped + d != {} ==> |dropped + d| + cap <= |known| + i + 1
  {
    Without(now, d);
    Together(dropped, d);
  }

  lemma Without(a: set<Tx>, b: set<Tx>)
    requires b <= a
    ensures |a - b| == |a| - |b|
  {
    assert a == (a - b) + b;
  }

  lemma Together(a: set<Tx>, b: set<Tx>)
    ensures |a + b| <= |a| + |b|
  {
    assert a + b == a + (b - a);
    Fewer(b - a, b);
  }

  lemma MoreTaken(taken: seq<Tx>, tx: Tx)
    ensures TxSet(taken + [tx]) == TxSet(taken) + {tx}
  {}

  lemma OneMore(now: set<Tx>, now': set<Tx>, tx: Tx)
    requires now' <= now + {tx}
    ensures |now'| <= |now| + 1
  {
    assert now + {tx} == now' + (now + {tx} - now');
  }

  lemma AddingRefused(known: set<Tx>, now: set<Tx>, x: Slots, y: Slots, taken: seq<Tx>, dropped: set<Tx>,
                      dirty: set<Address>, i: nat, world: World, locals: set<Address>, cap: nat, bump: nat, d: set<Tx>,
                      z: Slots)
    requires Adding(known, now, x, y, taken, dropped, dirty, i, world, locals, cap, bump)
    requires (d != {} ==> |d| + cap <= |now| + 1) && (forall t | t in d :: t.From() !in locals)
    requires (d == {} ==> z == y) && d <= now && TouchedBy(y, z, world, d) && AllCurtailed(y, z, world)
    ensures Adding(known, now - d, x, z, taken, dropped + d, dirty, i + 1, world, locals, cap, bump)
  {
    hide Filled, FilledLocals, Sound, Accounted, TouchedBy, Spared, AllCurtailed, Sends;
    SparedDrop(x, y, z, world, taken, locals, dropped, d);
    LocalsTouched(x, y, z, world, taken, dirty, locals, d);
    AccountedRefused(known, taken, now, dropped, bump, d);
    MoreDropped(known, now, dropped, i, cap, d);
    assert dropped + d == {} ==> dropped == {} && d == {};
  }

  lemma FewerLeft(now: set<Tx>, d: set<Tx>)
    ensures |now - d| <= |now|
  {
    assert now == (now - d) + (now * d);
  }

  lemma AccountedRefused(known: set<Tx>, taken: seq<Tx>, now: set<Tx>, dropped: set<Tx>, bump: nat, d: set<Tx>)
    requires Accounted(known, taken, now, dropped, bump)
    ensures Accounted(known, taken, now - d, dropped + d, bump)
  {
    hide OutbidBy;
  }

  lemma AddingEnds(known: set<Tx>, now: set<Tx>, x: Slots, y: Slots, taken: seq<Tx>, dropped: set<Tx>,
                   dirty: set<Address>, n: nat, world: World, locals: set<Address>, c: Config, accounts: seq<Address>)
    requires var cap := c.globalSlots + c.globalQueue;
             Adding(known, now, x, y, taken, dropped, dirty, n, world, locals, cap, c.priceBump)
    requires forall a :: a in accounts <==> a in dirty
    ensures Entered(x, known, n, Batch(taken, dropped, y, y, accounts), now, world, c)
    ensures FilledLocals(x, y, world, taken, Members(accounts), locals)
    ensures now <= known + TxSet(taken) && |now| <= |known| + n && forall d | d in dropped :: d.From() !in locals
    ensures forall tx | tx in taken :: Sound(tx, world)
    ensures Spared(x, y, world, taken, locals, dropped) && forall a | a in accounts :: Sends(taken, a)
  {
    hide Filled, FilledLocals, Accounted, Sound, Spared, Sends;
    assert Members(accounts) == dirty;
  }

  /** A single transaction that was taken in. */
  lemma EnteredOne(known: set<Tx>, x: Slots, room: Slots, r: Batch, tx: Tx, victim: Option<Tx>, replaced: bool,
                   world: World, locals: set<Address>, c: Config)
    requires r.taken == [tx] && r.mid == r.start && r.accounts == if replaced then [] else [tx.From()]
    requires Cheapest(r.dropped, known, locals) && TouchedBy(x, room, world, r.dropped) && AllCurtailed(x, room, world)
    requires r.dropped == {} ==> room == x
    requires r.dropped != {} ==> |r.dropped| + c.globalSlots + c.globalQueue <= |known| + 1
    requires victim.Some? ==> victim.value.From() == tx.From() && victim.value.nonce == tx.nonce
                              && Outbids(tx, victim.value, c.priceBump)
    requires Sound(tx, world) && Slotted(room, r.start, tx)
    requires replaced <==> tx.nonce in ItemsOf(room.pending, tx.From()) || tx.nonce in ItemsOf(room.queue, tx.From())
    ensures var now := Replace(known - r.dropped, victim, tx);
            && Entered(x, known, 1, r, now, world, c) && tx in now && now <= known + {tx} && now <= known + TxSet([tx])
  {
    hide Adding, Slotted, Sound, Entered, Cheapest, Outbids, ItemsOf, TouchedBy, AllCurtailed, Spared;
    var cap, bump := c.globalSlots + c.globalQueue, c.priceBump;
    var now, dirty := Replace(known - r.dropped, victim, tx), if replaced then {} else {tx.From()};
    DroppedRemote(r.dropped, known, locals, locals);
    AddingNone(known, x, world, locals, cap, bump);
    AddingTook(known, known, x, x, [], {}, {}, 0, world, locals, cap, bump, tx, r.dropped, victim, room, r.start,
        replaced);
    assert {} + r.dropped == r.dropped && [] + [tx] == [tx] && {} + {tx.From()} == {tx.From()};
    AddingEnds(known, now, x, r.start, [tx], r.dropped, dirty, 1, world, locals, c, r.accounts);
  }

  /** A single transaction, taken in or not. */
  lemma EnteredEither(known: set<Tx>, x: Slots, room: Slots, r: Batch, tx: Tx, victim: Option<Tx>, replaced: bool,
                      now: set<Tx>, world: World, locals: set<Address>, c: Config)
    requires r.mid == r.start && Cheapest(r.dropped, known, locals) && TouchedBy(x, room, world, r.dropped)
    requires AllCurtailed(x, room, world) && (r.dropped == {} ==> room == x)
    requires r.dropped != {} ==> |r.dropped| + c.globalSlots + c.globalQueue <= |known| + 1
    requires victim.Some? ==> victim.value.From() == tx.From() && victim.value.nonce == tx.nonce
                              && Outbids(tx, victim.value, c.priceBump)
    requires if r.taken == [tx] then
               && r.accounts == (if replaced then [] else [tx.From()]) && now == Replace(known - r.dropped, victim, tx)
               && Sound(tx, world) && Slotted(room, r.start, tx)
               && (replaced <==> tx.nonce in ItemsOf(room.pending, tx.From())
                                 || tx.nonce in ItemsOf(room.queue, tx.From()))
             else r.taken == [] && r.accounts == [] && r.start == room && now == known - r.dropped
    ensures Entered(x, known, 1, r, now, world, c) && now <= known + {tx} && now <= known + TxSet(r.taken)
    ensures r.taken == [tx] ==> tx in now
  {
    hide Slotted, Sound, Entered, Cheapest, Outbids, ItemsOf, TouchedBy, AllCurtailed, TxSet;
    if r.taken == [tx] {
      EnteredOne(known, x, room, r, tx, victim, replaced, world, locals, c);
    } else {
      EnteredNone(known, x, r, world, locals, c);
    }
  }

  /** A single transaction that was not. */
  lemma EnteredNone(known: set<Tx>, x: Slots, r: Batch, world: World, locals: set<Address>, c: Config)
    requires r.taken == [] && r.mid == r.start && r.accounts == [] && (r.dropped == {} ==> r.start == x)
    requires TouchedBy(x, r.start, world, r.dropped) && AllCurtailed(x, r.start, world)
    requires Cheapest(r.dropped, known, locals)
    requires r.dropped != {} ==> |r.dropped| + c.globalSlots + c.globalQueue <= |known| + 1
    ensures Entered(x, known, 1, r, known - r.dropped, world, c) && known - r.dropped <= known + TxSet([])
  {
    hide Adding, Sound, Entered, Cheapest, TouchedBy, AllCurtailed, Spared;
    var cap, bump := c.globalSlots + c.globalQueue, c.priceBump;
    DroppedRemote(r.dropped, known, locals, locals);
    AddingNone(known, x, world, locals, cap, bump);
    AddingRefused(known, known, x, x, [], {}, {}, 0, world, locals, cap, bump, r.dropped, r.start);
    assert {} + r.dropped == r.dropped;
    AddingEnds(known, known - r.dropped, x, r.start, [], r.dropped, {}, 1, world, locals, c, []);
  }

  lemma StillKnown(known: set<Tx>, now: set<Tx>, taken: seq<Tx>, i: nat, x: Slots, y: Slots, dropped: set<Tx>,
                   dirty: set<Address>, world: World, locals: set<Address>, cap: nat, bump: nat)
    requires Adding(known, now, x, y, taken, dropped, dirty, i, world, locals, cap, bump)
    ensures now <= known + TxSet(taken) && |now| <= |known| + i
  {
    hide Filled, FilledLocals, Accounted, Sound, Spared;
  }

  // ---- the size of the pool ----

  /** The pool is within its limit, or holds no more than one remote transaction. */
  ghost predicate LimitedTo(now: set<Tx>, locals: set<Address>, cap: nat) {
    |now| <= cap || forall s, t | s in now && t in now && s.From() !in locals && t.From() !in locals :: s == t
  }

  /** Those of the transactions that are in the lists. */
  ghost function Found(x: Slots, among: set<Tx>): set<Tx> {
    set t | t in among && x.Has(t)
  }

  lemma FoundAll(x: Slots, among: set<Tx>, all: set<Tx>)
    requires Partition(all, x.pending, x.queue) && all <= among
    ensures Found(x, among) == all && forall t | t in all :: x.Has(t)
  {
    hide Holds;
  }

  lemma LimitedLess(now: set<Tx>, now': set<Tx>, locals: set<Address>, locals': set<Address>, cap: nat)
    requires LimitedTo(now, locals, cap) && now' <= now && locals <= locals'
    ensures LimitedTo(now', locals', cap)
  {
    Fewer(now', now);
  }

  lemma LimitedAfter(now: set<Tx>, now': set<Tx>, locals: set<Address>, locals': set<Address>, d: set<Tx>,
                     victim: Option<Tx>, tx: Tx, taken: bool, cap: nat)
    requires LimitedTo(now, locals, cap) && locals <= locals' && d <= now && (forall t | t in d :: t.From() !in locals)
    requires taken ==> now' == Replace(now - d, victim, tx)
                       && (|now| >= cap ==> d != {} || forall t | t in now :: t.From() in locals)
    requires !taken ==> now' <= now
    ensures LimitedTo(now', locals', cap)
  {
    hide LimitedTo, Replace;
    if taken {
      LimitedNext(now, locals, locals', d, victim, tx, cap);
    } else {
      LimitedLess(now, now', locals, locals', cap);
    }
  }

  /** A full pool gives up a remote transaction, if it has one, for every transaction that it takes in. */
  lemma LimitedNext(now: set<Tx>, locals: set<Address>, locals': set<Address>, d: set<Tx>, victim: Option<Tx>, tx: Tx,
                    cap: nat)
    requires LimitedTo(now, locals, cap) && locals <= locals' && d <= now && (forall t | t in d :: t.From() !in locals)
    requires |now| >= cap ==> d != {} || forall t | t in now :: t.From() in locals
    ensures LimitedTo(Replace(now - d, victim, tx), locals', cap)
  {
    var now' := Replace(now - d, victim, tx);
    OneMore(now - d, now', tx);
    FewerLeft(now, d);
    if d != {} {
      var t :| t in d;
      assert now - d <= now - {t};
      Fewer(now - d, now - {t});
    }
  }

  lemma NoAccounts(accounts: seq<Address>, dirty: set<Address>)
    requires forall a :: a in accounts <==> a in dirty
    ensures accounts == [] <==> dirty == {}
  {
    if accounts != [] {
      assert accounts[0] in dirty;
    }
  }

  lemma FitStill(known: set<Tx>, taken: seq<Tx>, now: set<Tx>, world: World)
    requires now <= known + TxSet(taken) && forall tx | tx in taken :: Sound(tx, world)
    ensures (forall tx | tx in known :: Sound(tx, world)) ==> forall tx | tx in now :: Sound(tx, world)
  {
    hide Sound;
  }

  lemma DroppedRemote(dropped: set<Tx>, known: set<Tx>, locals: set<Address>, locals0: set<Address>)
    requires Cheapest(dropped, known, locals) && locals0 <= locals
    ensures dropped <= known && forall d | d in dropped :: d.From() !in locals0
  {}

  /** The pending lists hold no more than the transactions known. */
  lemma TotalAtMost(p: Lists, q: Lists, all: set<Tx>, known: set<Tx>)
    requires ListsOk(p, true) && Partition(all, p, q) && all <= known
    ensures Total(p) <= |known|
  {
    assert forall tx | Holds(p, tx) :: tx in known;
    HeldAtMost(p, known);
  }

  lemma {:induction false} HeldAtMost(p: Lists, known: set<Tx>)
    requires ListsOk(p, true) && forall tx | Holds(p, tx) :: tx in known
    ensures Total(p) <= |known|
    decreases |p|
  {
    hide Total;
    if p.Keys == {} {
      NoLists(p);
    } else {
      var a :| a in p.Keys;
      var b := TotalStep(p, a);
      var own := p[b].items.Values;
      OwnSize(p[b].items);
      assert (p - {b}).Keys == p.Keys - {b};
      forall tx ensures (tx in own ==> Holds(p, tx) && tx.From() == b) && (Holds(p - {b}, tx) ==> tx in known - own) {
        OwnHeld(p, b, tx);
      }
      HeldAtMost(p - {b}, known - own);
      assert known == own + (known - own);
    }
  }

  lemma OwnHeld(p: Lists, b: Address, tx: Tx)
    requires ListsOk(p, true) && b in p
    ensures tx in p[b].items.Values ==> Holds(p, tx) && tx.From() == b
    ensures Holds(p - {b}, tx) ==> Holds(p, tx) && tx.From() != b
  {
    if tx in p[b].items.Values {
      var n :| n in p[b].items && p[b].items[n] == tx;
    }
  }

  lemma NoLists(p: Lists)
    requires p.Keys == {}
    ensures Total(p) == 0
  {}

  lemma {:induction false} OwnSize(m: Items)
    requires WellKeyed(m)
    ensures |m.Values| == |m|
    decreases |m|
  {
    if m.Keys == {} {
      assert m.Values == {};
    } else {
      var k :| k in m.Keys;
      var rest := m - {k};
      assert rest.Keys == m.Keys - {k};
      OwnSize(rest);
      OneValue(m, k);
    }
  }

  lemma OneValue(m: Items, k: nat)
    requires WellKeyed(m) && k in m
    ensures m.Values == (m - {k}).Values + {m[k]} && m[k] !in (m - {k}).Values
  {
    var rest := m - {k};
    forall tx ensures tx in m.Values <==> tx in rest.Values || tx == m[k] {
      if tx in m.Values {
        var n :| n in m && m[n] == tx;
        assert n != k ==> n in rest && rest[n] == tx;
      }
      if tx in rest.Values {
        var n :| n in rest && rest[n] == tx;
        assert n in m && m[n] == tx;
      }
    }
  }

  // ---- the demotion of pending lists after a head change ----

  /** The list has transactions, but not the next one to execute. */
  predicate Gapped(m: Items, nonce: nat) {
    m.Keys != {} && nonce !in m
  }

  /** Pending transactions go back to the queue. */
  lemma BackFacts(all: set<Tx>, p: Lists, q: Lists, q': Lists, a: Address, l: List)
    requires ListsOk(p, true) && Partition(all, p, q) && Apart(p, q, a)
    requires a in p && ListOk(l, a, true) && Sub(l.items, p[a].items)
    requires SameBut(q, q', a) && ItemsOf(q', a) == ItemsOf(q, a) + (p[a].items - l.items.Keys)
    ensures ListsOk(p[a := l], true) && SameBut(p, p[a := l], a) && Partition(all, p[a := l], q')
            && Apart(p[a := l], q', a)
  {
    var p' := p[a := l];
    forall x: Tx | x.From() == a ensures x in all <==> Holds(p', x) || Holds(q', x) {
      assert x in all <==> Holds(p, x) || Holds(q, x);
    }
    PartitionMoves(all, p, q, p', q', a, all);
  }

  lemma BackOwned(all: set<Tx>, p: Lists, q: Lists, a: Address, l: List)
    requires ListsOk(p, true) && Partition(all, p, q) && Apart(p, q, a) && a in p
    ensures var m := p[a].items - l.items.Keys;
            WellKeyed(m) && Owned(m, a) && m.Keys !! ItemsOf(q, a).Keys && forall n | n in m :: m[n] in all
  {}

  /** The list between the two steps of a strict filter: the transactions that exceed the limits are out, the
      ones they invalidate still in. */
  function Unfiltered(f: Filtered): List {
    f.list.(items := f.list.items + f.invalids)
  }

  lemma UnfilteredOk(l: List, a: Address, cost: int, gas: nat)
    requires ListOk(l, a, true)
    ensures ListOk(Unfiltered(Filter(l, cost, gas)), a, true)
  {
    var f := Filter(l, cost, gas);
    var m := f.list.items + f.invalids;
    forall n | n in m ensures n in l.items && m[n] == l.items[n] && m[n].Cost() <= f.list.costcap
        && m[n].gas <= f.list.gascap {
    }
  }

  lemma FilterSteps(l: List, a: Address, cost: int, gas: nat)
    requires ListOk(l, a, true)
    ensures var f := Filter(l, cost, gas);
            && ListOk(Unfiltered(f), a, true) && Sub(Unfiltered(f).items, l.items)
            && ListOk(f.list, a, true) && Sub(f.list.items, Unfiltered(f).items)
            && Unfiltered(f).items - f.list.items.Keys == f.invalids
  {
    hide ListOk, Sub, Filter, Unfiltered;
    FilterOk(l, a, true, cost, gas);
    UnfilteredOk(l, a, cost, gas);
    UnfilteredSub(l, a, cost, gas);
  }

  lemma UnfilteredSub(l: List, a: Address, cost: int, gas: nat)
    requires ListOk(l, a, true)
    ensures var f := Filter(l, cost, gas);
            && Sub(Unfiltered(f).items, l.items) && Sub(f.list.items, Unfiltered(f).items)
            && Unfiltered(f).items - f.list.items.Keys == f.invalids
  {
    hide Filter, Scan, Bounded, Owned, Split3, Sub, Unfiltered;
    FilterIsScan(l, cost, gas);
    ScanSplits(l, cost, gas);
    SplitSub(l.items, Filter(l, cost, gas));
  }

  lemma SplitSub(m: Items, f: Filtered)
    requires Split3(m, f.list.items, f.removed, f.invalids)
    ensures Sub(Unfiltered(f).items, m) && Sub(f.list.items, Unfiltered(f).items)
    ensures Unfiltered(f).items - f.list.items.Keys == f.invalids
  {}

  /** What a new state leaves of a pending list: nonces from the state nonce on, within balance and gas limit. */
  function AfterHead(l: List, a: Address, world: World): Filtered {
    Filter(Forward(l, world.Nonce(a)), world.Balance(a), world.maxGas)
  }

  lemma EmptyListOk(l: List, a: Address)
    requires ListOk(l, a, true)
    ensures ListOk(l.(items := map[]), a, true) && Sub(map[], l.items)
    ensures l.items - l.(items := map[]).items.Keys == l.items
  {}

  lemma SubApart(p: Lists, q: Lists, a: Address, l: List)
    requires Apart(p, q, a) && a in p && Sub(l.items, p[a].items)
    ensures Apart(p[a := l], q, a)
  {}

  /** What a new state makes of the lists of an account: included and unpayable pending transactions go, those
      after an unpayable one return to the queue, and if there is then a gap in front so does everything. */
  ghost predicate Demoted(p: Lists, q: Lists, p': Lists, q': Lists, a: Address, world: World) {
    if a !in p then SameAt(p, p', a) && SameAt(q, q', a)
    else
      var f := AfterHead(p[a], a, world);
      && (a in p' ==> p'[a].items.Keys != {})
      && if Gapped(f.list.items, world.Nonce(a)) then
           ItemsOf(p', a) == map[] && ItemsOf(q', a) == ItemsOf(q, a) + f.invalids + f.list.items
         else ItemsOf(p', a) == f.list.items && ItemsOf(q', a) == ItemsOf(q, a) + f.invalids
  }

  lemma DemotedOther(p: Lists, q: Lists, p': Lists, q': Lists, p'': Lists, q'': Lists, a: Address, b: Address,
                     world: World)
    requires Demoted(p, q, p', q', b, world) && b != a && SameBut(p', p'', a) && SameBut(q', q'', a)
    ensures Demoted(p, q, p'', q'', b, world)
  {
    hide AfterHead, Gapped;
    SameElsewhere(p', p'', a, b);
    SameElsewhere(q', q'', a, b);
  }

  lemma NoneDemoted(p: Lists, q: Lists, world: World)
    ensures forall a | a !in p :: Demoted(p, q, p, q, a, world)
    ensures forall a | a in p :: SameAt(p, p, a) && SameAt(q, q, a)
  {}

  lemma StillApart(p: Lists, q: Lists, p': Lists, q': Lists, a: Address)
    requires Apart(p, q, a) && SameAt(p, p', a) && SameAt(q, q', a)
    ensures Apart(p', q', a) && (a in p <==> a in p')
  {}

  /** One more account has been dealt with. */
  lemma DemotedOthers(p0: Lists, q0: Lists, p: Lists, q: Lists, p': Lists, q': Lists, accounts: seq<Address>, i: nat,
                      world: World)
    requires i < |accounts| && E.Distinct(accounts) && SameBut(p, p', accounts[i]) && SameBut(q, q', accounts[i])
    requires forall a | a in accounts[i..] :: SameAt(p0, p, a) && SameAt(q0, q, a)
    requires forall a | a !in accounts[i..] :: Demoted(p0, q0, p, q, a, world)
    ensures forall a | a in accounts[i + 1..] :: SameAt(p0, p', a) && SameAt(q0, q', a)
    ensures forall a | a !in accounts[i + 1..] && a != accounts[i] :: Demoted(p0, q0, p', q', a, world)
  {
    hide Demoted, SameBut, SameAt;
    assert accounts[i..] == [accounts[i]] + accounts[i + 1..];
    forall a | a in accounts[i + 1..] ensures SameAt(p0, p', a) && SameAt(q0, q', a) {
      SameElsewhere(p, p', accounts[i], a);
      SameElsewhere(q, q', accounts[i], a);
      SameTrans(p0, p, p', a);
      SameTrans(q0, q, q', a);
    }
    forall a | a !in accounts[i + 1..] && a != accounts[i] ensures Demoted(p0, q0, p', q', a, world) {
      DemotedOther(p0, q0, p, q, p', q', accounts[i], a, world);
    }
  }

  lemma SameTrans(m: Lists, m': Lists, m'': Lists, a: Address)
    requires SameAt(m, m', a) && SameAt(m', m'', a)
    ensures SameAt(m, m'', a)
  {}

  lemma HeadListOk(p: Lists, a: Address, world: World)
    requires ListsOk(p, true) && a in p
    ensures ListOk(AfterHead(p[a], a, world).list, a, true)
  {
    SubOk(p[a], a, true, AtLeast(p[a].items, world.Nonce(a)));
    FilterOk(Forward(p[a], world.Nonce(a)), a, true, world.Balance(a), world.maxGas);
  }

  /** The last of a listing has the largest nonce. */
  lemma LastIsMax(txs: seq<Tx>, m: Items)
    requires SortedOf(txs, m) && WellKeyed(m) && m.Keys != {}
    ensures |txs| > 0 && txs[|txs| - 1].nonce == Max(m.Keys)
  {
    var top := Max(m.Keys);
    assert m[top] in txs;
    assert txs[|txs| - 1].nonce in m.Keys;
  }

  lemma DemotedFrom(p: Lists, q: Lists, p': Lists, q': Lists, p'': Lists, q'': Lists, a: Address, world: World)
    requires SameAt(p, p', a) && SameAt(q, q', a) && Demoted(p', q', p'', q'', a, world)
    ensures Demoted(p, q, p'', q'', a, world)
  {
    hide AfterHead, Gapped;
  }

  /** Some transaction up to a nonce is not payable in the state. */
  ghost predicate CutBefore(p: Items, a: Address, world: World, n: nat) {
    exists k :: k in p && world.Nonce(a) <= k <= n && Exceeds(world.Balance(a), world.maxGas)(p[k])
  }

  /** What stays pending: what the state has not gone past and no unpayable one comes before. */
  lemma StaysPending(l: List, a: Address, world: World, n: nat)
    requires ListOk(l, a, true)
    ensures var f := AfterHead(l, a, world).list.items;
            && (n in f <==> n in l.items && world.Nonce(a) <= n && !CutBefore(l.items, a, world, n))
            && (n in f ==> f[n] == l.items[n])
  {
    hide CutBefore;
    var s, front := world.Nonce(a), Forward(l, world.Nonce(a));
    ForwardOk(l, a, s);
    FilterIsScan(front, world.Balance(a), world.maxGas);
    if CutBefore(l.items, a, world, n) {
      var k := CutAt(l.items, a, world, n);
      ScannedOut(front, world.Balance(a), world.maxGas, k, n);
    } else if n in l.items && s <= n {
      ScannedIn(front, a, world, l.items, n);
    }
  }

  lemma ForwardOk(l: List, a: Address, s: nat)
    requires ListOk(l, a, true)
    ensures Bounded(Forward(l, s)) && Forward(l, s).strict
    ensures forall n :: n in Forward(l, s).items <==> n in l.items && s <= n
  {}

  lemma CutAt(p: Items, a: Address, world: World, n: nat) returns (k: nat)
    requires CutBefore(p, a, world, n)
    ensures k in p && world.Nonce(a) <= k <= n && Exceeds(world.Balance(a), world.maxGas)(p[k])
  {
    k :| k in p && world.Nonce(a) <= k <= n && Exceeds(world.Balance(a), world.maxGas)(p[k]);
  }

  /** A strict scan keeps nothing from an unpayable transaction on. */
  lemma ScannedOut(l: List, cost: int, gas: nat, k: nat, n: nat)
    requires l.strict && WellKeyed(l.items) && k in l.items && k <= n && Exceeds(cost, gas)(l.items[k])
    ensures n !in Scan(l, cost, gas).list.items
  {
    var removed := Dropped(l.items, Exceeds(cost, gas));
    assert k in removed.Keys;
    assert Min(removed.Keys) <= k;
  }

  lemma ScannedIn(front: List, a: Address, world: World, p: Items, n: nat)
    requires front.strict && WellKeyed(front.items) && front.items == AtLeast(p, world.Nonce(a)) && n in front.items
    requires !CutBefore(p, a, world, n)
    ensures var f := Scan(front, world.Balance(a), world.maxGas).list.items; n in f && f[n] == p[n]
  {
    var exceeds := Exceeds(world.Balance(a), world.maxGas);
    var removed := Dropped(front.items, exceeds);
    assert n in p && !exceeds(p[n]);
    if removed.Keys != {} {
      var lowest := Min(removed.Keys);
      assert lowest in removed;
      assert lowest in p && exceeds(p[lowest]);
      assert lowest > n;
    }
  }

  /** Pending transactions that stay and those sent back are sound ones, and no other sound one is lost. */
  lemma SoundStays(l: List, a: Address, world: World, tx: Tx)
    requires ListOk(l, a, true) && tx.From() == a && In(l.items, tx)
    ensures var f := AfterHead(l, a, world);
            && (Sound(tx, world) ==> In(f.list.items, tx) || In(f.invalids, tx))
            && (In(f.list.items, tx) ==> Sound(tx, world))
  {
    hide Filter, Scan, Split3, AtLeast;
    var front := Forward(l, world.Nonce(a));
    ForwardOk(l, a, world.Nonce(a));
    FilterIsScan(front, world.Balance(a), world.maxGas);
    ScanSplits(front, world.Balance(a), world.maxGas);
    SplitIn(front.items, AfterHead(l, a, world), tx);
    ForwardIn(l, a, world, tx);
    RemovedExceeds(front, world.Balance(a), world.maxGas);
  }

  lemma ForwardIn(l: List, a: Address, world: World, tx: Tx)
    ensures In(Forward(l, world.Nonce(a)).items, tx) <==> In(l.items, tx) && world.Nonce(a) <= tx.nonce
  {}

  lemma SplitIn(m: Items, f: Filtered, tx: Tx)
    requires Split3(m, f.list.items, f.removed, f.invalids)
    ensures In(m, tx) <==> In(f.list.items, tx) || In(f.removed, tx) || In(f.invalids, tx)
  {}

  lemma RemovedExceeds(l: List, cost: int, gas: nat)
    ensures forall n | n in Scan(l, cost, gas).removed :: Exceeds(cost, gas)(Scan(l, cost, gas).removed[n])
  {}

  /** The demotion of an account loses no sound transaction, and what is then pending is sound. */
  lemma DemotedSound(p: Lists, q: Lists, p': Lists, q': Lists, a: Address, world: World, tx: Tx)
    requires ListsOk(p, true) && Apart(p, q, a) && Demoted(p, q, p', q', a, world) && tx.From() == a
    ensures Sound(tx, world) && (Holds(p, tx) || Holds(q, tx)) ==> Holds(p', tx) || Holds(q', tx)
    ensures Holds(p', tx) ==> Sound(tx, world) && Holds(p, tx)
  {
    hide AfterHead, Sound;
    if a in p {
      DemotedParts(p[a], a, world);
      if Holds(p, tx) {
        SoundStays(p[a], a, world, tx);
      }
    }
  }

  lemma DemotedParts(l: List, a: Address, world: World)
    requires ListOk(l, a, true)
    ensures var f := AfterHead(l, a, world);
            Sub(f.list.items, l.items) && Sub(f.invalids, l.items) && f.list.items.Keys !! f.invalids.Keys
  {
    hide Filter, Scan;
    var front := Forward(l, world.Nonce(a));
    ForwardOk(l, a, world.Nonce(a));
    FilterIsScan(front, world.Balance(a), world.maxGas);
    ScanSplits(front, world.Balance(a), world.maxGas);
  }

  lemma DemotedApart(p: Lists, q: Lists, p': Lists, q': Lists, a: Address, world: World)
    requires ListsOk(p, true) && Apart(p, q, a) && Demoted(p, q, p', q', a, world)
    ensures Apart(p', q', a)
  {
    hide AfterHead;
    if a in p {
      DemotedParts(p[a], a, world);
    }
  }

  // ---- when a demotion leaves an account in order ----

  /** The condition on a pending list, whatever it is, and a virtual nonce: either the next transaction to execute
      is there and payable, and every nonce after a gap comes after an unpayable one too, or it is not, and the
      virtual nonce is that of the state. */
  ghost predicate Straight(p: Items, v: nat, a: Address, world: World) {
    var s := world.Nonce(a);
    if s in p && !Exceeds(world.Balance(a), world.maxGas)(p[s]) then
      forall n | n in p && RunEnd(p.Keys, s) < n :: CutBefore(p, a, world, n)
    else v == s
  }

  /** The virtual nonce that an account gets after a demotion. */
  ghost function Renonced(p: Lists, v: nat, a: Address): nat {
    if a in p && p[a].items.Keys != {} then Max(p[a].items.Keys) + 1 else v
  }

  /** Every account has got the virtual nonce due after a demotion. */
  ghost predicate Renonces(m: map<Address, nat>, m': map<Address, nat>, world: World, p: Lists) {
    forall a :: VirtualNonce(m', world, a) == Renonced(p, VirtualNonce(m, world, a), a)
  }

  lemma RenoncedAll(m: map<Address, nat>, m': map<Address, nat>, world: World, p: Lists, accounts: seq<Address>)
    requires forall a :: VirtualNonce(m', world, a) == if a in accounts then Renonced(p, VirtualNonce(m, world, a), a)
                                                       else VirtualNonce(m, world, a)
    requires forall a :: a in accounts <==> a in p
    ensures Renonces(m, m', world, p)
  {
    hide VirtualNonce, Max;
  }

  /** An account is in order for promotion after a demotion exactly if its pending list was straight. */
  lemma StraightIff(p: Lists, q: Lists, p': Lists, q': Lists, v: nat, a: Address, world: World)
    requires ListsOk(p, true) && Apart(p, q, a) && Demoted(p, q, p', q', a, world)
    ensures Promotable(ItemsOf(p', a), ItemsOf(q', a), world.Nonce(a), Renonced(p', v, a)) <==>
              Straight(ItemsOf(p, a), v, a, world)
  {
    hide AfterHead, CutBefore, Exceeds, Min, Max, RunEnd;
    var s := world.Nonce(a);
    DemotedApart(p, q, p', q', a, world);
    Next(p, a, world);
    if s in ItemsOf(p', a) {
      StraightRun(p[a], a, world, ItemsOf(q', a));
    } else {
      assert ItemsOf(p', a).Keys == {};
    }
  }

  /** The next transaction stays pending exactly if it is there and payable. */
  lemma Next(p: Lists, a: Address, world: World)
    requires ListsOk(p, true)
    ensures var s := world.Nonce(a);
            (a in p && s in AfterHead(p[a], a, world).list.items) <==>
            (s in ItemsOf(p, a) && !Exceeds(world.Balance(a), world.maxGas)(ItemsOf(p, a)[s]))
  {
    if a in p {
      StaysPending(p[a], a, world, world.Nonce(a));
    }
  }

  /** The part of a list that stays is a run exactly if nothing after a gap stays. */
  lemma StraightRun(l: List, a: Address, world: World, q: Items)
    requires ListOk(l, a, true) && AfterHead(l, a, world).list.items.Keys !! q.Keys
    requires world.Nonce(a) in AfterHead(l, a, world).list.items
    ensures var f, s := AfterHead(l, a, world).list.items, world.Nonce(a);
            && f.Keys != {}
            && (Promotable(f, q, s, Max(f.Keys) + 1) <==>
                forall n | n in l.items && RunEnd(l.items.Keys, s) < n :: CutBefore(l.items, a, world, n))
  {
    hide AfterHead, CutBefore, Exceeds;
    var f, s := AfterHead(l, a, world).list.items, world.Nonce(a);
    assert s in f.Keys;
    var top, e := Max(f.Keys), RunEnd(l.items.Keys, s);
    if Promotable(f, q, s, top + 1) {
      forall n | n in l.items && e < n ensures CutBefore(l.items, a, world, n) {
        StaysPending(l, a, world, n);
        StaysPending(l, a, world, e);
        assert n in f ==> n in f.Keys;
      }
    }
    if forall n | n in l.items && e < n :: CutBefore(l.items, a, world, n) {
      StaysInRun(l, a, world, top);
      RunAbove(f, q, s, top + 1);
    }
  }

  lemma StaysInRun(l: List, a: Address, world: World, top: nat)
    requires ListOk(l, a, true) && AfterHead(l, a, world).list.items.Keys != {}
    requires top == Max(AfterHead(l, a, world).list.items.Keys)
    requires forall n | n in l.items && RunEnd(l.items.Keys, world.Nonce(a)) < n :: CutBefore(l.items, a, world, n)
    ensures GapFree(AfterHead(l, a, world).list.items, world.Nonce(a), top + 1)
  {
    hide AfterHead, CutBefore, Exceeds;
    var f, s, e := AfterHead(l, a, world).list.items, world.Nonce(a), RunEnd(l.items.Keys, world.Nonce(a));
    StaysPending(l, a, world, top);
    assert top in f.Keys && top in l.items.Keys && e !in l.items.Keys && top < e;
    forall n: nat ensures n in f <==> s <= n < top + 1 {
      StaysPending(l, a, world, n);
      if s <= n <= top {
        assert n in l.items.Keys;
        if CutBefore(l.items, a, world, n) {
          CutLater(l.items, a, world, n, top);
        }
      }
      assert n in f ==> n in f.Keys;
    }
  }

  lemma CutLater(p: Items, a: Address, world: World, n: nat, m: nat)
    requires CutBefore(p, a, world, n) && n <= m
    ensures CutBefore(p, a, world, m)
  {}

  /** Next to a run, other nonces lie below or above it. */
  lemma RunAbove(p: Items, q: Items, lo: nat, hi: nat)
    requires GapFree(p, lo, hi) && p.Keys !! q.Keys
    ensures Promotable(p, q, lo, hi)
  {
    forall n | n in q ensures n < lo || hi <= n {
      assert n in q.Keys && n !in p.Keys;
    }
  }

  /** After a reorganisation: the account was in order with pending nonces `lo` up to `hi`, and what is queued and
      payable from the new state nonce on has become pending.  The list is straight exactly if no nonce of it lies
      after a gap that the reinjected transactions have left below `lo`. */
  lemma RejoinIff(p: Items, lo: nat, hi: nat, payable: Items, p': Items, v': nat, a: Address, world: World)
    requires GapFree(p, lo, hi) && p.Keys !! payable.Keys
    requires forall n | n in payable ::
               world.Nonce(a) <= n && !Exceeds(world.Balance(a), world.maxGas)(payable[n])
    requires var s := world.Nonce(a);
             p' == p + Below(payable, ReadyTo(payable, s)) && v' == NonceAfter(payable, s)
    ensures Straight(p', v', a, world) <==> Rejoins(p, lo, hi, payable.Keys, a, world)
  {
    hide Exceeds;
    var s := world.Nonce(a);
    if s in payable {
      assert s in payable.Keys && Min(payable.Keys) == s;
      var e := RunEnd(payable.Keys, s);
      RejoinRun(p, lo, hi, payable, p', e, a, world);
    } else {
      assert payable.Keys == {} || Min(payable.Keys) > s;
      assert p' == p;
      if s in p {
        RunEndIs(AtLeast(p, s), s, hi);
        RunWithin(p, lo, s, hi);
      }
    }
  }

  /** Reinjected and queued nonces reach up to the pending ones, or do not start, or there is nothing to reach. */
  ghost predicate Rejoins(p: Items, lo: nat, hi: nat, available: set<nat>, a: Address, world: World) {
    var s := world.Nonce(a);
    || s !in available || lo <= s || hi <= lo || lo <= RunEnd(available, s)
    || (lo in p && Exceeds(world.Balance(a), world.maxGas)(p[lo]))
  }

  lemma RunEndIs(m: Items, lo: nat, hi: nat)
    requires GapFree(m, lo, hi)
    ensures RunEnd(m.Keys, lo) == hi
  {
    assert hi !in m.Keys && RunEnd(m.Keys, lo) !in m.Keys;
  }

  lemma RunWithin(p: Items, lo: nat, s: nat, hi: nat)
    requires GapFree(p, lo, hi) && lo <= s < hi
    ensures RunEnd(p.Keys, s) == hi
  {
    var e := RunEnd(p.Keys, s);
    assert e !in p.Keys && hi !in p.Keys;
  }

  lemma RejoinRun(p: Items, lo: nat, hi: nat, payable: Items, p': Items, e: nat, a: Address, world: World)
    requires GapFree(p, lo, hi) && p.Keys !! payable.Keys
    requires forall n | n in payable ::
               world.Nonce(a) <= n && !Exceeds(world.Balance(a), world.maxGas)(payable[n])
    requires var s := world.Nonce(a);
             s in payable && e == RunEnd(payable.Keys, s) && p' == p + Below(payable, e)
    ensures var s := world.Nonce(a);
            && s in p' && !Exceeds(world.Balance(a), world.maxGas)(p'[s])
            && ((forall n | n in p' && RunEnd(p'.Keys, s) < n :: CutBefore(p', a, world, n)) <==>
                Rejoins(p, lo, hi, payable.Keys, a, world))
  {
    hide Exceeds, CutBefore;
    var s := world.Nonce(a);
    assert s in payable.Keys && e > s && e !in payable.Keys;
    assert forall n | n in payable :: n in payable.Keys;
    assert forall n | n in p :: n in p.Keys;
    forall n ensures n in p' <==> lo <= n < hi || s <= n < e {
      if s <= n < e {
        assert n in payable.Keys;
      }
    }
    var end := RunEnd(p'.Keys, s);
    assert end !in p'.Keys && forall k | s <= k < end :: k in p'.Keys;
    assert end >= e;
    if s < lo < hi && e < lo {
      assert e !in p';
      assert end == e;
      RejoinGap(p, lo, hi, payable, p', e, a, world);
    } else if s < lo < hi {
      assert lo in p.Keys;
      assert e == lo;
      assert hi !in p' && end == hi;
    } else {
      assert forall n | n in p' :: n < e || n < s;
    }
  }

  lemma RejoinGap(p: Items, lo: nat, hi: nat, payable: Items, p': Items, e: nat, a: Address, world: World)
    requires GapFree(p, lo, hi) && p.Keys !! payable.Keys && p' == p + Below(payable, e)
    requires forall n | n in payable ::
               world.Nonce(a) <= n && !Exceeds(world.Balance(a), world.maxGas)(payable[n])
    requires world.Nonce(a) < e < lo < hi
    ensures (forall n | n in p' && e < n :: CutBefore(p', a, world, n)) <==>
            Exceeds(world.Balance(a), world.maxGas)(p[lo])
  {
    hide Exceeds;
    var exceeds := Exceeds(world.Balance(a), world.maxGas);
    assert p'[lo] == p[lo];
    if exceeds(p[lo]) {
      forall n | n in p' && e < n ensures CutBefore(p', a, world, n) {
        assert lo <= n;
      }
    } else {
      forall k | k in p' && world.Nonce(a) <= k <= lo ensures !exceeds(p'[k]) {
        assert k != lo ==> k in payable;
      }
    }
  }

  // ---- a new head ----

  /** What a new head did: the lists before the demotion, before the promotion and after it, and its accounts. */
  datatype Turn = Turn(before: Slots, start: Slots, mid: Slots, accounts: seq<Address>)

  /** The steps of a new head fit together. */
  ghost predicate Turned(t: Turn, world: World, locals: set<Address>, k: nat) {
    && ListsOk(t.before.pending, true) && (forall a :: TurnedAt(t, world, a))
    && ProcessedAll(t.start, t.mid, world, t.accounts, locals, k)
  }

  ghost predicate TurnedAt(t: Turn, world: World, a: Address) {
    && Apart(t.before.pending, t.before.queue, a)
    && Demoted(t.before.pending, t.before.queue, t.start.pending, t.start.queue, a, world)
    && t.start.Nonce(world, a) == Renonced(t.start.pending, t.before.Nonce(world, a), a)
  }

  lemma TurnsOut(b: Slots, y: Slots, mid: Slots, accounts: seq<Address>, world: World, locals: set<Address>, k: nat)
    requires ListsOk(b.pending, true) && ProcessedAll(y, mid, world, accounts, locals, k)
    requires forall a :: Apart(b.pending, b.queue, a) && Demoted(b.pending, b.queue, y.pending, y.queue, a, world)
    requires Renonces(b.managed, y.managed, world, y.pending)
    ensures Turned(Turn(b, y, mid, accounts), world, locals, k)
  {
    hide Apart, Demoted, Renonced, ListsOk, ProcessedAll, VirtualNonce;
    forall a ensures TurnedAt(Turn(b, y, mid, accounts), world, a) {
      assert Apart(b.pending, b.queue, a) && Demoted(b.pending, b.queue, y.pending, y.queue, a, world);
      assert VirtualNonce(y.managed, world, a) == Renonced(y.pending, VirtualNonce(b.managed, world, a), a);
    }
  }

  /** The accounts whose pending lists are straight. */
  ghost function Straights(b: Slots, world: World): iset<Address> {
    iset a: Address | Straight(ItemsOf(b.pending, a), b.Nonce(world, a), a, world)
  }

  /** Under another state and without managed nonces nothing is left of the order. */
  lemma NoOrder(x: Slots, w: World, good: iset<Address>, y: Slots, world: World)
    requires AllPlaced(x, w, good) && y.pending == x.pending && y.queue == x.queue
    ensures AllPlaced(y, world, iset{})
  {
    hide Apart;
    forall a ensures PlacedIn(y, world, a, iset{}) {
      OnePlaced(x, w, a, good);
      ApartKeys(y.pending, y.queue, a);
    }
  }

  /** A demotion loses no sound transaction, and what is pending after it is sound. */
  lemma DemotedKept(b: Slots, p: Lists, q: Lists, known: set<Tx>, all: set<Tx>, world: World)
    requires ListsOk(b.pending, true) && Partition(known, b.pending, b.queue) && Partition(all, p, q)
    requires forall a :: Apart(b.pending, b.queue, a) && Demoted(b.pending, b.queue, p, q, a, world)
    ensures forall tx | tx in known && Sound(tx, world) :: tx in all
    ensures forall tx | Holds(p, tx) :: Sound(tx, world)
    ensures forall a | a in p :: p[a].items.Keys != {}
  {
    hide Demoted, Sound, Apart, ListsOk;
    forall tx: Tx
      ensures (Sound(tx, world) && tx in known ==> tx in all) && (Holds(p, tx) ==> Sound(tx, world))
    {
      assert Apart(b.pending, b.queue, tx.From()) && Demoted(b.pending, b.queue, p, q, tx.From(), world);
      DemotedSound(b.pending, b.queue, p, q, tx.From(), world, tx);
    }
    forall a | a in p ensures p[a].items.Keys != {} {
      assert Demoted(b.pending, b.queue, p, q, a, world);
      DemotedNonempty(b.pending, b.queue, p, q, a, world);
    }
  }

  lemma DemotedNonempty(p: Lists, q: Lists, p': Lists, q': Lists, a: Address, world: World)
    requires Demoted(p, q, p', q', a, world) && a in p'
    ensures p'[a].items.Keys != {}
  {}

  lemma AllApart(x: Slots, world: World, good: iset<Address>)
    requires AllPlaced(x, world, good)
    ensures forall a :: Apart(x.pending, x.queue, a)
  {
    hide Apart, AllPlaced;
    forall a ensures Apart(x.pending, x.queue, a) {
      OnePlaced(x, world, a, good);
    }
  }

  /** After the demotion the straight accounts are ready for promotion. */
  lemma StraightProcessing(b: Slots, y: Slots, world: World, straight: iset<Address>, accounts: seq<Address>)
    requires ListsOk(b.pending, true)
    requires forall a :: Apart(b.pending, b.queue, a) && Demoted(b.pending, b.queue, y.pending, y.queue, a, world)
    requires Renonces(b.managed, y.managed, world, y.pending)
    requires straight == Straights(b, world) && forall a :: a in accounts <==> a in y.queue
    ensures Processing(y, world, straight, accounts)
  {
    hide Demoted, Apart, Renonced, Straight, Unprocessed, Placed, VirtualNonce;
    forall a ensures UnprocessedIn(y, world, a, straight) && (a !in accounts ==> PlacedIn(y, world, a, straight)) {
      assert Apart(b.pending, b.queue, a) && Demoted(b.pending, b.queue, y.pending, y.queue, a, world);
      assert VirtualNonce(y.managed, world, a) == Renonced(y.pending, VirtualNonce(b.managed, world, a), a);
      StraightIff(b.pending, b.queue, y.pending, y.queue, b.Nonce(world, a), a, world);
      DemotedApart(b.pending, b.queue, y.pending, y.queue, a, world);
      ApartKeys(y.pending, y.queue, a);
      Unprocessed1(ItemsOf(y.pending, a), ItemsOf(y.queue, a), world.Nonce(a), y.Nonce(world, a), a in straight);
      if a !in accounts {
        NoQueuePlaced(ItemsOf(y.pending, a), world.Nonce(a), y.Nonce(world, a), a in straight);
      }
    }
  }

  lemma Unprocessed1(p: Items, q: Items, lo: nat, hi: nat, good: bool)
    requires p.Keys !! q.Keys && (good ==> Promotable(p, q, lo, hi))
    ensures Unprocessed(p, q, lo, hi, good)
  {}

  /** After the promotion of all queues every transaction is sound. */
  lemma FitAfter(x: Slots, mid: Slots, p: Lists, q: Lists, all: set<Tx>, world: World, accounts: seq<Address>,
                 locals: set<Address>, c: Config)
    requires ProcessedAll(x, mid, world, accounts, locals, c.accountQueue) && Capped(mid, p, q, locals, c)
    requires Partition(all, p, q) && (forall a :: a in accounts <==> a in x.queue)
    requires forall tx | Holds(x.pending, tx) :: Sound(tx, world)
    ensures forall tx | tx in all :: Sound(tx, world)
  {
    hide ProcessedAll, Capped, Sound;
    CappedWithin(mid, p, q, locals, c);
    forall tx | tx in all ensures Sound(tx, world) {
      SoundAfter(x, mid, p, q, world, accounts, locals, c.accountQueue, tx);
    }
  }

  /** A run is straight under any state. */
  lemma RunStraight(p: Items, lo: nat, hi: nat, a: Address, world: World)
    requires GapFree(p, lo, hi)
    ensures Straight(p, world.Nonce(a), a, world)
  {
    hide Exceeds, CutBefore;
    if world.Nonce(a) in p {
      RunWithin(p, lo, world.Nonce(a), hi);
    }
  }

  lemma GoodStraight(x: Slots, w: World, good: iset<Address>, world: World, straight: iset<Address>)
    requires AllPlaced(x, w, good) && straight == Straights(Slots(x.pending, x.queue, map[]), world)
    ensures good <= straight
  {
    hide Straight;
    forall a | a in good ensures a in straight {
      assert PlacedIn(x, w, a, good);
      RunStraight(ItemsOf(x.pending, a), w.Nonce(a), x.Nonce(w, a), a, world);
    }
  }

  // ---- a new head in a pool with room ----

  /** A batch in a pool with room, as one account sees it: its pending nonces are the same, the queued ones are apart,
      and if it is processed what is ready joins the pending ones. */
  lemma BatchAt(x: Slots, w: World, good: iset<Address>, y: Slots, r: Batch, b: Slots, world: World,
                locals: set<Address>,
                k: nat, a: Address)
    requires AllPlaced(x, w, good) && a in good && y.pending == x.pending && y.queue == x.queue && y.managed == map[]
    requires Filled(y, r.start, r.taken, Members(r.accounts))
    requires r.accounts == [] ==> b == r.start
    requires r.accounts != [] ==> ProcessedAll(r.start, r.mid, world, r.accounts, locals, k)
                                  && b.pending == r.mid.pending && b.managed == r.mid.managed
    ensures GapFree(ItemsOf(r.start.pending, a), w.Nonce(a), x.Nonce(w, a))
    ensures ItemsOf(r.start.pending, a).Keys !! ItemsOf(r.start.queue, a).Keys
    ensures var payable, s := Payable(ItemsOf(r.start.queue, a), a, world), world.Nonce(a);
            if a in r.accounts then
              && ItemsOf(b.pending, a) == ItemsOf(r.start.pending, a) + Below(payable, ReadyTo(payable, s))
              && b.Nonce(world, a) == NonceAfter(payable, s)
            else
              && ItemsOf(b.pending, a) == ItemsOf(r.start.pending, a) && b.Nonce(world, a) == s
              && forall n | n in ItemsOf(r.start.queue, a) :: x.Nonce(w, a) <= n
  {
    hide Payable, ReadyTo, NonceAfter, IsLowest, Brings;
    assert PlacedIn(x, w, a, good);
    assert FilledAt(y, r.start, r.taken, a, a in Members(r.accounts));
    FilledRun(x, w, y, r.start, r.taken, a, a in r.accounts);
    if r.accounts != [] {
      assert ProcessedAt(r.start, r.mid, world, a, a in r.accounts, a in locals, k);
    }
  }

  lemma FilledRun(x: Slots, w: World, y: Slots, z: Slots, taken: seq<Tx>, a: Address, dirty: bool)
    requires Ordered(ItemsOf(x.pending, a), ItemsOf(x.queue, a), w.Nonce(a), x.Nonce(w, a))
    requires y.pending == x.pending && y.queue == x.queue && FilledAt(y, z, taken, a, dirty)
    ensures GapFree(ItemsOf(z.pending, a), w.Nonce(a), x.Nonce(w, a))
    ensures ItemsOf(z.pending, a).Keys !! ItemsOf(z.queue, a).Keys
    ensures !dirty ==> forall n | n in ItemsOf(z.queue, a) :: x.Nonce(w, a) <= n
  {
    hide Brings, VirtualNonce;
    assert forall n :: n in ItemsOf(z.pending, a) <==> n in ItemsOf(x.pending, a).Keys;
    assert !dirty ==> forall n | n in ItemsOf(z.queue, a) :: n in ItemsOf(x.queue, a).Keys;
  }

  lemma PayableSound(q: Items, a: Address, world: World)
    ensures forall n | n in Payable(q, a, world) ::
              n in q && world.Nonce(a) <= n && !Exceeds(world.Balance(a), world.maxGas)(Payable(q, a, world)[n])
  {}

  /** Whether the account is straight is told by the nonces that were brought back. */
  lemma OneRejoins(p: Items, lo: nat, hi: nat, q: Items, p': Items, v': nat, a: Address, world: World, processed: bool)
    requires GapFree(p, lo, hi) && p.Keys !! q.Keys
    requires var payable, s := Payable(q, a, world), world.Nonce(a);
             if processed then p' == p + Below(payable, ReadyTo(payable, s)) && v' == NonceAfter(payable, s)
             else p' == p && v' == s && forall n | n in q :: hi <= n
    ensures Straight(p', v', a, world) <==> Rejoins(p, lo, hi, Payable(q, a, world).Keys, a, world)
    ensures !Straight(p', v', a, world) ==>
              var s := world.Nonce(a); s in p' && !Exceeds(world.Balance(a), world.maxGas)(p'[s])
  {
    hide Exceeds, Straight, ReadyTo, NonceAfter, Payable, CutBefore;
    var payable, s := Payable(q, a, world), world.Nonce(a);
    PayableSound(q, a, world);
    if processed {
      RejoinIff(p, lo, hi, payable, p', v', a, world);
      if s in payable.Keys {
        ReadyFrom(payable, s);
      }
    } else {
      RunStraight(p, lo, hi, a, world);
      assert s in payable.Keys ==> s in q;
    }
  }

  lemma ReadyFrom(q: Items, s: nat)
    requires s in q
    ensures s < ReadyTo(q, s) || exists n :: n in q && n < s
  {
    if forall n | n in q :: s <= n {
      assert s in q.Keys && Min(q.Keys) == s;
    }
  }

  /** A pending list with a gap keeps it when the queue is processed. */
  lemma BentStays(p: Items, q: Items, s: nat, p': Items, q': Items, v': nat, a: Address, world: World, local: bool,
                  k: nat)
    requires s in p && p.Keys != {} && p.Keys !! q.Keys && (forall n | n in p :: s <= n)
    requires !GapFree(p, s, Max(p.Keys) + 1)
    requires Processed(p, q, Max(p.Keys) + 1, p', q', v', a, world, local, k)
    ensures !GapFree(p', s, v')
  {
    hide Payable, IsLowest;
    var top, payable := Max(p.Keys), Payable(q, a, world);
    var e := ReadyTo(payable, top + 1);
    PayableSound(q, a, world);
    assert forall n | n in payable.Keys :: n in q.Keys;
    assert top in p.Keys && top in p';
    var g :| s <= g <= top && g !in p;
    if g in p' {
      assert g in payable.Keys && g < e && Min(payable.Keys) <= g;
      assert top !in payable.Keys;
      assert v' == e <= top;
    }
  }

  /** The final promotion leaves an account in order exactly if it is straight, where that is decided by a gap. */
  lemma StraightEnds(b: Slots, t: Slots, m: Slots, z: Slots, world: World, a: Address, given: bool, local: bool, k: nat)
    requires ListsOk(b.pending, true) && Apart(b.pending, b.queue, a)
    requires Demoted(b.pending, b.queue, t.pending, t.queue, a, world)
    requires t.Nonce(world, a) == Renonced(t.pending, b.Nonce(world, a), a)
    requires ProcessedAt(t, m, world, a, given, local, k) && z.pending == m.pending && z.managed == m.managed
    requires !Straight(ItemsOf(b.pending, a), b.Nonce(world, a), a, world)
    requires var s, p := world.Nonce(a), ItemsOf(b.pending, a);
             s in p && !Exceeds(world.Balance(a), world.maxGas)(p[s])
    ensures !GapFree(ItemsOf(z.pending, a), world.Nonce(a), z.Nonce(world, a))
  {
    hide AfterHead, CutBefore, Exceeds, Straight, Processed, Max;
    var s, p := world.Nonce(a), ItemsOf(t.pending, a);
    Next(b.pending, a, world);
    assert s in p && p.Keys != {};
    DemotedApart(b.pending, b.queue, t.pending, t.queue, a, world);
    StraightIff(b.pending, b.queue, t.pending, t.queue, b.Nonce(world, a), a, world);
    FromState(b.pending[a], a, world);
    if GapFree(p, s, Max(p.Keys) + 1) {
      RunAbove(p, ItemsOf(t.queue, a), s, Max(p.Keys) + 1);
    }
    if given {
      BentStays(p, ItemsOf(t.queue, a), s, ItemsOf(m.pending, a), ItemsOf(m.queue, a), m.Nonce(world, a), a, world,
          local, k);
    }
  }

  lemma FromState(l: List, a: Address, world: World)
    requires ListOk(l, a, true)
    ensures forall n | n in AfterHead(l, a, world).list.items :: world.Nonce(a) <= n
  {
    hide AfterHead, CutBefore;
    forall n | n in AfterHead(l, a, world).list.items ensures world.Nonce(a) <= n {
      StaysPending(l, a, world, n);
    }
  }

  /** An account that was in order is so again exactly if the nonces brought back join up. */
  lemma RejoinsAt(x: Slots, w: World, good: iset<Address>, y: Slots, r: Batch, t: Turn, world: World, z: Slots,
                  locals: set<Address>, k: nat, straight: iset<Address>, a: Address)
    requires AllPlaced(x, w, good) && a in good && y.pending == x.pending && y.queue == x.queue && y.managed == map[]
    requires Filled(y, r.start, r.taken, Members(r.accounts))
    requires r.accounts == [] ==> t.before == r.start
    requires r.accounts != [] ==> ProcessedAll(r.start, r.mid, world, r.accounts, locals, k)
                                  && t.before.pending == r.mid.pending && t.before.managed == r.mid.managed
    requires Turned(t, world, locals, k) && straight == Straights(t.before, world)
    requires z.pending == t.mid.pending && z.managed == t.mid.managed && AllPlaced(z, world, straight)
    ensures OrderedIn(z, world, a) <==>
            Rejoins(ItemsOf(r.start.pending, a), w.Nonce(a), x.Nonce(w, a),
                    Payable(ItemsOf(r.start.queue, a), a, world).Keys, a, world)
  {
    hide AllPlaced, Filled, ProcessedAll, ProcessedAt, Apart, Demoted, Renonced, Straight, Rejoins, Payable, ReadyTo,
        NonceAfter, Exceeds, GapFree, VirtualNonce, Below, ListsOk;
    assert TurnedAt(t, world, a);
    BatchAt(x, w, good, y, r, t.before, world, locals, k, a);
    OneRejoins(ItemsOf(r.start.pending, a), w.Nonce(a), x.Nonce(w, a), ItemsOf(r.start.queue, a),
        ItemsOf(t.before.pending, a), t.before.Nonce(world, a), a, world, a in r.accounts);
    if a in straight {
      OnePlaced(z, world, a, straight);
    } else {
      ProcessedHere(t.start, t.mid, world, t.accounts, locals, k, a);
      StraightEnds(t.before, t.start, t.mid, z, world, a, a in t.accounts, a in locals, k);
    }
  }

  // ---- a new head, for an account of which nothing comes back ----

  /** No nonce below `s` has been lost. */
  ghost predicate Unforgotten(p: Items, p': Items, s: nat) {
    forall n | n in p && n < s :: n in p'
  }

  /** A run that may have been cut before the demotion is straight exactly if no nonce that the state has gone past was
      cut off; else the virtual nonce has fallen behind the state's. */
  lemma SparedIff(p: Items, lo: nat, hi: nat, p': Items, v': nat, a: Address, world: World)
    requires GapFree(p, lo, hi) && Curtailed(p, world.Nonce(a), p', v')
    ensures Straight(p', v', a, world) <==> Unforgotten(p, p', world.Nonce(a))
    ensures !Straight(p', v', a, world) ==> v' < world.Nonce(a) && forall n | n in p' :: n < world.Nonce(a)
  {
    hide CutBefore, Exceeds, RunEnd;
    var s: nat := world.Nonce(a);
    if p' == p && v' == s {
      RunStraight(p, lo, hi, a, world);
    } else {
      var n: nat :| CutDown(p, s, p', v', n);
      assert GapFree(p', lo, n);
      if n >= s {
        RunStraight(p', lo, n, a, world);
      } else {
        assert n in p && n !in p';
      }
    }
  }

  /** A virtual nonce that has fallen behind, with nothing left pending, stays behind. */
  lemma BehindEnds(b: Slots, t: Slots, m: Slots, z: Slots, world: World, a: Address, given: bool, local: bool, k: nat)
    requires ListsOk(b.pending, true) && Demoted(b.pending, b.queue, t.pending, t.queue, a, world)
    requires t.Nonce(world, a) == Renonced(t.pending, b.Nonce(world, a), a)
    requires ProcessedAt(t, m, world, a, given, local, k) && CurtailedAt(m, z, world, a)
    requires b.Nonce(world, a) < world.Nonce(a) && forall n | n in ItemsOf(b.pending, a) :: n < world.Nonce(a)
    ensures z.Nonce(world, a) == b.Nonce(world, a) && !OrderedIn(z, world, a)
  {
    hide AfterHead, CutBefore, IsLowest, VirtualNonce, ListsOk, Payable, ReadyTo, NonceAfter;
    NothingStays(b.pending, b.queue, t.pending, t.queue, a, world);
    var payable := Payable(ItemsOf(t.queue, a), a, world);
    NothingReady(payable, ItemsOf(t.queue, a), a, world, t.Nonce(world, a));
    assert ItemsOf(m.pending, a) == map[];
  }

  lemma NothingStays(p: Lists, q: Lists, p': Lists, q': Lists, a: Address, world: World)
    requires ListsOk(p, true) && Demoted(p, q, p', q', a, world)
    requires forall n | n in ItemsOf(p, a) :: n < world.Nonce(a)
    ensures ItemsOf(p', a) == map[] && forall v :: Renonced(p', v, a) == v
  {
    hide AfterHead, CutBefore;
    if a in p {
      assert ItemsOf(p, a) == p[a].items;
      forall n: nat ensures n !in AfterHead(p[a], a, world).list.items {
        StaysPending(p[a], a, world, n);
        assert n in p[a].items ==> n < world.Nonce(a);
      }
      assert AfterHead(p[a], a, world).list.items == map[];
    }
  }

  lemma NothingReady(payable: Items, q: Items, a: Address, world: World, v: nat)
    requires payable == Payable(q, a, world) && v < world.Nonce(a)
    ensures Below(payable, ReadyTo(payable, v)) == map[] && NonceAfter(payable, v) == v
  {
    PayableSound(q, a, world);
  }

  /** What comes of an account of which nothing was brought back, in any pool: it is in order at the end exactly if it
      has lost no pending nonce that the state has gone past. */
  lemma SparedOrder(x: Slots, w: World, good: iset<Address>, y: Slots, t: Turn, world: World, z: Slots,
                    locals: set<Address>, k: nat, straight: iset<Address>, a: Address)
    requires AllPlaced(x, w, good) && a in good && y.pending == x.pending && y.managed == map[]
    requires CurtailedAt(y, t.before, world, a) && AllCurtailed(t.mid, z, world)
    requires Turned(t, world, locals, k) && straight == Straights(t.before, world) && AllPlaced(z, world, straight)
    ensures a in straight <==>
              Unforgotten(ItemsOf(x.pending, a), ItemsOf(t.before.pending, a), world.Nonce(a))
    ensures OrderedIn(z, world, a) <==> a in straight
    ensures a !in straight ==> z.Nonce(world, a) < world.Nonce(a)
  {
    hide ProcessedAll, ProcessedAt, Apart, Demoted, Renonced, Straight, GapFree, Below, ListsOk, Curtailed, Unforgotten;
    assert PlacedIn(x, w, a, good) && TurnedAt(t, world, a) && CurtailedAt(t.mid, z, world, a);
    hide AllPlaced, Turned, AllCurtailed;
    SparedIff(ItemsOf(x.pending, a), w.Nonce(a), x.Nonce(w, a), ItemsOf(t.before.pending, a),
        t.before.Nonce(world, a), a, world);
    if a in straight {
      OnePlaced(z, world, a, straight);
    } else {
      TurnedParts(t, world, locals, k);
      ProcessedHere(t.start, t.mid, world, t.accounts, locals, k, a);
      BehindEnds(t.before, t.start, t.mid, z, world, a, a in t.accounts, a in locals, k);
    }
  }

  lemma TurnedParts(t: Turn, world: World, locals: set<Address>, k: nat)
    requires Turned(t, world, locals, k)
    ensures ListsOk(t.before.pending, true) && ProcessedAll(t.start, t.mid, world, t.accounts, locals, k)
  {}

  /** Nothing is lost of an account that is kept, or that the state has not gone past. */
  lemma NoneForgotten(x: Slots, w: World, good: iset<Address>, y: Slots, b: Slots, world: World, a: Address, kept: bool)
    requires AllPlaced(x, w, good) && a in good && y.pending == x.pending && SparedAt(y, b, world, a, kept)
    requires kept || world.Nonce(a) <= w.Nonce(a)
    ensures Unforgotten(ItemsOf(x.pending, a), ItemsOf(b.pending, a), world.Nonce(a))
  {
    hide CurtailedAt, VirtualNonce;
    assert PlacedIn(x, w, a, good);
  }

  /** That for all of them, and those that certainly have not. */
  lemma AllSpared(x: Slots, w: World, good: iset<Address>, y: Slots, t: Turn, world: World, z: Slots,
                  locals: set<Address>, k: nat, straight: iset<Address>, taken: seq<Tx>, room: bool)
    requires AllPlaced(x, w, good) && y.pending == x.pending && y.managed == map[] && AllCurtailed(t.mid, z, world)
    requires forall a | !Sends(taken, a) :: SparedAt(y, t.before, world, a, a in locals || room)
    requires Turned(t, world, locals, k) && straight == Straights(t.before, world) && AllPlaced(z, world, straight)
    ensures forall a | a in good && !Sends(taken, a) ::
              && (OrderedIn(z, world, a) <==> a in straight)
              && (a !in straight ==> z.Nonce(world, a) < world.Nonce(a))
              && (a in straight <==>
                    Unforgotten(ItemsOf(x.pending, a), ItemsOf(t.before.pending, a), world.Nonce(a)))
              && (a in locals || room || world.Nonce(a) <= w.Nonce(a) ==> a in straight)
  {
    hide AllPlaced, AllCurtailed, SparedAt, Turned, Straights, OrderedIn, Unforgotten, Sends, ItemsOf, VirtualNonce;
    forall a | a in good && !Sends(taken, a)
      ensures (OrderedIn(z, world, a) <==> a in straight) && (a !in straight ==> z.Nonce(world, a) < world.Nonce(a))
      ensures a in straight <==> Unforgotten(ItemsOf(x.pending, a), ItemsOf(t.before.pending, a), world.Nonce(a))
      ensures a in locals || room || world.Nonce(a) <= w.Nonce(a) ==> a in straight
    {
      var kept := a in locals || room;
      SparedCurtails(y, t.before, world, a, kept);
      SparedOrder(x, w, good, y, t, world, z, locals, k, straight, a);
      if kept || world.Nonce(a) <= w.Nonce(a) {
        NoneForgotten(x, w, good, y, t.before, world, a, kept);
      }
    }
  }

  ghost predicate OrderedIn(x: Slots, world: World, a: Address) {
    Ordered(ItemsOf(x.pending, a), ItemsOf(x.queue, a), world.Nonce(a), x.Nonce(world, a))
  }

  lemma InPlace(x: Slots, world: World, a: Address, good: iset<Address>)
    requires AllPlaced(x, world, good) && a in good
    ensures OrderedIn(x, world, a)
  {
    assert PlacedIn(x, world, a, good);
  }

  /** In a pool with room nothing is dropped and no limit is met, so that decides for every account. */
  lemma AllRejoin(x: Slots, w: World, good: iset<Address>, y: Slots, known: set<Tx>, n: nat, r: Batch, t: Turn,
                  world: World, z: Slots, locals: set<Address>, c: Config, straight: iset<Address>)
    requires AllPlaced(x, w, good) && y.pending == x.pending && y.queue == x.queue && y.managed == map[]
    requires |known| + n <= c.globalSlots && Batched(y, known, n, r, t.before, world, locals, c)
    requires Turned(t, world, locals, c.accountQueue) && straight == Straights(t.before, world)
    requires z.pending == t.mid.pending && z.managed == t.mid.managed && AllPlaced(z, world, straight)
    ensures forall a | a in good ::
              OrderedIn(z, world, a) <==>
              Rejoins(ItemsOf(r.start.pending, a), w.Nonce(a), x.Nonce(w, a),
                      Payable(ItemsOf(r.start.queue, a), a, world).Keys, a, world)
  {
    hide AllPlaced, Filled, ProcessedAll, Turned, Straights, Rejoins, Payable, OrderedIn, Total, Capped, Sound,
        OutbidBy, Holds;
    if r.accounts != [] {
      CappedSame(r.mid, t.before.pending, t.before.queue, locals, c);
    }
    forall a | a in good
      ensures OrderedIn(z, world, a) <==>
              Rejoins(ItemsOf(r.start.pending, a), w.Nonce(a), x.Nonce(w, a),
                      Payable(ItemsOf(r.start.queue, a), a, world).Keys, a, world)
    {
      RejoinsAt(x, w, good, y, r, t, world, z, locals, c.accountQueue, straight, a);
    }
  }

  lemma ProcessedHere(x: Slots, y: Slots, world: World, accounts: seq<Address>, locals: set<Address>, k: nat,
                      a: Address)
    requires ProcessedAll(x, y, world, accounts, locals, k)
    ensures ProcessedAt(x, y, world, a, a in accounts, a in locals, k)
  {}

  // ---- cuts ----

  lemma CutLocals(m: Lists, m': Lists, locals: set<Address>, slots: nat)
    requires CutFairly(m, m', locals, slots)
    ensures forall a | a in locals :: ItemsOf(m', a) == ItemsOf(m, a)
    ensures Within(m, m')
  {}

  /** What a cut of the pending lists loses is of a remote account that had more than its slots. */
  lemma CutLoses(m: Lists, m': Lists, locals: set<Address>, slots: nat, tx: Tx)
    requires CutFairly(m, m', locals, slots) && Holds(m, tx) && !Holds(m', tx)
    ensures tx.From() !in locals && Len(m, tx.From()) > slots
  {
    var a := tx.From();
    assert Sub(m'[a].items, m[a].items);
    SmallerList(m'[a].items, m[a].items, tx.nonce);
  }

  lemma SmallerList(r: Items, m: Items, n: nat)
    requires Sub(r, m) && n in m && n !in r
    ensures |r| < |m|
  {
    assert r.Keys <= m.Keys - {n};
    SubSize(r.Keys, m.Keys - {n});
    assert m.Keys == m.Keys - {n} + {n};
  }

  lemma SubSize(r: set<nat>, m: set<nat>)
    requires r <= m
    ensures |r| <= |m|
  {
    assert m == r + (m - r);
  }
}
