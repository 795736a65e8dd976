/** The transaction pool: executable transactions in `pending`, future ones in `queue`. */
module TxPools {
  import opened Transactions
  import opened Nonces
  import opened ListModel
  import opened PoolAccounts
  import opened PricedLists
  import L = TxLists
  import E = Equalisation
  import IntrinsicGas

  datatype Error =
    | KnownTransaction | OversizedData | NegativeValue | GasLimit | InvalidSender | Underpriced
    | NonceTooLow | InsufficientFunds | OutOfGas | IntrinsicGas | ReplaceUnderpriced
  {
    /** The order in which the conditions are looked at. */
    function Rank(): nat {
      match this
      case KnownTransaction => 0
      case OversizedData => 1
      case NegativeValue => 2
      case GasLimit => 3
      case InvalidSender => 4
      case Underpriced => 5
      case NonceTooLow => 6
      case InsufficientFunds => 7
      case OutOfGas => 8
      case IntrinsicGas => 9
      case ReplaceUnderpriced => 10
    }
  }

  /** The state, the local accounts and the price floor that a submission is judged by. */
  datatype Rules = Rules(world: World, locals: set<Address>, gasPrice: nat, homestead: bool)

  /** What each refusal by validation stands for. */
  ghost predicate Fails(e: Error, tx: Tx, local: bool, r: Rules) {
    match e
    case OversizedData => tx.size > 32 * 1024
    case NegativeValue => tx.value < 0
    case GasLimit => tx.gas > r.world.maxGas
    case InvalidSender => tx.sender == None
    case Underpriced => !local && tx.From() !in r.locals && tx.price < r.gasPrice
    case NonceTooLow => tx.nonce < r.world.Nonce(tx.From())
    case InsufficientFunds => tx.Cost() > r.world.Balance(tx.From())
    case OutOfGas => IntrinsicGas.IntrinsicSum(tx.data, tx.create, r.homestead) > MAX_UINT64
    case IntrinsicGas => IntrinsicGas.IntrinsicSum(tx.data, tx.create, r.homestead) > tx.gas
    case _ => false
  }

  /** Nothing is wrong with a transaction by itself. */
  ghost predicate Passes(tx: Tx, local: bool, r: Rules) {
    forall e :: !Fails(e, tx, local, r)
  }

  /** Some known transaction holds the slot of `tx`, which does not outbid it. */
  ghost predicate Defended(tx: Tx, known: set<Tx>, bump: nat) {
    exists x :: x in known && x.From() == tx.From() && x.nonce == tx.nonce && !Outbids(tx, x, bump)
  }

  /** The grounds for a refusal: `full` tells that a full pool may refuse it as underpriced. */
  ghost predicate Grounds(e: Error, tx: Tx, local: bool, r: Rules, known: set<Tx>, full: bool, bump: nat) {
    match e
    case KnownTransaction => tx in known
    case ReplaceUnderpriced => Defended(tx, known, bump)
    case Underpriced => Fails(e, tx, local, r) || full
    case _ => Fails(e, tx, local, r)
  }

  lemma FailsIsGrounds(e: Error, tx: Tx, local: bool, r: Rules, known: set<Tx>, full: bool, bump: nat)
    requires Fails(e, tx, local, r)
    ensures Grounds(e, tx, local, r, known, full, bump) && e != KnownTransaction && e != ReplaceUnderpriced
  {}

  lemma DefendedIsGrounds(tx: Tx, local: bool, r: Rules, known: set<Tx>, known': set<Tx>, full: bool, bump: nat)
    requires Defended(tx, known, bump) && known <= known'
    ensures Grounds(ReplaceUnderpriced, tx, local, r, known', full, bump)
  {
    hide Outbids;
  }

  /** Grounds are grounds too where less is local, more is known or the pool is fuller. */
  lemma GroundsMore(e: Error, tx: Tx, local: bool, r: Rules, locals: set<Address>, known: set<Tx>, known': set<Tx>,
                    full: bool, full': bool, bump: nat)
    requires Grounds(e, tx, local, r, known, full, bump) && locals <= r.locals && known <= known' && (full ==> full')
    ensures Grounds(e, tx, local, r.(locals := locals), known', full', bump)
  {
    hide IntrinsicGas.IntrinsicSum, Outbids;
  }

  /** `tx` is remote, and some of the known transactions, enough to fill the pool, are all at least as dear. */
  ghost predicate Outpriced(tx: Tx, locals: set<Address>, known: set<Tx>, cap: nat) {
    !IsLocal(tx, locals) && exists s: set<Tx> :: s <= known && |s| >= cap && forall x | x in s :: x.price >= tx.price
  }

  lemma IsOutpriced(tx: Tx, locals: set<Address>, locals': set<Address>, s: set<Tx>, known: set<Tx>, cap: nat)
    requires !IsLocal(tx, locals') && locals <= locals' && s <= known && |s| >= cap
    requires forall x | x in s :: x.price >= tx.price
    ensures Outpriced(tx, locals, known, cap)
  {}

  /** What was known, and what has been taken in of a batch before its transaction `i`. */
  ghost function Before(known: set<Tx>, txs: seq<Tx>, errs: seq<Option<Error>>, i: nat): set<Tx>
    requires i <= |errs| <= |txs|
  {
    known + TxSet(TakenOf(txs[..i], errs[..i]))
  }

  /** A refusal of a batch has its ground in what was known and what the batch has brought before. */
  ghost predicate Refused(e: Error, txs: seq<Tx>, errs: seq<Option<Error>>, i: nat, local: bool, r: Rules,
                          known: set<Tx>, cap: nat, bump: nat)
    requires i <= |errs| <= |txs| && i < |txs|
  {
    var before := Before(known, txs, errs, i);
    Grounds(e, txs[i], local, r, before, Outpriced(txs[i], r.locals, before, cap), bump)
  }

  /** Every transaction of a batch that is refused is so with reason, and what is taken in passes. */
  ghost predicate Judged(txs: seq<Tx>, errs: seq<Option<Error>>, local: bool, r: Rules, known: set<Tx>, cap: nat,
                         bump: nat)
    requires |errs| <= |txs|
  {
    forall i | 0 <= i < |errs| ::
      if errs[i] == None then Passes(txs[i], local, r)
      else Refused(errs[i].value, txs, errs, i, local, r, known, cap, bump)
  }

  lemma JudgedNone(txs: seq<Tx>, local: bool, r: Rules, known: set<Tx>, cap: nat, bump: nat)
    ensures Judged(txs, [], local, r, known, cap, bump)
  {}

  lemma JudgedNext(txs: seq<Tx>, errs: seq<Option<Error>>, err: Option<Error>, local: bool, r: Rules, known: set<Tx>,
                   cap: nat, bump: nat)
    requires |errs| < |txs| && Judged(txs, errs, local, r, known, cap, bump)
    requires if err == None then Passes(txs[|errs|], local, r)
             else Refused(err.value, txs, errs, |errs|, local, r, known, cap, bump)
    ensures Judged(txs, errs + [err], local, r, known, cap, bump)
  {
    hide Passes, Grounds, Outpriced;
    var errs' := errs + [err];
    forall i | 0 <= i < |errs'|
      ensures if errs'[i] == None then Passes(txs[i], local, r)
              else Refused(errs'[i].value, txs, errs', i, local, r, known, cap, bump)
    {
      assert errs'[..i] == errs[..i];
    }
  }

  /** For a local submission it does not matter which accounts are local. */
  lemma PassesSame(tx: Tx, local: bool, r: Rules, locals: set<Address>)
    requires local || r.locals == locals
    ensures Passes(tx, local, r) <==> Passes(tx, local, r.(locals := locals))
  {
    hide IntrinsicGas.IntrinsicSum;
    var r' := r.(locals := locals);
    assert forall e :: Fails(e, tx, local, r) <==> Fails(e, tx, local, r');
  }

  // ---- what a pool with room makes of a batch ----

  /** The two lists of an account. */
  datatype Pair = Pair(pending: Items, queue: Items)

  ghost function PairOf(x: Slots, a: Address): Pair {
    Pair(ItemsOf(x.pending, a), ItemsOf(x.queue, a))
  }

  /** A transaction takes its slot, over a pending or a queued one only if it outbids that. */
  ghost function Took(l: Pair, tx: Tx, bump: nat): Pair {
    if tx.nonce in l.pending then
      if Outbids(tx, l.pending[tx.nonce], bump) then l.(pending := l.pending[tx.nonce := tx]) else l
    else if tx.nonce in l.queue && !Outbids(tx, l.queue[tx.nonce], bump) then l
    else l.(queue := l.queue[tx.nonce := tx])
  }

  /** What one transaction makes of the lists of `a`. */
  ghost function TakeIn(l: Pair, tx: Tx, a: Address, local: bool, r: Rules, bump: nat): Pair {
    if tx.From() == a && Passes(tx, local, r) then Took(l, tx, bump) else l
  }

  /** What a batch makes of them, one transaction after the other. */
  ghost function Brought(l: Pair, txs: seq<Tx>, a: Address, local: bool, r: Rules, bump: nat): Pair {
    if txs == [] then l
    else TakeIn(Brought(l, txs[..|txs| - 1], a, local, r, bump), txs[|txs| - 1], a, local, r, bump)
  }

  /** Every account's lists are what the batch makes of them. */
  ghost predicate AllBrought(x: Slots, y: Slots, txs: seq<Tx>, local: bool, r: Rules, bump: nat) {
    forall a :: PairOf(y, a) == Brought(PairOf(x, a), txs, a, local, r, bump)
  }

  ghost predicate OneBrought(x: Slots, y: Slots, tx: Tx, local: bool, r: Rules, bump: nat) {
    forall a :: PairOf(y, a) == TakeIn(PairOf(x, a), tx, a, local, r, bump)
  }

  lemma BroughtNone(x: Slots, txs: seq<Tx>, local: bool, r: Rules, bump: nat)
    ensures AllBrought(x, x, txs[..0], local, r, bump)
  {}

  lemma BroughtNext(x: Slots, y: Slots, z: Slots, txs: seq<Tx>, i: nat, local: bool, r: Rules, bump: nat)
    requires i < |txs| && AllBrought(x, y, txs[..i], local, r, bump) && OneBrought(y, z, txs[i], local, r, bump)
    ensures AllBrought(x, z, txs[..i + 1], local, r, bump)
  {
    hide TakeIn, PairOf;
    assert txs[..i + 1][..i] == txs[..i];
    forall a ensures PairOf(z, a) == Brought(PairOf(x, a), txs[..i + 1], a, local, r, bump) {
      assert PairOf(z, a) == TakeIn(PairOf(y, a), txs[i], a, local, r, bump);
    }
  }

  /** What is brought to an account, told by its lists before the state changed. */
  lemma SamePairs(x: Slots, y: Slots, z: Slots, txs: seq<Tx>, r: Rules, bump: nat)
    requires y.pending == x.pending && y.queue == x.queue && AllBrought(y, z, txs, false, r, bump)
    ensures forall a ::
              Pair(ItemsOf(z.pending, a), ItemsOf(z.queue, a)) == Brought(PairOf(x, a), txs, a, false, r, bump)
  {
    hide Brought;
    forall a ensures PairOf(z, a) == Brought(PairOf(x, a), txs, a, false, r, bump) {
      assert PairOf(y, a) == PairOf(x, a);
    }
  }

  /** In a pool with room the lists before, what comes back and the new state tell which accounts are in order. */
  lemma RoomOrder(x: Slots, w: World, good: iset<Address>, y: Slots, known: set<Tx>, txs: seq<Tx>, r: Batch, t: Turn,
                  z: Slots, rules: Rules, c: Config, straight: iset<Address>)
    requires AllPlaced(x, w, good) && y == Slots(x.pending, x.queue, map[]) && |known| + |txs| <= c.globalSlots
    requires Batched(y, known, |txs|, r, t.before, rules.world, rules.locals, c)
    requires AllBrought(y, r.start, txs, false, rules, c.priceBump)
    requires Turned(t, rules.world, rules.locals, c.accountQueue) && straight == Straights(t.before, rules.world)
    requires z.pending == t.mid.pending && z.managed == t.mid.managed && AllPlaced(z, rules.world, straight)
    ensures forall a | a in good ::
              OrderedIn(z, rules.world, a) <==>
              var l := Brought(PairOf(x, a), txs, a, false, rules, c.priceBump);
              Rejoins(l.pending, w.Nonce(a), x.Nonce(w, a), Payable(l.queue, a, rules.world).Keys, a, rules.world)
  {
    hide AllPlaced, Batched, Turned, Straights, OrderedIn, Rejoins, Payable, Brought, AllBrought, ItemsOf;
    AllRejoin(x, w, good, y, known, |txs|, r, t, rules.world, z, rules.locals, c, straight);
    SamePairs(x, y, r.start, txs, rules, c.priceBump);
  }

  /** Who sends nothing that comes back sends nothing that is taken in. */
  lemma SendsTaken(txs: seq<Tx>, errs: seq<Option<Error>>)
    requires |errs| == |txs|
    ensures forall a | !Sends(txs, a) :: !Sends(TakenOf(txs, errs), a)
  {
    TakenFrom(txs, errs);
  }

  /** Which accounts a new head leaves in order, of those that were.  With room, exactly those whose pending nonces and
      what comes back join up, told by the lists before, the transactions and the new state.  In any pool, of those of
      which nothing is taken in, exactly those that have lost no pending nonce that the state has gone past; of the
      others the virtual nonce has fallen behind.  A local account loses none, nor does any with room, and none is to
      lose where the state has not moved on. */
  ghost predicate InOrderAfter(x: Slots, w: World, good: iset<Address>, room: bool, txs: seq<Tx>, r: Batch, t: Turn,
                               z: Slots, rules: Rules, bump: nat, straight: iset<Address>)
  {
    && (txs == [] ==> good <= straight)
    && (room ==>
          forall a | a in good ::
            OrderedIn(z, rules.world, a) <==>
            var l := Brought(PairOf(x, a), txs, a, false, rules, bump);
            Rejoins(l.pending, w.Nonce(a), x.Nonce(w, a), Payable(l.queue, a, rules.world).Keys, a, rules.world))
    && (forall a | a in good && !Sends(r.taken, a) ::
          && (OrderedIn(z, rules.world, a) <==> a in straight)
          && (a in straight <==>
                Unforgotten(ItemsOf(x.pending, a), ItemsOf(t.before.pending, a), rules.world.Nonce(a)))
          && (a !in straight ==> z.Nonce(rules.world, a) < rules.world.Nonce(a)))
    && (forall a | a in good && !Sends(txs, a) && (a in rules.locals || room || rules.world.Nonce(a) <= w.Nonce(a)) ::
          a in straight)
  }

  lemma HeadOrder(x: Slots, w: World, good: iset<Address>, known: set<Tx>, txs: seq<Tx>, errs: seq<Option<Error>>,
                  r: Batch, t: Turn, z: Slots, rules: Rules, c: Config, straight: iset<Address>)
    requires AllPlaced(x, w, good) && |errs| == |txs| && r.taken == TakenOf(txs, errs)
    requires var y := Slots(x.pending, x.queue, map[]);
             && Batched(y, known, |txs|, r, t.before, rules.world, rules.locals, c)
             && (|known| + |txs| <= c.globalSlots ==> AllBrought(y, r.start, txs, false, rules, c.priceBump))
             && (forall a | !Sends(r.taken, a) ::
                   SparedAt(y, t.before, rules.world, a, a in rules.locals || |known| + |txs| <= c.globalSlots))
             && (txs == [] ==> t.before == y)
    requires Turned(t, rules.world, rules.locals, c.accountQueue) && straight == Straights(t.before, rules.world)
    requires |known| + |txs| <= c.globalSlots ==> z.pending == t.mid.pending && z.managed == t.mid.managed
    requires AllPlaced(z, rules.world, straight) && AllCurtailed(t.mid, z, rules.world)
    ensures InOrderAfter(x, w, good, |known| + |txs| <= c.globalSlots, txs, r, t, z, rules, c.priceBump, straight)
  {
    hide AllPlaced, Batched, AllBrought, Turned, Straights, OrderedIn, Rejoins, Payable, Brought, Sends, SparedAt,
        Unforgotten, AllCurtailed, TakenOf, VirtualNonce, ItemsOf, PairOf;
    var y, room := Slots(x.pending, x.queue, map[]), |known| + |txs| <= c.globalSlots;
    if txs == [] {
      GoodStraight(x, w, good, rules.world, straight);
    }
    if room {
      RoomOrder(x, w, good, y, known, txs, r, t, z, rules, c, straight);
    }
    AllSpared(x, w, good, y, t, rules.world, z, rules.locals, c.accountQueue, straight, r.taken, room);
    SendsTaken(txs, errs);
  }

  /** The holder of a slot is the known transaction of that account and nonce. */
  lemma SlotHolder(known: set<Tx>, x: Slots, tx: Tx)
    requires Partition(known, x.pending, x.queue) && Apart(x.pending, x.queue, tx.From()) && tx in known
    ensures var l := PairOf(x, tx.From());
            if tx.nonce in l.pending then l.pending[tx.nonce] == tx else tx.nonce in l.queue && l.queue[tx.nonce] == tx
  {
    ApartKeys(x.pending, x.queue, tx.From());
    assert Holds(x.pending, tx) || Holds(x.queue, tx);
    assert Holds(x.queue, tx) ==> tx.nonce in ItemsOf(x.queue, tx.From()).Keys;
  }

  /** A transaction that is taken in. */
  lemma BroughtTaken(known: set<Tx>, x: Slots, y: Slots, tx: Tx, victim: Option<Tx>, local: bool, r: Rules, bump: nat)
    requires Partition(known, x.pending, x.queue) && Apart(x.pending, x.queue, tx.From()) && Slotted(x, y, tx)
    requires Passes(tx, local, r)
    requires victim.Some? <==> tx.nonce in ItemsOf(x.pending, tx.From()) || tx.nonce in ItemsOf(x.queue, tx.From())
    requires victim.Some? ==> victim.value in known && victim.value.From() == tx.From()
                              && victim.value.nonce == tx.nonce && Outbids(tx, victim.value, bump)
    ensures OneBrought(x, y, tx, local, r, bump)
  {
    hide Passes, Partition, Apart, Outbids;
    if victim.Some? {
      SlotHolder(known, x, victim.value);
    }
    forall a ensures PairOf(y, a) == TakeIn(PairOf(x, a), tx, a, local, r, bump) {
      if a != tx.From() {
        SameElsewhere(x.pending, y.pending, tx.From(), a);
        SameElsewhere(x.queue, y.queue, tx.From(), a);
      }
    }
  }

  /** A transaction that is refused in a pool that is not full. */
  lemma BroughtRefused(known: set<Tx>, x: Slots, tx: Tx, e: Error, local: bool, r: Rules, bump: nat)
    requires Partition(known, x.pending, x.queue) && Apart(x.pending, x.queue, tx.From())
    requires Grounds(e, tx, local, r, known, false, bump)
    ensures OneBrought(x, x, tx, local, r, bump)
  {
    hide Partition, Apart, Fails;
    if tx in known {
      SlotHolder(known, x, tx);
    } else if Defended(tx, known, bump) {
      var h :| h in known && h.From() == tx.From() && h.nonce == tx.nonce && !Outbids(tx, h, bump);
      SlotHolder(known, x, h);
    } else {
      assert Fails(e, tx, local, r);
    }
  }

  /** Whatever becomes of a submission to a pool that is not full. */
  lemma AddBrought(now: set<Tx>, x: Slots, mid: Slots, y: Slots, tx: Tx, err: Option<Error>, d: set<Tx>,
                   victim: Option<Tx>, full: bool, local: bool, r: Rules, locals: set<Address>, cap: nat, bump: nat)
    requires Partition(now, x.pending, x.queue) && Apart(x.pending, x.queue, tx.From())
    requires local || r.locals == locals
    requires (d != {} ==> |d| + cap <= |now| + 1) && (d == {} ==> mid == x) && (full ==> |now| >= cap)
    requires victim.Some? ==> victim.value in now - d && victim.value.From() == tx.From()
                              && victim.value.nonce == tx.nonce && Outbids(tx, victim.value, bump)
    requires err == None ==>
               && Passes(tx, local, r) && Slotted(mid, y, tx)
               && (victim.Some? <==> tx.nonce in ItemsOf(mid.pending, tx.From())
                                     || tx.nonce in ItemsOf(mid.queue, tx.From()))
    requires err.Some? ==> Grounds(err.value, tx, local, r, now, full, bump) && y == mid
    ensures err == None ==> Passes(tx, local, r.(locals := locals))
    ensures |now| < cap ==> OneBrought(x, y, tx, local, r.(locals := locals), bump)
  {
    hide Partition, Apart, Passes, Slotted, Outbids, Grounds, OneBrought, ItemsOf;
    PassesSame(tx, local, r, locals);
    if |now| < cap {
      if err == None {
        BroughtTaken(now, x, y, tx, victim, local, r, bump);
      } else {
        BroughtRefused(now, x, tx, err.value, local, r, bump);
      }
      SameRules(x, y, tx, local, r, locals, bump);
    }
  }

  lemma SameRules(x: Slots, y: Slots, tx: Tx, local: bool, r: Rules, locals: set<Address>, bump: nat)
    requires OneBrought(x, y, tx, local, r, bump) && (local || r.locals == locals)
    ensures OneBrought(x, y, tx, local, r.(locals := locals), bump)
  {
    hide PairOf, Took, Passes;
    PassesSame(tx, local, r, locals);
  }

  /** An operation on the pool.  A new head brings back the transactions that the chain has given up. */
  datatype Op =
    | Submit(tx: Tx, local: bool)
    | SubmitAll(txs: seq<Tx>, local: bool)
    | Discard(tx: Tx)
    | Reprice(price: nat)
    | Expire(accounts: set<Address>)
    | NewHead(world: World, isHomestead: bool, reinject: seq<Tx>)
  {
    /** The nonce after each submitted one fits in 64 bits. */
    predicate Representable() {
      match this
      case Submit(tx, _) => tx.nonce < MAX_UINT64
      case SubmitAll(txs, _) => forall i | 0 <= i < |txs| :: txs[i].nonce < MAX_UINT64
      case NewHead(_, _, txs) => forall i | 0 <= i < |txs| :: txs[i].nonce < MAX_UINT64
      case _ => true
    }

    /** Nothing is brought back. */
    predicate Plain() {
      NewHead? ==> reinject == []
    }

    /** Something of the account is brought back. */
    ghost predicate BringsBack(a: Address) {
      NewHead? && Sends(reinject, a)
    }

    /** How many transactions come to the pool. */
    function Size(): nat {
      match this
      case Submit(_, _) => 1
      case SubmitAll(txs, _) => |txs|
      case NewHead(_, _, txs) => |txs|
      case _ => 0
    }
  }

  /** The transactions of a batch that were taken in. */
  ghost function TakenOf(txs: seq<Tx>, errs: seq<Option<Error>>): seq<Tx>
    requires |errs| == |txs|
  {
    if txs == [] then []
    else
      var n := |txs| - 1;
      TakenOf(txs[..n], errs[..n]) + if errs[n] == None then [txs[n]] else []
  }

  lemma TakenNone(txs: seq<Tx>)
    ensures TakenOf(txs[..0], []) == []
  {}

  lemma TakenNext(txs: seq<Tx>, errs: seq<Option<Error>>, i: nat)
    requires |errs| == i < |txs|
    ensures forall err: Option<Error> ::
              TakenOf(txs[..i + 1], errs + [err]) == TakenOf(txs[..i], errs) + if err == None then [txs[i]] else []
  {
    forall err: Option<Error>
      ensures TakenOf(txs[..i + 1], errs + [err]) == TakenOf(txs[..i], errs) + if err == None then [txs[i]] else []
    {
      assert txs[..i + 1][..i] == txs[..i] && (errs + [err])[..i] == errs;
    }
  }

  lemma {:induction false} TakenAt(txs: seq<Tx>, errs: seq<Option<Error>>, i: nat)
    requires |errs| == |txs| && i < |txs| && errs[i] == None
    ensures txs[i] in TakenOf(txs, errs)
    decreases |txs|
  {
    var n := |txs| - 1;
    if i < n {
      TakenAt(txs[..n], errs[..n], i);
    }
  }

  lemma {:induction false} TakenFrom(txs: seq<Tx>, errs: seq<Option<Error>>)
    requires |errs| == |txs|
    ensures forall tx | tx in TakenOf(txs, errs) :: tx in txs
    decreases |txs|
  {
    if txs != [] {
      TakenFrom(txs[..|txs| - 1], errs[..|txs| - 1]);
    }
  }

  /** The transactions of a list in the order of a map iteration, which may be any. */
  method Enumerate(m: Items) returns (txs: seq<Tx>)
    requires WellKeyed(m)
    ensures L.Lists(txs, m)
  {
    var kept;
    kept, txs := L.Partition(m, (tx: Tx) => true);
    assert Dropped(m, (tx: Tx) => true) == m;
  }

  class TxPool {
    const config: Config
    const priced: PricedList
    var gasPrice: nat
    var world: World
    var homestead: bool
    var managed: map<Address, nat>
    var locals: set<Address>
    var pending: Lists
    var queue: Lists
    var all: set<Tx>

    constructor (config: Config, gasPrice: nat, world: World, homestead: bool)
      ensures Valid() && fresh(priced) && all == {} && Now() == Slots(map[], map[], map[])
      ensures this.config == config && Judging() == Rules(world, {}, gasPrice, homestead)
    {
      this.config, this.gasPrice, this.world, this.homestead := config, gasPrice, world, homestead;
      managed, locals, pending, queue, all := map[], {}, map[], map[], {};
      priced := new PricedList();
    }

    /** The virtual nonce of an account: the managed one if there is one, else that of the state. */
    function PendingNonce(a: Address): nat
      reads this`managed, this`world
    {
      VirtualNonce(managed, world, a)
    }

    /** The price heap holds every known transaction but perhaps those in `missing`, which are about to
        be removed. */
    ghost predicate PricedOk(missing: set<Tx>)
      reads this`all, priced
    {
      priced.Valid() && priced.Covers(all - missing)
    }

    ghost predicate Struct()
      reads this`pending, this`queue, this`all
    {
      ListsOk(pending, true) && ListsOk(queue, false) && Partition(all, pending, queue)
    }

    ghost predicate OrderedAt(a: Address)
      reads this`pending, this`queue, this`managed, this`world
    {
      OrderedIn(Now(), world, a)
    }

    /** The lists and the managed nonces, as a value. */
    ghost function Now(): Slots
      reads this`pending, this`queue, this`managed
    {
      Slots(pending, queue, managed)
    }

    /** Every account is in order, or where it need not be, no nonce is in both of its lists. */
    ghost predicate InOrder(good: iset<Address>)
      reads this`pending, this`queue, this`managed, this`world
    {
      AllPlaced(Now(), world, good)
    }

    ghost predicate Pooled(good: iset<Address>)
      reads this`pending, this`queue, this`all, this`managed, this`world, priced
    {
      Struct() && PricedOk({}) && InOrder(good)
    }

    /** Remote transactions are not below the price floor. */
    ghost predicate Floor()
      reads this`all, this`locals, this`gasPrice
    {
      forall tx | tx in all :: tx.From() in locals || gasPrice <= tx.price
    }

    /** The state has not gone past any transaction, and each is affordable. */
    ghost predicate Fit()
      reads this`all, this`world
    {
      forall tx | tx in all :: Sound(tx, world)
    }

    /** The pool is within its limit, or holds no more than one remote transaction. */
    ghost predicate Limited()
      reads this`all, this`locals
    {
      LimitedTo(all, locals, config.globalSlots + config.globalQueue)
    }

    /** What every operation keeps, whichever the accounts in order are. */
    ghost predicate Kept(good: iset<Address>)
      reads this, priced
    {
      Pooled(good) && Floor() && Fit() && Limited()
    }

    /** The invariant of the pool between operations: all of that, with every account in order. */
    ghost predicate Valid()
      reads this, priced
    {
      Kept(EVERYONE)
    }

    /** Forgets a batch of transactions, one by one. */
    method Forget(txs: seq<Tx>)
      requires PricedOk({})
      modifies this`all, priced
      ensures PricedOk({}) && all == old(all) - (set tx | tx in txs)
    {
      for i := 0 to |txs|
        invariant PricedOk({}) && all == old(all) - (set tx | tx in txs[..i])
      {
        all := all - {txs[i]};
        priced.Removed(all);
        assert txs[..i + 1] == txs[..i] + [txs[i]];
      }
      assert txs[..|txs|] == txs;
    }

    /** Inserts a transaction into the future queue of its sender. */
    method EnqueueTx(tx: Tx, ghost missing: set<Tx>) returns (replaced: bool, err: Option<Error>)
      requires PricedOk(missing)
      modifies this`queue, this`all, priced
      ensures PricedOk(missing)
      ensures var r := ListModel.Add(Get(old(queue), tx.From(), false), tx, config.priceBump);
              && queue == old(queue)[tx.From() := r.list]
              && err == (if r.inserted then None else Some(ReplaceUnderpriced))
              && replaced == r.replaced.Some?
              && all == (if !r.inserted then old(all)
                         else (if r.replaced.Some? then old(all) - {r.replaced.value} else old(all)) + {tx})
    {
      var from := tx.From();
      if from !in queue {
        queue := queue[from := NewList(false)];
      }
      var r := ListModel.Add(queue[from], tx, config.priceBump);
      queue := queue[from := r.list];
      if !r.inserted {
        return false, Some(ReplaceUnderpriced);
      }
      if r.replaced.Some? {
        all := all - {r.replaced.value};
        priced.Removed(all);
      }
      all := all + {tx};
      priced.Put(tx);
      return r.replaced.Some?, None;
    }

    /** Puts transactions back into the queue of `a`, whose nonces are free there. */
    method Postpone(a: Address, txs: seq<Tx>, ghost m: Items, ghost missing: set<Tx>)
      requires PricedOk(missing) && ListsOk(queue, false)
      requires L.Lists(txs, m) && WellKeyed(m) && Owned(m, a) && m.Keys !! ItemsOf(queue, a).Keys
      requires forall n | n in m :: m[n] in all
      modifies this`queue, this`all, priced
      ensures PricedOk(missing) && ListsOk(queue, false) && all == old(all)
      ensures SameBut(old(queue), queue, a) && ItemsOf(queue, a) == ItemsOf(old(queue), a) + m
    {
      hide ListsOk, L.Lists, WellKeyed, Owned, Grown, PricedOk, ListModel.Add, Get;
      ghost var base := ItemsOf(queue, a);
      GrownEnds(base, m, txs);
      for i := 0 to |txs|
        invariant PricedOk(missing) && ListsOk(queue, false) && all == old(all)
        invariant SameBut(old(queue), queue, a)
        invariant ItemsOf(queue, a) == Grown(base, m, txs, i)
      {
        GrownSnoc(base, m, a, txs, i);
        AddFree(queue, a, false, txs[i], config.priceBump);
        var _, _ := EnqueueTx(txs[i], missing);
      }
    }

    /** Removes a transaction wherever it is.  A pending one takes the higher nonces of its account back
        to the queue. */
    method RemoveTx(tx: Tx, ghost missing: set<Tx>, ghost good: iset<Address>)
      requires Struct() && InOrder(good) && PricedOk(missing)
      modifies this`all, this`pending, this`queue, this`managed, priced
      ensures Struct() && InOrder(good) && PricedOk(missing) && all == old(all) - {tx}
      ensures SameBut(old(pending), pending, tx.From()) && SameBut(old(queue), queue, tx.From())
      ensures NoncesBut(old(managed), managed, world, tx.From())
      ensures tx !in old(all) ==> pending == old(pending) && queue == old(queue) && managed == old(managed)
      ensures Holds(old(queue), tx) ==>
                pending == old(pending) && managed == old(managed)
                && ItemsOf(queue, tx.From()) == ItemsOf(old(queue), tx.From()) - {tx.nonce}
      ensures Holds(old(pending), tx) ==>
                && ItemsOf(pending, tx.From()) == Below(ItemsOf(old(pending), tx.From()), tx.nonce)
                && ItemsOf(queue, tx.From()) ==
                   ItemsOf(old(queue), tx.From()) + AtLeast(ItemsOf(old(pending), tx.From()), tx.nonce + 1)
                && PendingNonce(tx.From()) == if old(PendingNonce(tx.From())) > tx.nonce then tx.nonce
                                              else old(PendingNonce(tx.From()))
    {
      hide ListsOk, Partition, Ordered, Holds, Remove, WellKeyed, Owned, L.Lists, Apart, Below, AtLeast;
      HeldKnown(all, pending, queue, tx);
      if tx !in all {
        assert all - {tx} == all;
        return;
      }
      var a := tx.From();
      ghost var known, p, q, lo, hi := all, pending, queue, world.Nonce(a), PendingNonce(a);
      OnePlaced(Now(), world, a, good);
      Whereabouts(known, p, q, tx, a);
      all := all - {tx};
      priced.Removed(all);
      if a in pending && Remove(pending[a], tx.nonce).found {
        var r := Remove(pending[a], tx.nonce);
        InvalidsFree(known, p, q, tx, a);
        pending := Put(pending, a, r.list);
        var invalids := Enumerate(r.invalids);
        Postpone(a, invalids, r.invalids, missing);
        RemovePending(known, p, q, queue, tx, a);
        if PendingNonce(a) > tx.nonce {
          managed := managed[a := tx.nonce];
        }
        ApartKeys(pending, queue, a);
        RemovedPlaced(ItemsOf(p, a), ItemsOf(q, a), ItemsOf(pending, a), ItemsOf(queue, a), lo, hi, PendingNonce(a),
            a in good, tx.nonce);
        OthersPlaced(old(Now()), Now(), world, a, good);
        return;
      }
      RemoveQueued(known, p, q, tx, a);
      if a in queue {
        queue := Put(queue, a, Remove(queue[a], tx.nonce).list);
      }
      PlacedSub(ItemsOf(p, a), ItemsOf(q, a), ItemsOf(pending, a), ItemsOf(queue, a), lo, hi, a in good);
      OthersPlaced(old(Now()), Now(), world, a, good);
    }

    lemma KnownHeld(tx: Tx)
      requires Struct()
      ensures tx in all <==> Holds(pending, tx) || Holds(queue, tx)
    {}

    method RemoveEach(txs: seq<Tx>, ghost missing: set<Tx>, ghost good: iset<Address>)
      requires Struct() && InOrder(good) && PricedOk(missing)
      modifies this`all, this`pending, this`queue, this`managed, priced
      ensures Struct() && InOrder(good) && PricedOk(missing) && all == old(all) - TxSet(txs)
      ensures TouchedBy(old(Now()), Now(), world, TxSet(txs)) && AllCurtailed(old(Now()), Now(), world)
      ensures txs == [] ==> Now() == old(Now())
    {
      hide Struct, AllPlaced, PricedOk, TouchedBy, SameBut, TxSet, NoncesBut, AllCurtailed;
      ghost var x := Now();
      CurtailedSame(x, x, world);
      TouchedByNone(x, world);
      EmptyTxSet(txs[..0]);
      for i := 0 to |txs|
        invariant Struct() && InOrder(good) && PricedOk(missing) && all == old(all) - TxSet(txs[..i])
        invariant TouchedBy(x, Now(), world, TxSet(txs[..i])) && AllCurtailed(x, Now(), world)
        invariant i == 0 ==> Now() == x
      {
        ghost var y := Now();
        KnownHeld(txs[i]);
        RemoveTx(txs[i], missing, good);
        RemovedCurtails(y, Now(), world, txs[i]);
        AllCurtailedThen(x, y, Now(), world);
        TouchedOnly(y, Now(), world, txs[i].From());
        TouchedNext(x, y, Now(), world, txs, i);
        OneMoreTx(txs, i);
      }
      assert txs[..|txs|] == txs;
    }

    /** Raises or lowers the price floor; remote transactions below it leave the pool. */
    method SetGasPrice(price: nat, ghost good: iset<Address>)
      requires Kept(good)
      modifies this`gasPrice, this`all, this`pending, this`queue, this`managed, priced
      ensures Kept(good) && gasPrice == price
      ensures all == set tx | tx in old(all) && (tx.From() in locals || price <= tx.price)
    {
      hide ListsOk, Partition, InOrder, AllCurtailed, LimitedTo;
      KnownOwned(all, pending, queue);
      gasPrice := price;
      var drop := priced.Cap(price, all, locals);
      ghost var dropped := TxSet(drop);
      assert all - dropped == set tx | tx in all && tx !in drop;
      RemoveEach(drop, dropped, good);
      assert all - {} == all - dropped;
      LimitedLess(old(all), all, locals, locals, Cap());
    }

    /** What a submission is judged by. */
    ghost function Judging(): Rules
      reads this`world, this`locals, this`gasPrice, this`homestead
    {
      Rules(world, locals, gasPrice, homestead)
    }

    /** Accepts exactly the transactions that meet all of the pool's conditions, and else tells the first, in a
        fixed order, that is not met. */
    method ValidateTx(tx: Tx, local: bool) returns (err: Option<Error>)
      ensures err == None ==> Passes(tx, local, Judging())
      ensures err.Some? ==> Fails(err.value, tx, local, Judging())
                            && forall e: Error | e.Rank() < err.value.Rank() :: !Fails(e, tx, local, Judging())
    {
      if tx.size > 32 * 1024 {
        return Some(OversizedData);
      }
      if tx.value < 0 {
        return Some(NegativeValue);
      }
      if world.maxGas < tx.gas {
        return Some(GasLimit);
      }
      if tx.sender.None? {
        return Some(InvalidSender);
      }
      var from := tx.From();
      if !(local || from in locals) && gasPrice > tx.price {
        return Some(Underpriced);
      }
      if world.Nonce(from) > tx.nonce {
        return Some(NonceTooLow);
      }
      if world.Balance(from) < tx.Cost() {
        return Some(InsufficientFunds);
      }
      var intrinsic := IntrinsicGas.IntrinsicGas(tx.data, tx.create, homestead);
      if intrinsic.None? {
        return Some(OutOfGas);
      }
      if tx.gas < intrinsic.value {
        return Some(Error.IntrinsicGas);
      }
      return None;
    }

    /** What an accepted transaction is like. */
    lemma Accepted(tx: Tx, local: bool)
      requires Passes(tx, local, Judging())
      ensures tx.sender.Some? && Sound(tx, world) && (local || tx.From() in locals || gasPrice <= tx.price)
    {
      var r := Judging();
      assert !Fails(InvalidSender, tx, local, r) && !Fails(Underpriced, tx, local, r);
      assert !Fails(NonceTooLow, tx, local, r) && !Fails(InsufficientFunds, tx, local, r);
      assert !Fails(GasLimit, tx, local, r);
    }

    /** Makes room in a full pool: drops the cheapest remote transactions, and at least one if there is any. */
    method MakeRoom(ghost good: iset<Address>) returns (ghost dropped: set<Tx>)
      requires Pooled(good) && Floor()
      modifies this`all, this`pending, this`queue, this`managed, priced
      ensures Pooled(good) && Floor() && all == old(all) - dropped && Cheapest(dropped, old(all), locals)
      ensures |old(all)| >= config.globalSlots + config.globalQueue ==>
                dropped != {} || forall tx | tx in old(all) :: tx.From() in locals
      ensures dropped != {} ==> |dropped| + Cap() <= |old(all)| + 1
      ensures TouchedBy(old(Now()), Now(), world, dropped) && AllCurtailed(old(Now()), Now(), world)
      ensures dropped == {} ==> Now() == old(Now())
    {
      hide ListsOk, Partition, AllPlaced, TouchedBy, Cheapest, AllCurtailed;
      KnownOwned(all, pending, queue);
      var drop := priced.Discard(|all| - (config.globalSlots + config.globalQueue - 1), all, locals);
      dropped := TxSet(drop);
      EmptyTxSet(drop);
      TxSetSize(drop);
      DroppedCheapest(drop, all, locals);
      assert all - dropped == set tx | tx in all && tx !in drop;
      RemoveEach(drop, dropped, good);
      assert all - {} == all - dropped;
    }

    /** `x` was known and had to give way to `tx`, which outbids it in the same slot. */
    ghost predicate Outbid(x: Tx, tx: Tx, known: set<Tx>) {
      x in known && x.From() == tx.From() && x.nonce == tx.nonce && Outbids(tx, x, config.priceBump)
    }

    /** The replacement of a pending transaction with the same nonce. */
    method ReplacePending(tx: Tx, ghost good: iset<Address>)
      returns (replaced: bool, err: Option<Error>, ghost victim: Option<Tx>)
      requires Pooled(good) && Floor() && tx.sender.Some? && tx.nonce < MAX_UINT64
      requires tx.nonce in ItemsOf(pending, tx.From())
      modifies this`all, this`pending, priced
      ensures Pooled(good) && Floor()
      ensures err == None || err == Some(ReplaceUnderpriced)
      ensures err == None ==> all == Replace(old(all), victim, tx) && replaced == victim.Some?
                              && Slotted(old(Now()), Now(), tx)
      ensures victim.Some? ==> Outbid(victim.value, tx, old(all))
      ensures err.Some? ==>
                all == old(all) && Now() == old(Now()) && victim == None && Defended(tx, all, config.priceBump)
      ensures err == None ==> replaced
    {
      hide ListsOk, Partition, Ordered, ListModel.Add, Apart;
      victim, replaced := None, false;
      var from := tx.From();
      OnePlaced(Now(), world, from, good);
      ReplaceFacts(all, pending, queue, tx, config.priceBump);
      var r := ListModel.Add(pending[from], tx, config.priceBump);
      if !r.inserted {
        err := Some(ReplaceUnderpriced);
        return;
      }
      pending := pending[from := r.list];
      if r.replaced.Some? {
        all := all - {r.replaced.value};
        priced.Removed(all);
      }
      all := all + {tx};
      priced.Put(tx);
      victim, replaced, err := r.replaced, r.replaced.Some?, None;
      assert ItemsOf(pending, from).Keys == ItemsOf(old(pending), from).Keys;
      PlacedSub(ItemsOf(old(pending), from), ItemsOf(queue, from), ItemsOf(pending, from), ItemsOf(queue, from),
          world.Nonce(from), PendingNonce(from), from in good);
      OthersPlaced(old(Now()), Now(), world, from, good);
    }

    /** The insertion into the queue of a transaction whose nonce is not pending; a local one marks its
        sender as local. */
    method EnqueueNew(tx: Tx, local: bool, ghost good: iset<Address>)
      returns (replaced: bool, err: Option<Error>, ghost victim: Option<Tx>)
      requires Pooled(good) && Floor() && tx.sender.Some? && tx.nonce < MAX_UINT64
      requires world.Nonce(tx.From()) <= tx.nonce && tx.nonce !in ItemsOf(pending, tx.From())
      requires local || tx.From() in locals || gasPrice <= tx.price
      modifies this`locals, this`all, this`queue, priced
      ensures Pooled(good) && Floor()
      ensures err == None || err == Some(ReplaceUnderpriced)
      ensures err == None ==> all == Replace(old(all), victim, tx) && replaced == victim.Some?
                              && Slotted(old(Now()), Now(), tx)
                              && (replaced <==> tx.nonce in ItemsOf(old(queue), tx.From()))
      ensures victim.Some? ==> Outbid(victim.value, tx, old(all))
      ensures err.Some? ==>
                all == old(all) && Now() == old(Now()) && victim == None && Defended(tx, all, config.priceBump)
      ensures locals == if local && err == None then old(locals) + {tx.From()} else old(locals)
    {
      hide ListsOk, Partition, Ordered, ListModel.Add, Get, Apart;
      victim := None;
      var from := tx.From();
      OnePlaced(Now(), world, from, good);
      EnqueueFacts(all, pending, queue, tx, config.priceBump);
      ghost var r := ListModel.Add(Get(queue, from, false), tx, config.priceBump);
      replaced, err := EnqueueTx(tx, {});
      if err == None {
        victim := r.replaced;
        if local {
          locals := locals + {from};
        }
        PlacedMore(ItemsOf(pending, from), ItemsOf(old(queue), from), ItemsOf(queue, from), world.Nonce(from),
            PendingNonce(from), from in good, tx.nonce);
        OthersPlaced(old(Now()), Now(), world, from, good);
      }
    }

    /** Decides on a transaction, and makes room for it in a full pool. */
    method Admit(tx: Tx, local: bool, ghost good: iset<Address>) returns (err: Option<Error>, ghost dropped: set<Tx>)
      requires Pooled(good) && Floor()
      modifies this`all, this`pending, this`queue, this`managed, priced
      ensures Pooled(good) && Floor() && all == old(all) - dropped && Cheapest(dropped, old(all), locals)
      ensures dropped != {} ==> |dropped| + Cap() <= |old(all)| + 1
      ensures err == None && |old(all)| >= config.globalSlots + config.globalQueue ==>
                dropped != {} || forall x | x in old(all) :: x.From() in locals
      ensures TouchedBy(old(Now()), Now(), world, dropped) && AllCurtailed(old(Now()), Now(), world)
      ensures dropped == {} ==> Now() == old(Now())
      ensures tx in old(all) <==> err == Some(KnownTransaction)
      ensures err != Some(ReplaceUnderpriced) && (err.Some? ==> dropped == {})
      ensures err.Some? ==> Grounds(err.value, tx, local, Judging(), old(all), Worst(tx, old(all)), config.priceBump)
      ensures err == None ==> tx.sender.Some? && Sound(tx, world) && Passes(tx, local, Judging())
                              && (local || tx.From() in locals || gasPrice <= tx.price)
    {
      hide ListsOk, Partition, InOrder, TouchedBy, Cheapest, Fails, Passes, Sound, Defended, AllCurtailed;
      dropped := {};
      CurtailedSame(Now(), Now(), world);
      NothingDropped(all, locals);
      TouchedByNone(Now(), world);
      if tx in all {
        err := Some(KnownTransaction);
        return;
      }
      err := ValidateTx(tx, local);
      if err.Some? {
        FailsIsGrounds(err.value, tx, local, Judging(), all, Worst(tx, all), config.priceBump);
        return;
      }
      Accepted(tx, local);
      if |all| >= config.globalSlots + config.globalQueue {
        var under := priced.Underpriced(tx, all, locals);
        if under {
          err := Some(Underpriced);
          return;
        }
        dropped := MakeRoom(good);
      }
    }

    /** The pool is full and the transaction, a remote one, is no better than any in it. */
    ghost predicate Worst(tx: Tx, known: set<Tx>)
      reads this`locals
    {
      && |known| >= config.globalSlots + config.globalQueue && !IsLocal(tx, locals)
      && forall x | x in known :: x.price >= tx.price
    }

    /** Validates a transaction and takes it in: over a pending one with the same nonce, else into the
        queue.  `dropped` are the transactions a full pool gave up for it, `victim` the one it outbid, and `mid`
        the lists after the one and before the other. */
    method Add(tx: Tx, local: bool, ghost good: iset<Address>)
      returns (replaced: bool, err: Option<Error>, ghost dropped: set<Tx>, ghost victim: Option<Tx>, ghost mid: Slots)
      requires Pooled(good) && Floor() && tx.nonce < MAX_UINT64
      modifies this`locals, this`all, this`pending, this`queue, this`managed, priced
      ensures Pooled(good) && Floor()
      ensures Cheapest(dropped, old(all), old(locals))
      ensures dropped != {} ==> |dropped| + Cap() <= |old(all)| + 1
      ensures err == None && |old(all)| >= config.globalSlots + config.globalQueue ==>
                dropped != {} || forall x | x in old(all) :: x.From() in old(locals)
      ensures TouchedBy(old(Now()), mid, world, dropped) && AllCurtailed(old(Now()), mid, world)
      ensures dropped == {} ==> mid == old(Now())
      ensures tx in old(all) <==> err == Some(KnownTransaction)
      ensures err == None ==> Sound(tx, world) && Passes(tx, local, old(Judging()))
                              && all == Replace(old(all) - dropped, victim, tx)
                              && replaced == victim.Some? && Slotted(mid, Now(), tx)
                              && (replaced <==> tx.nonce in ItemsOf(mid.pending, tx.From())
                                                || tx.nonce in ItemsOf(mid.queue, tx.From()))
      ensures victim.Some? ==> Outbid(victim.value, tx, old(all) - dropped)
      ensures err == Some(ReplaceUnderpriced) ==> all == old(all) - dropped && Now() == mid
      ensures err.Some? ==>
                Grounds(err.value, tx, local, old(Judging()), old(all), old(Worst(tx, all)), config.priceBump)
      ensures err.Some? && err.value != ReplaceUnderpriced ==> dropped == {} && all == old(all) && Now() == old(Now())
      ensures old(locals) <= locals <= old(locals) + (if local && err == None then {tx.From()} else {})
    {
      hide ListsOk, Partition, InOrder, Outbid, Defended, Grounds, TouchedBy, Cheapest, Fails, Sound, Worst, PricedOk,
          AllCurtailed, Passes;
      victim, replaced := None, false;
      err, dropped := Admit(tx, local, good);
      mid := Now();
      if err.Some? {
        return;
      }
      if tx.nonce in ItemsOf(pending, tx.From()) {
        replaced, err, victim := ReplacePending(tx, good);
      } else {
        SoundNonce(tx, world);
        replaced, err, victim := EnqueueNew(tx, local, good);
      }
      if err.Some? {
        DefendedIsGrounds(tx, local, old(Judging()), all, old(all), old(Worst(tx, all)), config.priceBump);
      }
    }

    /** Leaves `l` of the queue of `a` and forgets the rest. */
    method TrimQueue(a: Address, l: List)
      requires Struct() && PricedOk({}) && Apart(pending, queue, a)
      requires a in queue && ListOk(l, a, false) && Sub(l.items, queue[a].items)
      modifies this`all, this`queue, priced
      ensures Struct() && PricedOk({}) && all <= old(all) && queue == old(queue)[a := l]
    {
      hide ListsOk, Partition, ListOk, Sub, L.Lists, Holds;
      KeyedRest(queue, a, l, false);
      PartitionSwap(all, pending, queue);
      var drops := Enumerate(queue[a].items - l.items.Keys);
      Shrink(all, queue, pending, a, l, drops, false);
      queue := queue[a := l];
      Forget(drops);
      PartitionSwap(all, queue, pending);
    }

    /** Leaves `l` of the pending list of `a` and forgets the rest. */
    method TrimPending(a: Address, l: List) returns (drops: seq<Tx>)
      requires Struct() && PricedOk({}) && Apart(pending, queue, a)
      requires a in pending && ListOk(l, a, true) && Sub(l.items, pending[a].items)
      modifies this`all, this`pending, priced
      ensures Struct() && PricedOk({}) && all <= old(all) && pending == old(pending)[a := l]
      ensures L.Lists(drops, old(pending)[a].items - l.items.Keys) && Apart(pending, queue, a)
    {
      hide ListsOk, Partition, ListOk, Sub, Apart, L.Lists, Holds;
      KeyedRest(pending, a, l, true);
      drops := Enumerate(pending[a].items - l.items.Keys);
      Shrink(all, pending, queue, a, l, drops, true);
      SubApart(pending, queue, a, l);
      pending := pending[a := l];
      Forget(drops);
    }

    /** Adds a transaction to the pending list and moves the virtual nonce past it. */
    method PromoteTx(a: Address, tx: Tx)
      requires PricedOk({})
      modifies this`all, this`pending, this`managed, priced
      ensures PricedOk({})
      ensures var r := ListModel.Add(Get(old(pending), a, true), tx, config.priceBump);
              && pending == old(pending)[a := r.list]
              && all == (if r.inserted then Replace(old(all), r.replaced, tx) else old(all) - {tx})
              && managed == (if r.inserted then old(managed)[a := tx.nonce + 1] else old(managed))
    {
      if a !in pending {
        pending := pending[a := NewList(true)];
      }
      var r := ListModel.Add(pending[a], tx, config.priceBump);
      pending := pending[a := r.list];
      if !r.inserted {
        all := all - {tx};
        priced.Removed(all);
        return;
      }
      if r.replaced.Some? {
        all := all - {r.replaced.value};
        priced.Removed(all);
      }
      if tx !in all {
        all := all + {tx};
        priced.Put(tx);
      }
      managed := managed[a := tx.nonce + 1];
    }

    /** The promotion of a known transaction whose nonce is free in the pending list. */
    method PromoteFree(a: Address, tx: Tx)
      requires PricedOk({}) && ListsOk(pending, true)
      requires tx in all && tx.sender == Some(a) && tx.nonce < MAX_UINT64 && tx.nonce !in ItemsOf(pending, a)
      modifies this`all, this`pending, this`managed, priced
      ensures PricedOk({}) && ListsOk(pending, true) && all == old(all)
      ensures SameBut(old(pending), pending, a) && ItemsOf(pending, a) == ItemsOf(old(pending), a)[tx.nonce := tx]
      ensures managed == old(managed)[a := tx.nonce + 1]
    {
      hide ListsOk, ListModel.Add, PricedOk;
      AddFree(pending, a, true, tx, config.priceBump);
      PromoteTx(a, tx);
    }

    /** Promotes transactions whose nonces are free in the pending list of `a`, lowest first. */
    method PromoteReady(a: Address, txs: seq<Tx>, ghost m: Items)
      requires PricedOk({}) && ListsOk(pending, true)
      requires SortedOf(txs, m) && WellKeyed(m) && Owned(m, a) && m.Keys !! ItemsOf(pending, a).Keys
      requires forall n | n in m :: m[n] in all
      modifies this`all, this`pending, this`managed, priced
      ensures PricedOk({}) && ListsOk(pending, true) && all == old(all)
      ensures SameBut(old(pending), pending, a) && ItemsOf(pending, a) == ItemsOf(old(pending), a) + m
      ensures managed == if txs == [] then old(managed) else old(managed)[a := txs[|txs| - 1].nonce + 1]
    {
      hide ListsOk, L.Lists, SortedOf, WellKeyed, Owned, Grown, PricedOk;
      L.SortedLists(txs, m);
      ghost var base := ItemsOf(pending, a);
      GrownEnds(base, m, txs);
      for i := 0 to |txs|
        invariant PricedOk({}) && ListsOk(pending, true) && all == old(all)
        invariant SameBut(old(pending), pending, a)
        invariant ItemsOf(pending, a) == Grown(base, m, txs, i)
        invariant managed == if i == 0 then old(managed) else old(managed)[a := txs[i - 1].nonce + 1]
      {
        GrownSnoc(base, m, a, txs, i);
        PromoteFree(a, txs[i]);
      }
    }

    /** Moves the executable run of the queue of `a` to its pending list. */
    method MoveReady(a: Address, ghost good: iset<Address>)
      requires Struct() && PricedOk({}) && PlacedIn(Now(), world, a, good) && a in queue
      modifies this`all, this`pending, this`queue, this`managed, priced
      ensures Struct() && PricedOk({}) && PlacedIn(Now(), world, a, good) && all == old(all) && a in queue
      ensures SameBut(old(pending), pending, a) && SameBut(old(queue), queue, a)
      ensures NoncesBut(old(managed), managed, world, a)
      ensures var items := old(queue)[a].items;
              var e := ReadyTo(items, old(PendingNonce(a)));
              && PendingNonce(a) == NonceAfter(items, old(PendingNonce(a)))
              && ItemsOf(pending, a) == ItemsOf(old(pending), a) + Below(items, e)
              && ItemsOf(queue, a) == AtLeast(items, e)
    {
      hide ListsOk, Partition, Placed, WellKeyed, Owned, SortedOf, GapFree, RunEnd, ReadyEnd, ReadyTo, PricedOk, Below,
          AtLeast, Apart, Min;
      ghost var p, q, lo, hi := pending, queue, world.Nonce(a), PendingNonce(a);
      PlacedApart(p, q, a, lo, hi, a in good);
      RunFacts(all, p, q, a, hi);
      var end := ReadyEnd(queue[a], PendingNonce(a));
      var txs := L.InNonceOrder(Below(queue[a].items, end));
      KeyedList(q, a, false);
      RunListed(txs, q[a].items, hi);
      queue := queue[a := Forward(queue[a], end)];
      PromoteReady(a, txs, Below(q[a].items, end));
      Exchange(all, p, q, pending, a, end);
      ReadyPlaced(ItemsOf(p, a), q[a].items, ItemsOf(pending, a), ItemsOf(queue, a), lo, hi, a in good);
    }

    /** Processes the queue of one account: drops what is stale or unpayable, moves the executable run to
        the pending list, and caps the rest for remote accounts. */
    method PromoteAccount(a: Address, ghost good: iset<Address>)
      requires Struct() && PricedOk({}) && UnprocessedIn(Now(), world, a, good)
      modifies this`all, this`pending, this`queue, this`managed, priced
      ensures Struct() && PricedOk({}) && PlacedIn(Now(), world, a, good) && all <= old(all)
      ensures SameBut(old(pending), pending, a) && SameBut(old(queue), queue, a)
      ensures NoncesBut(old(managed), managed, world, a)
      ensures ProcessedAt(old(Now()), Now(), world, a, true, a in locals, config.accountQueue)
    {
      hide Struct, Placed, PricedOk, ReadyTo, Below, AtLeast, Payable, Unprocessed, IsLowest, NonceAfter;
      if a !in queue {
        NothingQueued(ItemsOf(pending, a), PendingNonce(a), a, world, a in locals, config.accountQueue);
        NoQueuePlaced(ItemsOf(pending, a), world.Nonce(a), PendingNonce(a), a in good);
        return;
      }
      DropUnpayable(a, good);
      MoveReady(a, good);
      if a !in locals {
        CapAccountQueue(a, good);
      }
      TidyQueue(a);
    }

    /** Drops the queued transactions of `a` that are stale, too costly or over the gas limit. */
    method DropUnpayable(a: Address, ghost good: iset<Address>)
      requires Struct() && PricedOk({}) && UnprocessedIn(Now(), world, a, good) && a in queue
      modifies this`all, this`queue, priced
      ensures Struct() && PricedOk({}) && PlacedIn(Now(), world, a, good) && all <= old(all)
      ensures a in queue && SameBut(old(queue), queue, a)
      ensures queue[a].items == Payable(old(queue)[a].items, a, world)
    {
      hide ListsOk, Partition, Placed, PricedOk, AtLeast, Payable, Unprocessed, Sub, ListOk, Filter;
      ghost var q := queue[a].items;
      PayablePlaced(ItemsOf(pending, a), q, a, world, PendingNonce(a), a in good);
      ForwardFacts(queue, a, world.Nonce(a));
      TrimQueue(a, Forward(queue[a], world.Nonce(a)));
      PayableFacts(queue, a, world, q);
      TrimQueue(a, Filter(queue[a], world.Balance(a), world.maxGas).list);
    }

    method CapAccountQueue(a: Address, ghost good: iset<Address>)
      requires Struct() && PricedOk({}) && PlacedIn(Now(), world, a, good) && a in queue
      modifies this`all, this`queue, priced
      ensures Struct() && PricedOk({}) && PlacedIn(Now(), world, a, good) && all <= old(all)
      ensures a in queue && SameBut(old(queue), queue, a)
      ensures IsLowest(ItemsOf(queue, a), ItemsOf(old(queue), a), config.accountQueue)
    {
      hide ListsOk, Partition, Placed, PricedOk, IsLowest, ListOk, Apart;
      KeyedList(queue, a, false);
      var kept := L.KeepLowest(queue[a].items, config.accountQueue);
      LowFacts(queue, a, kept, config.accountQueue);
      PlacedApart(pending, queue, a, world.Nonce(a), PendingNonce(a), a in good);
      PlacedSub(ItemsOf(pending, a), queue[a].items, ItemsOf(pending, a), kept, world.Nonce(a), PendingNonce(a),
          a in good);
      TrimQueue(a, queue[a].(items := kept));
    }

    /** Deletes a queue entry that became empty. */
    method TidyQueue(a: Address)
      requires Struct()
      modifies this`queue
      ensures Struct() && SameBut(old(queue), queue, a) && ItemsOf(queue, a) == ItemsOf(old(queue), a)
      ensures a in queue ==> queue[a].items.Keys != {}
    {
      hide ListsOk, Partition;
      if a in queue && queue[a].items.Keys == {} {
        PartitionSwap(all, pending, queue);
        Tidy(all, queue, pending, a, false);
        PartitionSwap(all, queue - {a}, pending);
        queue := queue - {a};
      }
    }

    /** Drops the highest pending nonce of `a` and lowers the virtual nonce to it. */
    method CutOne(a: Address, ghost good: iset<Address>)
      requires Pooled(good) && Len(pending, a) > 0
      modifies this`all, this`pending, this`managed, priced
      ensures Pooled(good) && all <= old(all)
      ensures pending.Keys == old(pending).Keys && SameBut(old(pending), pending, a)
      ensures Len(pending, a) == Len(old(pending), a) - 1 && Sub(ItemsOf(pending, a), ItemsOf(old(pending), a))
      ensures Total(pending) == Total(old(pending)) - 1
      ensures AllCurtailed(old(Now()), Now(), world) && queue == old(queue)
    {
      hide Struct, AllPlaced, Placed, PricedOk, Sub, L.Lists, Total, IsLowest, SameBut, AllCurtailed, CurtailedAt,
          Below, WellKeyed;
      OnePlaced(Now(), world, a, good);
      KeyedPending(a, good);
      ghost var p, q, lo, hi := ItemsOf(pending, a), ItemsOf(queue, a), world.Nonce(a), PendingNonce(a);
      var drops, kept := CapOne(a);
      ghost var n := CutTop(p, kept, drops);
      LowerTo(a, drops, n);
      CutPlaced(p, q, kept, lo, hi, n, a in good);
      TotalUpdate(old(pending), a, pending[a]);
      SameButOne(old(pending), a, pending[a]);
      SameButSelf(queue, a);
      IsCut(old(Now()), Now(), world, a, n);
      CurtailedOne(old(Now()), Now(), world, a);
      OthersPlaced(old(Now()), Now(), world, a, good);
    }

    /** The list operation: the highest nonce goes. */
    method CapOne(a: Address) returns (drops: seq<Tx>, kept: Items)
      requires Struct() && PricedOk({}) && Apart(pending, queue, a) && Len(pending, a) > 0
      modifies this`all, this`pending, priced
      ensures Struct() && PricedOk({}) && all <= old(all)
      ensures pending == old(pending)[a := old(pending)[a].(items := kept)]
      ensures L.Lists(drops, old(pending)[a].items - kept.Keys)
      ensures IsLowest(kept, old(pending)[a].items, |old(pending)[a].items| - 1)
      ensures Sub(kept, old(pending)[a].items) && |kept| == |old(pending)[a].items| - 1
    {
      hide ListsOk, Partition, PricedOk, IsLowest, Sub, ListOk, L.Lists, Apart;
      KeyedList(pending, a, true);
      kept := L.KeepLowest(pending[a].items, |pending[a].items| - 1);
      CutFacts(pending, a, kept);
      drops := TrimPending(a, pending[a].(items := kept));
    }

    /** Lowers the virtual nonce to the nonces of dropped transactions, which are all the same. */
    method LowerTo(a: Address, drops: seq<Tx>, ghost n: nat)
      requires drops != [] && forall d | d in drops :: d.nonce == n
      modifies this`managed
      ensures PendingNonce(a) == if old(PendingNonce(a)) > n then n else old(PendingNonce(a))
      ensures NoncesBut(old(managed), managed, world, a)
    {
      for i := 0 to |drops|
        invariant PendingNonce(a) == if i > 0 && old(PendingNonce(a)) > n then n else old(PendingNonce(a))
        invariant NoncesBut(old(managed), managed, world, a)
      {
        if PendingNonce(a) > drops[i].nonce {
          managed := managed[a := drops[i].nonce];
        }
      }
    }

    lemma KeyedPending(a: Address, good: iset<Address>)
      requires Pooled(good)
      ensures WellKeyed(ItemsOf(pending, a)) && (Len(pending, a) > 0 ==> a in pending)
    {
      if a in pending {
        KeyedList(pending, a, true);
      }
    }

    /** Drops one transaction from each offender. */
    method CutRound(offenders: seq<Address>, ghost good: iset<Address>)
      requires Pooled(good) && E.Distinct(offenders)
      requires forall a | a in offenders :: Len(pending, a) > 0
      modifies this`all, this`pending, this`managed, priced
      ensures Pooled(good) && all <= old(all) && Total(pending) == Total(old(pending)) - |offenders|
      ensures CutBy(old(pending), pending, offenders) && AllCurtailed(old(Now()), Now(), world)
    {
      hide Pooled, CutBy, Total, Len, Sub, ItemsOf, E.Distinct, SameBut, AllCurtailed;
      NoneCut(pending);
      ghost var x := Now();
      CurtailedSame(x, x, world);
      for i := 0 to |offenders|
        invariant Pooled(good) && all <= old(all) && Total(pending) == Total(old(pending)) - i
        invariant CutBy(old(pending), pending, offenders[..i]) && AllCurtailed(x, Now(), world)
      {
        NextOffender(old(pending), pending, offenders, i);
        ghost var p, y := pending, Now();
        CutOne(offenders[i], good);
        CutAnother(old(pending), p, pending, offenders, i);
        AllCurtailedThen(x, y, Now(), world);
      }
      assert offenders[..|offenders|] == offenders;
    }

    /** Takes the spammer with the longest list. */
    method PopLargest(spammers: set<Address>) returns (a: Address)
      requires spammers != {} && forall s | s in spammers :: s in pending
      ensures a in spammers && forall s | s in spammers :: |pending[s].items| <= |pending[a].items|
    {
      a :| a in spammers;
      var left := spammers - {a};
      while left != {}
        invariant a in spammers && left <= spammers
        invariant forall s | s in spammers && s !in left :: |pending[s].items| <= |pending[a].items|
      {
        var s :| s in left;
        if |pending[s].items| > |pending[a].items| {
          a := s;
        }
        left := left - {s};
      }
    }

    /** Reduces the earlier offenders in rounds until they meet the last one or the total fits. */
    method Equalise(group: seq<Address>, last: Address, total: nat, ghost p0: Lists, ghost spammers: set<Address>,
                    ghost good: iset<Address>)
      returns (rest: nat)
      requires Pooled(good) && total == Total(pending) && E.Distinct(group) && Trimmed(p0, pending, group + [last])
      requires E.Phase(Lens(p0), Lens(pending), group, last, spammers, locals, config.accountSlots)
      modifies this`all, this`pending, this`managed, priced
      ensures Pooled(good) && rest == Total(pending) && all <= old(all) && Trimmed(p0, pending, group + [last])
      ensures E.Phase(Lens(p0), Lens(pending), group, last, spammers, locals, config.accountSlots)
      ensures rest > config.globalSlots ==>
                E.Settled(Lens(p0), Lens(pending), group + [last], spammers, locals, config.accountSlots)
      ensures AllCurtailed(old(Now()), Now(), world)
    {
      hide Pooled, Trimmed, E.Phase, E.Settled, Total, CutBy, E.Distinct, Lens, Len, AllCurtailed;
      ghost var slots, x := config.accountSlots, Now();
      CurtailedSame(x, x, world);
      rest := total;
      GroupAbove(p0, pending, group, last, spammers, locals, slots);
      var threshold := Len(pending, last);
      while rest > config.globalSlots && |group| > 0 && Len(pending, group[|group| - 1]) > threshold
        invariant Pooled(good) && rest == Total(pending) && all <= old(all) && Trimmed(p0, pending, group + [last])
        invariant E.Phase(Lens(p0), Lens(pending), group, last, spammers, locals, slots)
        invariant Len(pending, last) == threshold && AllCurtailed(x, Now(), world)
        decreases rest
      {
        GroupAbove(p0, pending, group, last, spammers, locals, slots);
        ghost var p, y := pending, Now();
        CutRound(group, good);
        AllCurtailedThen(x, y, Now(), world);
        EqualisedOnce(p0, p, pending, group, last, spammers, locals, slots);
        rest := rest - |group|;
      }
      GroupAbove(p0, pending, group, last, spammers, locals, slots);
      if rest > config.globalSlots {
        GroupMet(p0, pending, group, last, spammers, locals, slots);
      }
    }

    /** Cuts level offenders in rounds down to the limit or to the guaranteed slots. */
    method ReduceAll(offenders: seq<Address>, total: nat, ghost p0: Lists, ghost good: iset<Address>)
      returns (rest: nat)
      requires Pooled(good) && total == Total(pending) && E.Distinct(offenders) && Trimmed(p0, pending, offenders)
               && |offenders| > 0
      requires E.Settled(Lens(p0), Lens(pending), offenders, {}, locals, config.accountSlots)
      modifies this`all, this`pending, this`managed, priced
      ensures Pooled(good) && rest == Total(pending) && all <= old(all) && Trimmed(p0, pending, offenders)
      ensures E.Settled(Lens(p0), Lens(pending), offenders, {}, locals, config.accountSlots)
      ensures rest <= config.globalSlots || forall a | a in offenders :: Len(pending, a) <= config.accountSlots
      ensures AllCurtailed(old(Now()), Now(), world)
    {
      hide Pooled, Trimmed, E.Settled, Total, CutBy, E.Distinct, Lens, Len, AllCurtailed;
      ghost var slots, x := config.accountSlots, Now();
      CurtailedSame(x, x, world);
      rest := total;
      while rest > config.globalSlots && Len(pending, offenders[|offenders| - 1]) > config.accountSlots
        invariant Pooled(good) && rest == Total(pending) && all <= old(all) && Trimmed(p0, pending, offenders)
        invariant E.Settled(Lens(p0), Lens(pending), offenders, {}, locals, slots) && AllCurtailed(x, Now(), world)
        decreases rest
      {
        AllAbove(p0, pending, offenders, locals, slots);
        ghost var p, y := pending, Now();
        CutRound(offenders, good);
        AllCurtailedThen(x, y, Now(), world);
        ReducedOnce(p0, p, pending, offenders, locals, slots);
        rest := rest - |offenders|;
      }
      AllAbove(p0, pending, offenders, locals, slots);
    }

    /** Makes the largest spammer an offender and equalises the earlier ones with it. */
    method Penalise(offenders: seq<Address>, spammers: set<Address>, total: nat, ghost p0: Lists,
                    ghost good: iset<Address>)
      returns (offender: Address, rest: nat)
      requires Pooled(good) && total == Total(pending) && spammers != {} && E.Distinct(offenders)
               && Trimmed(p0, pending, offenders)
      requires E.Settled(Lens(p0), Lens(pending), offenders, spammers, locals, config.accountSlots)
      modifies this`all, this`pending, this`managed, priced
      ensures offender in spammers && E.Distinct(offenders + [offender])
      ensures Pooled(good) && rest == Total(pending) && all <= old(all) && Trimmed(p0, pending, offenders + [offender])
      ensures rest > config.globalSlots ==>
                E.Settled(Lens(p0), Lens(pending), offenders + [offender], spammers - {offender}, locals,
                    config.accountSlots)
      ensures E.Cutting(Lens(p0), Lens(pending), offenders + [offender], spammers - {offender}, locals,
              config.accountSlots)
      ensures E.Fair(Lens(p0), Lens(pending), locals) && AllCurtailed(old(Now()), Now(), world)
    {
      hide Pooled, Trimmed, E.Settled, E.Phase, E.Cutting, Total, E.Distinct, E.Fair, AllCurtailed;
      CurtailedSame(Now(), Now(), world);
      ghost var d0, slots := Lens(p0), config.accountSlots;
      rest := total;
      E.SettledFacts(d0, Lens(pending), offenders, spammers, locals, slots);
      offender := PopLargest(spammers);
      ghost var left := spammers - {offender};
      E.Joins(d0, Lens(pending), offenders, offender, spammers, locals, slots);
      TrimmedWider(p0, pending, offenders, offender);
      if |offenders| > 0 {
        rest := Equalise(offenders, offender, total, p0, left, good);
      } else {
        E.Met(d0, Lens(pending), offenders, offender, left, locals, slots);
      }
      E.PhaseIsFair(d0, Lens(pending), offenders, offender, left, locals, slots);
    }

    /** Drops transactions of the largest remote accounts, the longest first and in step with each other,
        until the total fits or no remote account exceeds its slots. */
    method PenaliseSpammers(total: nat, ghost good: iset<Address>)
      requires Pooled(good) && total == Total(pending)
      modifies this`all, this`pending, this`managed, priced
      ensures Pooled(good) && all <= old(all)
      ensures Total(pending) <= config.globalSlots || WithinSlots(pending, locals, config.accountSlots)
      ensures CutFairly(old(pending), pending, locals, config.accountSlots)
      ensures AllCurtailed(old(Now()), Now(), world)
    {
      hide Pooled, Trimmed, E.Settled, E.Cutting, Total, E.Distinct, E.Fair, CutFairly, WithinSlots, AllCurtailed;
      ghost var p0, d0, x := pending, Lens(pending), Now();
      CurtailedSame(x, x, world);
      var slots, rest := config.accountSlots, total;
      var spammers := set a | a in pending && a !in locals && slots < |pending[a].items|;
      var offenders: seq<Address> := [];
      TrimmedNone(pending);
      E.Starts(d0, spammers, locals, slots);
      E.SettledIsFair(d0, d0, [], spammers, locals, slots);
      while rest > config.globalSlots && spammers != {}
        invariant Pooled(good) && rest == Total(pending) && all <= old(all)
        invariant E.Distinct(offenders) && Trimmed(p0, pending, offenders)
        invariant rest > config.globalSlots ==> E.Settled(d0, Lens(pending), offenders, spammers, locals, slots)
        invariant E.Cutting(d0, Lens(pending), offenders, spammers, locals, slots) && E.Fair(d0, Lens(pending), locals)
        invariant AllCurtailed(x, Now(), world)
        decreases spammers
      {
        var offender;
        ghost var y := Now();
        offender, rest := Penalise(offenders, spammers, rest, p0, good);
        AllCurtailedThen(x, y, Now(), world);
        offenders, spammers := offenders + [offender], spammers - {offender};
      }
      if rest > config.globalSlots && |offenders| > 0 {
        ghost var y := Now();
        rest := ReduceAll(offenders, rest, p0, good);
        AllCurtailedThen(x, y, Now(), world);
        E.SettledIsFair(d0, Lens(pending), offenders, {}, locals, slots);
      }
      CutSummary(p0, pending, offenders, spammers, locals, slots);
      if rest > config.globalSlots {
        SettledWithin(p0, pending, offenders, locals, slots);
      }
    }

    /** The pending limit: nothing happens below it. */
    method CapPending(ghost good: iset<Address>)
      requires Pooled(good)
      modifies this`all, this`pending, this`managed, priced
      ensures Pooled(good) && all <= old(all)
      ensures Total(old(pending)) <= config.globalSlots ==> Now() == old(Now()) && all == old(all)
      ensures Total(pending) <= config.globalSlots || WithinSlots(pending, locals, config.accountSlots)
      ensures CutFairly(old(pending), pending, locals, config.accountSlots)
      ensures AllCurtailed(old(Now()), Now(), world)
    {
      hide Pooled, Total, CutFairly, WithinSlots, AllCurtailed;
      CurtailedSame(Now(), Now(), world);
      var total := Count(pending);
      NothingCut(pending, locals, config.accountSlots);
      if total > config.globalSlots {
        PenaliseSpammers(total, good);
      }
    }

    /** Removes one queued transaction. */
    method DropQueued(tx: Tx, ghost good: iset<Address>)
      requires Pooled(good) && Holds(queue, tx)
      modifies this`all, this`pending, this`queue, this`managed, priced
      ensures Pooled(good) && all <= old(all) && pending == old(pending) && managed == old(managed)
      ensures SameBut(old(queue), queue, tx.From())
      ensures ItemsOf(queue, tx.From()) == ItemsOf(old(queue), tx.From()) - {tx.nonce}
      ensures Total(queue) == Total(old(queue)) - 1 && Len(queue, tx.From()) == Len(old(queue), tx.From()) - 1
    {
      hide ListsOk, InOrder, PricedOk, Total, SameBut;
      assert tx in all;
      var a := tx.From();
      RemoveTx(tx, {}, good);
      TotalChange(old(queue), queue, a);
      assert ItemsOf(queue, a).Keys == ItemsOf(old(queue), a).Keys - {tx.nonce};
    }

    /** Removes all queued transactions of `a`. */
    method DropAllQueued(a: Address, ghost good: iset<Address>)
      requires Pooled(good) && a in queue
      modifies this`all, this`pending, this`queue, this`managed, priced
      ensures Pooled(good) && all <= old(all) && pending == old(pending) && managed == old(managed)
      ensures SameBut(old(queue), queue, a) && Len(queue, a) == 0 && Sub(ItemsOf(queue, a), ItemsOf(old(queue), a))
      ensures Total(queue) == Total(old(queue)) - Len(old(queue), a)
    {
      hide Pooled, Total, Len, Left, SortedOf, Sub, SameBut;
      ghost var q0 := queue;
      Keyed(a, good);
      var txs := L.InNonceOrder(queue[a].items);
      LeftAll(q0, a, txs);
      for i := 0 to |txs|
        invariant Pooled(good) && all <= old(all) && pending == old(pending) && managed == old(managed)
        invariant Left(q0, queue, a, txs, i, |txs|)
      {
        ghost var q := queue;
        LeftAt(q0, queue, a, txs, i, |txs|, i);
        DropQueued(txs[i], good);
        LeftLess(q0, q, queue, a, txs, i, |txs|, true);
      }
      LeftEnds(q0, queue, a, txs, |txs|, |txs|);
    }

    lemma Keyed(a: Address, good: iset<Address>)
      requires Pooled(good) && a in queue
      ensures WellKeyed(queue[a].items) && ListsOk(queue, false)
    {
      KeyedList(queue, a, false);
    }

    /** Removes the last `k` queued transactions of `a`, the highest nonce first. */
    method DropLast(a: Address, k: nat, ghost good: iset<Address>)
      requires Pooled(good) && a in queue && k <= Len(queue, a)
      modifies this`all, this`pending, this`queue, this`managed, priced
      ensures Pooled(good) && all <= old(all) && pending == old(pending) && managed == old(managed)
      ensures SameBut(old(queue), queue, a) && Total(queue) == Total(old(queue)) - k
      ensures Sub(ItemsOf(queue, a), ItemsOf(old(queue), a))
    {
      hide Pooled, Total, Len, Left, SortedOf, Sub, SameBut;
      ghost var q0 := queue;
      Keyed(a, good);
      var txs := L.InNonceOrder(queue[a].items);
      LeftAll(q0, a, txs);
      var i, drop := |txs|, k;
      while i > 0 && drop > 0
        invariant Pooled(good) && all <= old(all) && pending == old(pending) && managed == old(managed)
        invariant 0 <= i <= |txs| && k - drop == |txs| - i && Left(q0, queue, a, txs, 0, i)
      {
        ghost var q := queue;
        i := i - 1;
        LeftAt(q0, queue, a, txs, 0, i + 1, i);
        DropQueued(txs[i], good);
        LeftLess(q0, q, queue, a, txs, 0, i + 1, false);
        drop := drop - 1;
      }
      LeftEnds(q0, queue, a, txs, 0, i);
    }

    /** The queue limit: drops whole queues of remote accounts, and the end of the last one, until the total
        fits or only local accounts have anything queued.  No more is dropped than is too many. */
    method CapQueue(ghost good: iset<Address>)
      requires Pooled(good)
      modifies this`all, this`pending, this`queue, this`managed, priced
      ensures Pooled(good) && all <= old(all) && pending == old(pending) && managed == old(managed)
      ensures QueueCapped(old(queue), queue, locals, config.globalQueue)
    {
      hide Pooled, Total, Len, ItemsOf, Within, Sub;
      var queued := Count(queue);
      WithinSelf(queue);
      EmptyElsewhere(queue);
      if queued <= config.globalQueue {
        return;
      }
      var addresses := Order(set a | a in queue && a !in locals);
      var drop: nat := queued - config.globalQueue;
      while drop > 0 && |addresses| > 0
        invariant Pooled(good) && all <= old(all) && pending == old(pending) && managed == old(managed)
        invariant E.Distinct(addresses) && Total(queue) == config.globalQueue + drop && Within(old(queue), queue)
        invariant forall a | a in addresses :: a in queue && a !in locals
        invariant drop > 0 ==> forall a | a !in locals && Len(queue, a) > 0 :: a in addresses
        invariant forall a | a in locals :: ItemsOf(queue, a) == ItemsOf(old(queue), a)
        decreases |addresses|
      {
        var a := addresses[|addresses| - 1];
        assert addresses == addresses[..|addresses| - 1] + [a];
        addresses := addresses[..|addresses| - 1];
        ghost var q := queue;
        drop := DropFrom(a, drop, good);
        WithinTrans(old(queue), q, queue);
      }
    }

    /** Drops transactions of one account: all that are queued, or as many as are too many. */
    method DropFrom(a: Address, drop: nat, ghost good: iset<Address>) returns (left: nat)
      requires Pooled(good) && a in queue && Total(queue) == config.globalQueue + drop
      modifies this`all, this`pending, this`queue, this`managed, priced
      ensures Pooled(good) && all <= old(all) && pending == old(pending) && managed == old(managed)
      ensures Total(queue) == config.globalQueue + left && (left > 0 ==> Len(queue, a) == 0)
      ensures forall b | b != a :: (b in queue <==> b in old(queue)) && ItemsOf(queue, b) == ItemsOf(old(queue), b)
      ensures forall b | b != a :: Len(queue, b) == Len(old(queue), b)
      ensures Within(old(queue), queue)
    {
      hide Pooled, Total, Sub;
      var size := |queue[a].items|;
      if size <= drop {
        DropAllQueued(a, good);
        left := drop - size;
      } else {
        DropLast(a, drop, good);
        left := 0;
      }
      WithinAt(old(queue), queue, a);
    }

    /** Promotes what has become executable in the queues of the given accounts, then enforces the limits.  `mid` is
        what there is between the two.  A transaction valid in the state is lost only if it is of a remote account
        and a limit was exceeded. */
    method PromoteExecutables(accounts: seq<Address>, ghost good: iset<Address>) returns (ghost mid: Slots)
      requires Struct() && PricedOk({}) && E.Distinct(accounts)
      requires Processing(Now(), world, good, accounts)
      modifies this`all, this`pending, this`queue, this`managed, priced
      ensures Pooled(good) && all <= old(all)
      ensures ProcessedAll(old(Now()), mid, world, accounts, locals, config.accountQueue)
      ensures Capped(mid, pending, queue, locals, config)
      ensures Total(mid.pending) <= config.globalSlots ==> managed == mid.managed
      ensures Total(mid.pending) <= |old(all)| && AllCurtailed(mid, Now(), world)
      ensures forall tx | tx in old(all) && tx !in all && Sound(tx, world) ::
                Crowded(old(Now()), mid, world, accounts, locals, config, tx)
    {
      hide ListsOk, Partition, PricedOk, PlacedIn, AllPlaced, Processing, ProcessedAll, Capped, Crowded, Sound,
          CutFairly, WithinSlots, QueueCapped, Total, E.Distinct, Apart, AllCurtailed;
      ghost var x := Now();
      assert accounts[0..] == accounts && accounts[..0] == [];
      ProcessedNone(x, world, locals, config.accountQueue);
      ProcessingApart(x, world, good, accounts);
      for i := 0 to |accounts|
        invariant Struct() && PricedOk({}) && all <= old(all)
        invariant Processing(Now(), world, good, accounts[i..])
        invariant ProcessedAll(x, Now(), world, accounts[..i], locals, config.accountQueue)
      {
        ghost var y := Now();
        PromoteNext(accounts, i, good);
        ProcessedNext(x, y, Now(), world, accounts, i, locals, config.accountQueue);
      }
      assert accounts[..|accounts|] == accounts && accounts[|accounts|..] == [];
      AllProcessed(Now(), world, good);
      mid := Now();
      TotalAtMost(pending, queue, all, old(all));
      CapPending(good);
      ghost var cut := Now();
      CapQueue(good);
      CurtailedSame(cut, Now(), world);
      AllCurtailedThen(mid, cut, Now(), world);
      CappedBoth(mid, pending, queue, locals, config);
      Losses(old(all), x, mid, all, pending, queue, world, accounts, locals, config);
    }

    method PromoteNext(accounts: seq<Address>, i: nat, ghost good: iset<Address>)
      requires Struct() && PricedOk({}) && i < |accounts|
      requires Processing(Now(), world, good, accounts[i..])
      modifies this`all, this`pending, this`queue, this`managed, priced
      ensures Struct() && PricedOk({}) && all <= old(all)
      ensures Processing(Now(), world, good, accounts[i + 1..])
      ensures TouchedAt(old(Now()), Now(), world, accounts[i])
      ensures ProcessedAt(old(Now()), Now(), world, accounts[i], true, accounts[i] in locals, config.accountQueue)
    {
      hide Struct, PricedOk, PlacedIn, UnprocessedIn, ProcessedAt, Untouched, Processing;
      var a := accounts[i];
      ghost var x := Now();
      ToProcess(x, world, good, accounts[i..], a);
      PromoteAccount(a, good);
      TouchedOnly(x, Now(), world, a);
      OneProcessed(x, Now(), world, good, accounts, i);
    }

    /** Adds one transaction and, unless it replaced another one, promotes what it made executable. */
    method AddTx(tx: Tx, local: bool, ghost good: iset<Address>) returns (err: Option<Error>, ghost r: Batch)
      requires Kept(good) && tx.nonce < MAX_UINT64
      modifies this`locals, this`all, this`pending, this`queue, this`managed, priced
      ensures Kept(good) && Batched(old(Now()), old(all), 1, r, Now(), world, locals, config)
      ensures r.taken == (if err == None then [tx] else []) && Cheapest(r.dropped, old(all), old(locals))
      ensures all <= old(all) + {tx} && (err.Some? && err.value != ReplaceUnderpriced ==> all == old(all))
      ensures err.Some? ==>
                Grounds(err.value, tx, local, old(Judging()), old(all), old(Worst(tx, all)), config.priceBump)
      ensures forall x | (x in old(all) || x in r.taken) && x !in all ::
                || x in r.dropped || OutbidBy(x, r.taken, config.priceBump)
                || (r.accounts != [] && Crowded(r.start, r.mid, world, r.accounts, locals, config, x))
      ensures err == None && tx.From() in locals ==> tx in all
      ensures err == None && tx.From() in old(locals) && NextIn(old(Now()), world, tx, good) ==> Holds(pending, tx)
      ensures err == None && |old(all)| + 1 <= config.globalSlots && NextIn(old(Now()), world, tx, good) ==>
                tx.nonce in ItemsOf(pending, tx.From())
      ensures old(locals) <= locals <= old(locals) + (if local && err == None then {tx.From()} else {})
    {
      hide Struct, PricedOk, TouchedBy, Cheapest, Sound, Crowded, Grounds, AllPlaced, OutbidBy, Ordered, ItemsOf, Holds,
          Batched, Worst, Entered, NextIn, Slotted, LimitedTo, AllCurtailed, FilledAt, VirtualNonce, Partition, Apart;
      ghost var x, known := Now(), all;
      PoolApart(tx.From(), good);
      var replaced;
      ghost var room;
      replaced, err, r, room := Enter(tx, local, good);
      ghost var now := all;
      r := PromoteBatch(if err == None && !replaced then [tx.From()] else [], r, x, known, 1, good);
      CrowdedRemote(r.start, r.mid, world, r.accounts, locals, config);
      LimitedLess(now, all, locals, locals, Cap());
      FitStill(known, r.taken, all, world);
      NotOutbid(tx, config.priceBump);
      NotDropped(r.dropped, known, old(locals), tx);
      if err == None && NextIn(x, world, tx, good) {
        OneNext(x, room, known, r, Now(), world, old(locals), locals, config, tx, replaced, good);
      }
    }

    /** A submission up to the promotion. */
    method Enter(tx: Tx, local: bool, ghost good: iset<Address>)
      returns (replaced: bool, err: Option<Error>, ghost r: Batch, ghost room: Slots)
      requires Pooled(good) && Floor() && Limited() && tx.nonce < MAX_UINT64
      modifies this`locals, this`all, this`pending, this`queue, this`managed, priced
      ensures Pooled(good) && Floor() && Limited() && r.start == Now()
      ensures Entered(old(Now()), old(all), 1, r, all, world, config)
      ensures r.taken == (if err == None then [tx] else []) && Cheapest(r.dropped, old(all), old(locals))
      ensures r.accounts == if err == None && !replaced then [tx.From()] else []
      ensures TouchedBy(old(Now()), room, world, r.dropped) && (tx in old(all) ==> err.Some?)
      ensures all <= old(all) + TxSet(r.taken)
      ensures err == None ==> Sound(tx, world) && Slotted(room, Now(), tx) && tx in all
                              && (replaced <==> tx.nonce in ItemsOf(room.pending, tx.From())
                                                || tx.nonce in ItemsOf(room.queue, tx.From()))
      ensures all <= old(all) + {tx} && (err.Some? && err.value != ReplaceUnderpriced ==> all == old(all))
      ensures err.Some? ==>
                Grounds(err.value, tx, local, old(Judging()), old(all), old(Worst(tx, all)), config.priceBump)
      ensures old(locals) <= locals <= old(locals) + (if local && err == None then {tx.From()} else {})
    {
      hide Struct, PricedOk, TouchedBy, Cheapest, Sound, Grounds, AllPlaced, Slotted, Worst, Entered, ItemsOf, Replace,
          Outbids, TxSet, AllCurtailed, LimitedTo, Passes;
      ghost var x, known := Now(), all;
      ghost var dropped, victim;
      replaced, err, dropped, victim, room := Add(tx, local, good);
      var accounts := if err == None && !replaced then [tx.From()] else [];
      r := Batch(if err == None then [tx] else [], dropped, Now(), Now(), accounts);
      assert known - {} == known;
      EnteredEither(known, x, room, r, tx, victim, replaced, all, world, old(locals), config);
      DroppedRemote(dropped, known, old(locals), old(locals));
      LimitedAfter(known, all, old(locals), locals, dropped, victim, tx, err == None, Cap());
    }

    /** The promotion at the end of a batch, and what the whole comes to. */
    method PromoteBatch(accounts: seq<Address>, ghost r: Batch, ghost x: Slots, ghost known: set<Tx>, ghost n: nat,
                        ghost good: iset<Address>)
      returns (ghost r': Batch)
      requires Pooled(good) && r.start == Now() && r.accounts == accounts && E.Distinct(accounts)
      requires Entered(x, known, n, r, all, world, config)
      modifies this`all, this`pending, this`queue, this`managed, priced
      ensures Pooled(good) && r' == r.(mid := r'.mid) && Batched(x, known, n, r', Now(), world, locals, config)
      ensures all <= old(all) && |all| <= |old(all)| && (accounts == [] ==> Now() == old(Now()) && all == old(all))
      ensures accounts != [] ==> AllCurtailed(r'.mid, Now(), world)
      ensures forall t | (t in known || t in r.taken) && t !in all && Sound(t, world) ::
                || t in r'.dropped || OutbidBy(t, r'.taken, config.priceBump)
                || (accounts != [] && Crowded(r'.start, r'.mid, world, accounts, locals, config, t))
    {
      hide ListsOk, Partition, PricedOk, AllPlaced, Processing, ProcessedAll, Capped, Crowded, Sound, OutbidBy, Batched,
          Entered, Total, E.Distinct, Apart, AllCurtailed;
      r' := r;
      AllApart(Now(), world, good);
      ghost var now := all;
      if accounts != [] {
        ReadyToPromote(Now(), world, good, accounts);
        ghost var mid := PromoteExecutables(accounts, good);
        r' := r.(mid := mid);
        Fewer(all, now);
      }
      EnteredMid(x, known, n, r, r'.mid, now, world, config);
      BatchDone(x, known, n, r', now, Now(), world, locals, config);
      BatchLoses(x, known, n, r', all, pending, queue, managed, world, locals, config);
    }

    /** Leaves `l` of the pending list of `a` and puts the rest back into the queue. */
    method MoveBack(a: Address, l: List)
      requires Struct() && PricedOk({}) && Apart(pending, queue, a)
      requires a in pending && ListOk(l, a, true) && Sub(l.items, pending[a].items)
      modifies this`all, this`pending, this`queue, priced
      ensures Struct() && PricedOk({}) && Apart(pending, queue, a) && all == old(all) && pending == old(pending)[a := l]
      ensures SameBut(old(queue), queue, a)
      ensures ItemsOf(queue, a) == ItemsOf(old(queue), a) + (old(pending)[a].items - l.items.Keys)
    {
      hide ListsOk, Partition, PricedOk, ListOk, Sub, Apart, L.Lists, WellKeyed, Owned;
      ghost var known, p, q := all, pending, queue;
      BackOwned(all, pending, queue, a, l);
      var m := pending[a].items - l.items.Keys;
      var txs := Enumerate(m);
      pending := pending[a := l];
      Postpone(a, txs, m, {});
      BackFacts(known, p, q, queue, a, l);
    }

    /** Brings the pending list of one account in line with a new state: drops what is included or unpayable,
        and sends back to the queue what can no longer follow. */
    method DemoteAccount(a: Address)
      requires Struct() && PricedOk({}) && a in pending && Apart(pending, queue, a)
      modifies this`all, this`pending, this`queue, priced
      ensures Struct() && PricedOk({}) && all <= old(all)
      ensures SameBut(old(pending), pending, a) && SameBut(old(queue), queue, a)
      ensures Demoted(old(pending), old(queue), pending, queue, a, world)
    {
      hide ListsOk, Partition, PricedOk, ListOk, Apart, AfterHead, Gapped;
      HeadListOk(pending, a, world);
      DropAndPostpone(a);
      CloseGap(a);
      TidyPending(a);
    }

    /** If there is a gap in front, postpones everything. */
    method CloseGap(a: Address)
      requires Struct() && PricedOk({}) && Apart(pending, queue, a) && a in pending && ListOk(pending[a], a, true)
      modifies this`all, this`pending, this`queue, priced
      ensures Struct() && PricedOk({}) && all == old(all) && a in pending
      ensures SameBut(old(pending), pending, a) && SameBut(old(queue), queue, a)
      ensures if Gapped(old(pending)[a].items, world.Nonce(a)) then
                ItemsOf(pending, a) == map[] && ItemsOf(queue, a) == ItemsOf(old(queue), a) + old(pending)[a].items
              else pending == old(pending) && queue == old(queue)
    {
      hide Struct, PricedOk, ListOk, Sub, Apart;
      if pending[a].items.Keys != {} && world.Nonce(a) !in pending[a].items {
        EmptyListOk(pending[a], a);
        MoveBack(a, pending[a].(items := map[]));
      }
    }

    lemma ForwardPre(a: Address, nonce: nat)
      requires Struct() && a in pending
      ensures ListOk(Forward(pending[a], nonce), a, true) && Sub(Forward(pending[a], nonce).items, pending[a].items)
    {}

    method DropAndPostpone(a: Address)
      requires Struct() && PricedOk({}) && Apart(pending, queue, a) && a in pending
      modifies this`all, this`pending, this`queue, priced
      ensures Struct() && PricedOk({}) && Apart(pending, queue, a) && all <= old(all)
      ensures var f := AfterHead(old(pending)[a], a, world);
              && pending == old(pending)[a := f.list]
              && SameBut(old(queue), queue, a) && ItemsOf(queue, a) == ItemsOf(old(queue), a) + f.invalids
    {
      hide Struct, PricedOk, ListOk, Sub, Filter, Forward, Unfiltered, L.Lists, Apart;
      var nonce := world.Nonce(a);
      ForwardPre(a, nonce);
      var _ := TrimPending(a, Forward(pending[a], nonce));
      var f := Filter(pending[a], world.Balance(a), world.maxGas);
      FilterSteps(pending[a], a, world.Balance(a), world.maxGas);
      var _ := TrimPending(a, Unfiltered(f));
      MoveBack(a, f.list);
    }

    method TidyPending(a: Address)
      requires Struct()
      modifies this`pending
      ensures Struct() && SameBut(old(pending), pending, a) && ItemsOf(pending, a) == ItemsOf(old(pending), a)
      ensures a in pending ==> pending[a].items.Keys != {}
    {
      hide ListsOk, Partition;
      if a in pending && pending[a].items.Keys == {} {
        Tidy(all, pending, queue, a, true);
        pending := pending - {a};
      }
    }

    /** Brings all pending lists in line with a new state, whatever they hold. */
    method DemoteUnexecutables()
      requires Struct() && PricedOk({}) && forall a :: Apart(pending, queue, a)
      modifies this`all, this`pending, this`queue, priced
      ensures Struct() && PricedOk({}) && all <= old(all)
      ensures forall a :: Demoted(old(pending), old(queue), pending, queue, a, world)
    {
      hide Struct, PricedOk, Demoted, SameBut, SameAt, Apart;
      ghost var p0, q0 := pending, queue;
      var accounts := Order(pending.Keys);
      NoneDemoted(p0, q0, world);
      assert accounts[0..] == accounts;
      for i := 0 to |accounts|
        invariant Struct() && PricedOk({}) && all <= old(all)
        invariant forall a | a in accounts[i..] :: SameAt(p0, pending, a) && SameAt(q0, queue, a)
        invariant forall a | a !in accounts[i..] :: Demoted(p0, q0, pending, queue, a, world)
      {
        ghost var p, q := pending, queue;
        var a := accounts[i];
        assert accounts[i..] == [a] + accounts[i + 1..];
        StillApart(p0, q0, p, q, a);
        DemoteAccount(a);
        DemotedFrom(p0, q0, p, q, pending, queue, a, world);
        DemotedOthers(p0, q0, p, q, pending, queue, accounts, i, world);
      }
    }

    /** Sets the virtual nonce of every pending account past its last pending transaction. */
    method UpdateNonces()
      requires Struct() && forall a | a in pending :: pending[a].items.Keys != {}
      modifies this`managed
      ensures Renonces(old(managed), managed, world, pending)
    {
      hide ListsOk, Partition, SortedOf;
      var accounts := Order(pending.Keys);
      for i := 0 to |accounts|
        invariant forall a :: VirtualNonce(managed, world, a) ==
                              if a in accounts[..i] then Renonced(pending, VirtualNonce(old(managed), world, a), a)
                              else VirtualNonce(old(managed), world, a)
      {
        var a := accounts[i];
        assert accounts[..i + 1] == accounts[..i] + [a];
        KeyedList(pending, a, true);
        var txs := L.InNonceOrder(pending[a].items);
        LastIsMax(txs, pending[a].items);
        managed := managed[a := txs[|txs| - 1].nonce + 1];
      }
      assert accounts[..|accounts|] == accounts;
      RenoncedAll(old(managed), managed, world, pending, accounts);
    }

    /** Adds a batch of transactions, then promotes what it made executable in the accounts it touched.  Every refusal
        has its ground.  In a pool with room each account gets exactly what the batch brings it, and in any pool the
        pending list of an account that the batch has nothing for is at most cut. */
    method AddTxs(txs: seq<Tx>, local: bool, ghost good: iset<Address>)
      returns (errs: seq<Option<Error>>, ghost r: Batch)
      requires Pooled(good) && Floor() && Limited() && forall i | 0 <= i < |txs| :: txs[i].nonce < MAX_UINT64
      modifies this`locals, this`all, this`pending, this`queue, this`managed, priced
      ensures Pooled(good) && Floor() && Limited() && (old(Fit()) ==> Fit())
      ensures |errs| == |txs| && r.taken == TakenOf(txs, errs)
      ensures Judged(txs, errs, local, old(Judging()), old(all), Cap(), config.priceBump)
      ensures Batched(old(Now()), old(all), |txs|, r, Now(), world, locals, config)
      ensures all <= old(all) + TxSet(r.taken) && |all| <= |old(all)| + |txs|
      ensures forall d | d in r.dropped :: d.From() !in old(locals)
      ensures |old(all)| + |txs| <= Cap() ==>
                AllBrought(old(Now()), r.start, txs, local, old(Judging()), config.priceBump)
      ensures forall a | !Sends(r.taken, a) ::
                SparedAt(old(Now()), Now(), world, a, a in old(locals) || |old(all)| + |txs| <= config.globalSlots)
      ensures LimitedTo(Found(r.start, old(all) + TxSet(r.taken)), locals, Cap())
      ensures txs != [] && errs[|txs| - 1] == None ==> r.start.Has(txs[|txs| - 1])
      ensures forall x | (x in old(all) || x in r.taken) && x !in all && Sound(x, world) ::
                || x in r.dropped || OutbidBy(x, r.taken, config.priceBump)
                || (r.accounts != [] && Crowded(r.start, r.mid, world, r.accounts, locals, config, x))
      ensures forall i | 0 <= i < |txs| && errs[i] == None && txs[i].From() in old(locals) ::
                txs[i] in all || OutbidBy(txs[i], r.taken, config.priceBump)
      ensures forall i | 0 <= i < |txs| && errs[i] == None && NextIn(old(Now()), world, txs[i], good)
                && (txs[i].From() in old(locals) || |old(all)| + |txs| <= config.globalSlots) ::
                txs[i].nonce in ItemsOf(pending, txs[i].From())
      ensures old(locals) <= locals && (!local ==> locals == old(locals))
      ensures txs == [] ==> Now() == old(Now())
    {
      hide ListsOk, Partition, PricedOk, Sound, Crowded, AllPlaced, OutbidBy, E.Distinct, Batched, Entered, TxSet,
          FilledLocals, Filled, NextIn, ItemsOf, TakenOf, Judged, AllBrought, Spared, SparedAt, Sends, AllCurtailed,
          LimitedTo, Found, Slots.Has, VirtualNonce;
      ghost var x, known := Now(), all;
      var accounts;
      errs, accounts, r := EnterAll(txs, local, good);
      ghost var now := all;
      FoundAll(r.start, known + TxSet(r.taken), all);
      r := PromoteBatch(accounts, r, x, known, |txs|, good);
      FitStill(known, r.taken, all, world);
      CrowdedRemote(r.start, r.mid, world, r.accounts, locals, config);
      LimitedLess(now, all, locals, locals, Cap());
      forall a | !Sends(r.taken, a)
        ensures SparedAt(x, Now(), world, a, a in old(locals) || |known| + |txs| <= config.globalSlots)
      {
        BatchSpares(x, known, |txs|, r, Now(), world, old(locals), locals, config, a);
      }
      forall i | 0 <= i < |txs| && errs[i] == None
        ensures txs[i].From() in old(locals) ==> txs[i] in all || OutbidBy(txs[i], r.taken, config.priceBump)
        ensures NextIn(x, world, txs[i], good)
                && (txs[i].From() in old(locals) || |known| + |txs| <= config.globalSlots) ==>
                  txs[i].nonce in ItemsOf(pending, txs[i].From())
      {
        TakenAt(txs, errs, i);
        if NextIn(x, world, txs[i], good) && (txs[i].From() in old(locals) || |known| + |txs| <= config.globalSlots) {
          FilledFor(x, known, |txs|, r, Now(), world, old(locals), locals, config, txs[i].From());
          BatchNext(x, known, |txs|, r, Now(), world, locals, config, txs[i], good);
        }
      }
    }

    /** The most transactions that the pool means to hold. */
    ghost function Cap(): nat {
      config.globalSlots + config.globalQueue
    }

    /** Takes in a batch, one by one, and notes the accounts that got something new. */
    method EnterAll(txs: seq<Tx>, local: bool, ghost good: iset<Address>)
      returns (errs: seq<Option<Error>>, accounts: seq<Address>, ghost r: Batch)
      requires Pooled(good) && Floor() && Limited() && forall i | 0 <= i < |txs| :: txs[i].nonce < MAX_UINT64
      modifies this`locals, this`all, this`pending, this`queue, this`managed, priced
      ensures Pooled(good) && Floor() && Limited() && |errs| == |txs| && E.Distinct(accounts)
      ensures r == Batch(TakenOf(txs, errs), r.dropped, Now(), Now(), accounts)
      ensures Judged(txs, errs, local, old(Judging()), old(all), Cap(), config.priceBump)
      ensures Entered(old(Now()), old(all), |txs|, r, all, world, config)
      ensures all <= old(all) + TxSet(r.taken) && |all| <= |old(all)| + |txs|
      ensures (forall d | d in r.dropped :: d.From() !in old(locals)) && forall t | t in r.taken :: Sound(t, world)
      ensures FilledLocals(old(Now()), Now(), world, r.taken, Members(accounts), old(locals))
      ensures Spared(old(Now()), Now(), world, r.taken, old(locals), r.dropped)
      ensures forall a | a in accounts :: Sends(r.taken, a)
      ensures |old(all)| + |txs| <= Cap() ==>
                AllBrought(old(Now()), Now(), txs, local, old(Judging()), config.priceBump)
      ensures txs != [] && errs[|txs| - 1] == None ==> txs[|txs| - 1] in all
      ensures old(locals) <= locals && (!local ==> locals == old(locals))
      ensures txs == [] ==> Now() == old(Now()) && accounts == []
    {
      hide ListsOk, Partition, PricedOk, Sound, AllPlaced, Adding, E.Distinct, Entered, TxSet, FilledLocals, Spared,
          Sends, TakenOf, Judged, AllBrought, OneBrought, LimitedTo, Passes, Grounds, Outpriced;
      ghost var x, known, rules := Now(), all, Judging();
      errs := [];
      var dirty := {};
      ghost var taken, dropped := [], {};
      AddingNone(all, x, world, locals, Cap(), config.priceBump);
      TakenNone(txs);
      JudgedNone(txs, local, rules, known, Cap(), config.priceBump);
      BroughtNone(x, txs, local, rules, config.priceBump);
      for i := 0 to |txs|
        invariant Pooled(good) && Floor() && Limited() && |errs| == i && taken == TakenOf(txs[..i], errs)
        invariant old(locals) <= locals && (!local ==> locals == old(locals))
        invariant Adding(known, all, x, Now(), taken, dropped, dirty, i, world, old(locals), Cap(), config.priceBump)
        invariant Judged(txs, errs, local, rules, known, Cap(), config.priceBump)
        invariant |known| + |txs| <= Cap() ==> AllBrought(x, Now(), txs[..i], local, rules, config.priceBump)
        invariant i > 0 && errs[i - 1] == None ==> txs[i - 1] in all
        invariant i == 0 ==> Now() == x && dirty == {} && dropped == {}
      {
        var err;
        ghost var y := Now();
        TakenNext(txs, errs, i);
        StillKnown(known, all, taken, i, x, y, dropped, dirty, world, old(locals), Cap(), config.priceBump);
        err, dirty, taken, dropped := AddNext(txs[i], local, dirty, known, x, taken, dropped, i, old(locals), good);
        assert errs[..i] == errs;
        JudgedNext(txs, errs, err, local, rules, known, Cap(), config.priceBump);
        if |known| + |txs| <= Cap() {
          BroughtNext(x, y, Now(), txs, i, local, rules, config.priceBump);
        }
        errs := errs + [err];
      }
      assert txs[..|txs|] == txs;
      accounts := Order(dirty);
      AddingEnds(known, all, x, Now(), taken, dropped, dirty, |txs|, world, old(locals), config, accounts);
      NoAccounts(accounts, dirty);
      r := Batch(taken, dropped, Now(), Now(), accounts);
    }

    /** One of a batch. */
    method AddNext(tx: Tx, local: bool, dirty: set<Address>, ghost known: set<Tx>, ghost x: Slots, ghost taken: seq<Tx>,
                   ghost dropped: set<Tx>, ghost i: nat, ghost locals0: set<Address>, ghost good: iset<Address>)
      returns (err: Option<Error>, dirty': set<Address>, ghost taken': seq<Tx>, ghost dropped': set<Tx>)
      requires Pooled(good) && Floor() && Limited() && tx.nonce < MAX_UINT64
      requires locals0 <= locals && (!local ==> locals == locals0)
      requires Adding(known, all, x, Now(), taken, dropped, dirty, i, world, locals0, Cap(), config.priceBump)
      modifies this`locals, this`all, this`pending, this`queue, this`managed, priced
      ensures Pooled(good) && Floor() && Limited() && taken' == taken + (if err == None then [tx] else [])
      ensures Adding(known, all, x, Now(), taken', dropped', dirty', i + 1, world, locals0, Cap(), config.priceBump)
      ensures err == None ==> Passes(tx, local, Judging().(locals := locals0)) && tx in all
      ensures err.Some? ==>
                var before := known + TxSet(taken);
                Grounds(err.value, tx, local, Judging().(locals := locals0), before,
                        Outpriced(tx, locals0, before, Cap()), config.priceBump)
      ensures |old(all)| < Cap() ==>
                OneBrought(old(Now()), Now(), tx, local, Judging().(locals := locals0), config.priceBump)
      ensures old(locals) <= locals && (!local ==> locals == old(locals))
    {
      hide Struct, PricedOk, TouchedBy, Sound, AllPlaced, Adding, Slotted, Grounds, OneBrought, AllCurtailed, Outpriced,
          Passes, LimitedTo, Worst, TxSet, Outbids, ItemsOf, Replace;
      ghost var y, now, bump, worst := Now(), all, config.priceBump, Worst(tx, all);
      StillKnown(known, all, taken, i, x, y, dropped, dirty, world, locals0, Cap(), bump);
      var replaced;
      ghost var d, victim, room;
      ghost var before := known + TxSet(taken);
      WorstOutpriced(tx, now, before, locals0);
      replaced, err, d, victim, room := AddOne(tx, local, locals0, good);
      dropped' := dropped + d;
      if err == None {
        taken', dirty' := taken + [tx], if replaced then dirty else dirty + {tx.From()};
        AddingTook(known, now, x, y, taken, dropped, dirty, i, world, locals0, Cap(), bump, tx, d, victim, room,
            Now(), replaced);
      } else {
        taken', dirty' := taken, dirty;
        AddingRefused(known, now, x, y, taken, dropped, dirty, i, world, locals0, Cap(), bump, d, Now());
        GroundsMore(err.value, tx, local, old(Judging()), locals0, now, before, worst,
            Outpriced(tx, locals0, before, Cap()), bump);
      }
    }

    /** A submission, and what it means where there is room, by the rules with which the batch began. */
    method AddOne(tx: Tx, local: bool, ghost locals0: set<Address>, ghost good: iset<Address>)
      returns (replaced: bool, err: Option<Error>, ghost dropped: set<Tx>, ghost victim: Option<Tx>, ghost mid: Slots)
      requires Pooled(good) && Floor() && Limited() && tx.nonce < MAX_UINT64
      requires locals0 <= locals && (!local ==> locals == locals0)
      modifies this`locals, this`all, this`pending, this`queue, this`managed, priced
      ensures Pooled(good) && Floor() && Limited()
      ensures (dropped != {} ==> |dropped| + Cap() <= |old(all)| + 1) && (dropped == {} ==> mid == old(Now()))
      ensures dropped <= old(all) && forall t | t in dropped :: t.From() !in locals0
      ensures TouchedBy(old(Now()), mid, world, dropped) && AllCurtailed(old(Now()), mid, world)
      ensures victim.Some? ==>
                victim.value.From() == tx.From() && victim.value.nonce == tx.nonce
                && Outbids(tx, victim.value, config.priceBump)
      ensures err == None ==>
                && Sound(tx, world) && Passes(tx, local, Judging().(locals := locals0)) && tx in all
                && all == Replace(old(all) - dropped, victim, tx) && Slotted(mid, Now(), tx)
                && (replaced <==> tx.nonce in ItemsOf(mid.pending, tx.From())
                                  || tx.nonce in ItemsOf(mid.queue, tx.From()))
      ensures err.Some? ==>
                && all == old(all) - dropped && Now() == mid
                && Grounds(err.value, tx, local, old(Judging()), old(all), old(Worst(tx, all)), config.priceBump)
      ensures |old(all)| < Cap() ==>
                OneBrought(old(Now()), Now(), tx, local, Judging().(locals := locals0), config.priceBump)
      ensures old(locals) <= locals && (!local ==> locals == old(locals))
    {
      hide Struct, PricedOk, TouchedBy, Sound, AllPlaced, Slotted, Grounds, OneBrought, AllCurtailed, Passes, LimitedTo,
          Worst, Outbids, ItemsOf, Partition, Apart, Cheapest;
      ghost var y, now, bump, rules, worst := Now(), all, config.priceBump, Judging(), Worst(tx, all);
      PoolApart(tx.From(), good);
      WorstFull(tx, all);
      replaced, err, dropped, victim, mid := Add(tx, local, good);
      DroppedRemote(dropped, now, old(locals), locals0);
      DroppedRemote(dropped, now, old(locals), old(locals));
      assert now - {} == now;
      AddBrought(now, y, mid, Now(), tx, err, dropped, victim, worst, local, rules, locals0, Cap(), bump);
      LimitedAfter(now, all, old(locals), locals, dropped, victim, tx, err == None, Cap());
    }

    lemma WorstFull(tx: Tx, now: set<Tx>)
      ensures Worst(tx, now) ==> |now| >= Cap()
    {}

    lemma WorstOutpriced(tx: Tx, now: set<Tx>, known: set<Tx>, locals0: set<Address>)
      requires locals0 <= locals && now <= known
      ensures Worst(tx, now) ==> Outpriced(tx, locals0, known, Cap())
    {
      if Worst(tx, now) {
        IsOutpriced(tx, locals0, locals, now, known, Cap());
      }
    }

    lemma PoolApart(a: Address, good: iset<Address>)
      requires Pooled(good)
      ensures Partition(all, pending, queue) && Apart(pending, queue, a)
    {
      OnePlaced(Now(), world, a, good);
    }

    /** What a transaction that comes back is judged by under a new head. */
    ghost function JudgingAt(newWorld: World, isHomestead: bool): Rules
      reads this`locals, this`gasPrice, this`homestead
    {
      Rules(newWorld, locals, gasPrice, homestead || isHomestead)
    }

    /** A new chain head: the state changes, transactions that the chain has given up come back, and the pool is
        brought in line with it.  Whatever the state and the transactions are, each one that comes back is taken in or
        refused with reason, and the pool is left with all of its invariant but for the order of some accounts.

        In a pool with room an account is in order again exactly if what it had pending and what comes back of it join
        up.  In any pool an account of which nothing comes back is so exactly if it has lost no pending transaction
        that the state has gone past; a local one has not, and nor has one that the state has not moved on. */
    method Reset(newWorld: World, isHomestead: bool, reinject: seq<Tx>, ghost good: iset<Address>)
      returns (ghost errs: seq<Option<Error>>, ghost r: Batch, ghost t: Turn, ghost straight: iset<Address>)
      requires Kept(good) && forall i | 0 <= i < |reinject| :: reinject[i].nonce < MAX_UINT64
      modifies this`world, this`homestead, this`locals, this`all, this`pending, this`queue, this`managed, priced
      ensures Kept(straight) && world == newWorld && locals == old(locals)
      ensures all <= old(all) + TxSet(r.taken) && |all| <= |old(all)| + |reinject|
      ensures |errs| == |reinject| && r.taken == TakenOf(reinject, errs)
      ensures Judged(reinject, errs, false, old(JudgingAt(newWorld, isHomestead)), old(all), Cap(), config.priceBump)
      ensures reinject != [] && errs[|reinject| - 1] == None ==> r.start.Has(reinject[|reinject| - 1])
      ensures LimitedTo(Found(r.start, old(all) + TxSet(r.taken)), locals, Cap())
      ensures var start := Slots(old(pending), old(queue), map[]);
              Batched(start, old(all), |reinject|, r, t.before, newWorld, locals, config)
      ensures Turned(t, newWorld, locals, config.accountQueue) && Capped(t.mid, pending, queue, locals, config)
      ensures straight == Straights(t.before, newWorld)
      ensures forall d | d in r.dropped :: d.From() !in locals
      ensures forall x | (x in old(all) || x in r.taken) && x !in all && Sound(x, newWorld) ::
                || x in r.dropped || OutbidBy(x, r.taken, config.priceBump)
                || (r.accounts != [] && Crowded(r.start, r.mid, newWorld, r.accounts, locals, config, x))
                || Crowded(t.start, t.mid, newWorld, t.accounts, locals, config, x)
      ensures InOrderAfter(old(Now()), old(world), good, |old(all)| + |reinject| <= config.globalSlots, reinject, r, t,
                           Now(), old(JudgingAt(newWorld, isHomestead)), config.priceBump, straight)
    {
      hide Struct, PricedOk, AllPlaced, Crowded, Capped, OutbidBy, Sound, Straights, Turned, Total, Batched, Judged,
          TxSet, AllBrought, SparedAt, Sends, LimitedTo, Found, AllCurtailed, TakenOf, Slots.Has, InOrderAfter;
      ghost var w, x, known := world, Now(), all;
      if isHomestead {
        homestead := true;
      }
      world, managed := newWorld, map[];
      ghost var y := Now();
      NoOrder(x, w, good, y, world);
      errs, r := AddTxs(reinject, false, iset{});
      t, straight := BringInLine();
      CappedSame(t.mid, pending, queue, locals, config);
      HeadOrder(x, w, good, known, reinject, errs, r, t, Now(), Judging(), config, straight);
    }

    /** Brings the pool in line with the state, whatever it holds. */
    method BringInLine() returns (ghost t: Turn, ghost straight: iset<Address>)
      requires Pooled(iset{}) && Floor() && Limited()
      modifies this`all, this`pending, this`queue, this`managed, priced
      ensures Kept(straight) && all <= old(all) && |all| <= |old(all)| && AllCurtailed(t.mid, Now(), world)
      ensures t.before == old(Now()) && straight == Straights(t.before, world)
      ensures Turned(t, world, locals, config.accountQueue) && Capped(t.mid, pending, queue, locals, config)
      ensures Total(t.mid.pending) <= config.globalSlots ==> managed == t.mid.managed
      ensures Total(t.mid.pending) <= |old(all)|
      ensures forall x | x in old(all) && x !in all && Sound(x, world) ::
                Crowded(t.start, t.mid, world, t.accounts, locals, config, x)
    {
      hide ListsOk, Partition, PricedOk, AllPlaced, Crowded, Capped, ProcessedAll, Sound, Demoted, Renonced,
          Processing, Apart, Total, E.Distinct, Straights, Turned, VirtualNonce, AllCurtailed, LimitedTo;
      ghost var b, known := Now(), all;
      AllApart(b, world, iset{});
      DemoteUnexecutables();
      straight := Straights(b, world);
      DemotedKept(b, pending, queue, known, all, world);
      ghost var left := all;
      UpdateNonces();
      var accounts := Order(queue.Keys);
      ghost var start := Now();
      StraightProcessing(b, start, world, straight, accounts);
      ghost var mid := PromoteExecutables(accounts, straight);
      t := Turn(b, start, mid, accounts);
      TurnsOut(b, start, mid, accounts, world, locals, config.accountQueue);
      FitAfter(start, mid, pending, queue, all, world, accounts, locals, config);
      Fewer(left, known);
      Fewer(all, known);
      LimitedLess(known, all, locals, locals, Cap());
    }

    /** Evicts the whole queues of remote accounts that were inactive for too long. */
    method Evict(expired: set<Address>, ghost good: iset<Address>)
      requires Kept(good)
      modifies this`all, this`pending, this`queue, this`managed, priced
      ensures Kept(good) && all <= old(all) && pending == old(pending)
      ensures forall a | a in expired && a !in locals :: Len(queue, a) == 0
      ensures forall a | a in locals || a !in expired :: ItemsOf(queue, a) == ItemsOf(old(queue), a)
    {
      hide Pooled, Total, Sub, LimitedTo;
      var accounts := Order(queue.Keys);
      for i := 0 to |accounts|
        invariant Pooled(good) && all <= old(all) && pending == old(pending)
        invariant forall a | a in expired && a !in locals && a !in accounts[i..] :: Len(queue, a) == 0
        invariant forall a | a in locals || a !in expired
                  || a in accounts[i..] :: ItemsOf(queue, a) == ItemsOf(old(queue), a)
      {
        var a := accounts[i];
        assert accounts[i..] == [a] + accounts[i + 1..];
        if a !in locals && a in expired && a in queue {
          DropAllQueued(a, good);
        }
      }
      LimitedLess(old(all), all, locals, locals, Cap());
    }

    /** The invariant in plain words. */
    lemma Invariant()
      requires Valid()
      ensures forall tx :: tx in all <==> Holds(pending, tx) || Holds(queue, tx)
      ensures forall tx :: !(Holds(pending, tx) && Holds(queue, tx))
      ensures forall a, n :: n in ItemsOf(pending, a) <==> world.Nonce(a) <= n < PendingNonce(a)
      ensures forall a, n, k | n in ItemsOf(pending, a) && k in ItemsOf(queue, a) :: n < k
      ensures forall tx | tx in all :: tx.Cost() <= world.Balance(tx.From()) && tx.gas <= world.maxGas
      ensures forall tx | tx in all && tx.From() !in locals :: gasPrice <= tx.price
      ensures forall tx | tx in all :: tx in priced.items
      ensures |all| <= config.globalSlots + config.globalQueue ||
              forall s, t | s in all && t in all && s.From() !in locals && t.From() !in locals :: s == t
    {
      forall a ensures GapFree(ItemsOf(pending, a), world.Nonce(a), PendingNonce(a))
                       && forall k | k in ItemsOf(queue, a) :: PendingNonce(a) <= k {
        assert PlacedIn(Now(), world, a, EVERYONE);
      }
      assert all - {} == all;
    }

    /** What is left of the invariant when not every account is in order: all but the run of pending nonces and the
        place of the queue after it, and these still for the accounts that are. */
    lemma KeptInWords(good: iset<Address>)
      requires Kept(good)
      ensures forall tx :: tx in all <==> Holds(pending, tx) || Holds(queue, tx)
      ensures forall a, n :: !(n in ItemsOf(pending, a) && n in ItemsOf(queue, a))
      ensures forall a | a in good :: OrderedAt(a)
      ensures forall tx | tx in all :: world.Nonce(tx.From()) <= tx.nonce && world.Affords(tx)
      ensures forall tx | tx in all && tx.From() !in locals :: gasPrice <= tx.price
      ensures forall tx | tx in all :: tx in priced.items
      ensures |all| <= config.globalSlots + config.globalQueue ||
              forall s, t | s in all && t in all && s.From() !in locals && t.From() !in locals :: s == t
    {
      forall a ensures ItemsOf(pending, a).Keys !! ItemsOf(queue, a).Keys && (a in good ==> OrderedAt(a)) {
        OnePlaced(Now(), world, a, good);
      }
      forall a, n ensures !(n in ItemsOf(pending, a) && n in ItemsOf(queue, a)) {
        assert ItemsOf(pending, a).Keys !! ItemsOf(queue, a).Keys;
        assert n in ItemsOf(pending, a) ==> n in ItemsOf(pending, a).Keys;
      }
      assert all - {} == all;
    }

    /** One operation.  An account in order stays so unless a head brings something of it back, or makes a pool short of
        room drop something of it though it is not local. */
    method Perform(op: Op, ghost good: iset<Address>) returns (ghost good': iset<Address>)
      requires Kept(good) && op.Representable()
      modifies this, priced
      ensures Kept(good') && |all| <= |old(all)| + op.Size() && old(locals) <= locals
      ensures op.Plain() ==> good <= good'
      ensures forall a | a in good && !op.BringsBack(a)
                && (a in old(locals) || |old(all)| + op.Size() <= config.globalSlots) ::
                a in good'
    {
      hide Struct, PricedOk, AllPlaced, Sound, Crowded, Capped, ProcessedAll, Filled, OutbidBy, Turned, Straights,
          Rejoins, Payable, Cheapest, Total, Ordered, SameBut, NoncesBut, Holds, LimitedTo, AllCurtailed, Judged,
          AllBrought, SparedAt, Brought, Found, Unforgotten, Batched, TxSet, Grounds, Worst, NextIn, OrderedIn, Sends;
      good' := good;
      match op {
        case Submit(tx, local) =>
          var _, _ := AddTx(tx, local, good);
          OneMore(old(all), all, tx);
        case SubmitAll(txs, local) =>
          var _, _ := AddTxs(txs, local, good);
        case Discard(tx) =>
          RemoveTx(tx, {}, good);
          LimitedLess(old(all), all, locals, locals, Cap());
          Fewer(all, old(all));
        case Reprice(price) =>
          SetGasPrice(price, good);
          Fewer(all, old(all));
        case Expire(accounts) =>
          Evict(accounts, good);
          Fewer(all, old(all));
        case NewHead(w, isHomestead, reinject) =>
          var _, _, _, straight := Reset(w, isHomestead, reinject, good);
          good' := straight;
      }
    }

    /** Every run of pool operations keeps the invariant, but perhaps for the order of some accounts.  A run in which
        no head brings transactions back keeps all of it.  In any run an account in order stays so of which no head
        brings anything back, if it is local or there is room for all that is submitted or comes back. */
    method Run(ops: seq<Op>, ghost good: iset<Address>) returns (ghost good': iset<Address>)
      requires Kept(good) && forall i | 0 <= i < |ops| :: ops[i].Representable()
      modifies this, priced
      ensures Kept(good') && ((forall i | 0 <= i < |ops| :: ops[i].Plain()) ==> good <= good')
      ensures good == EVERYONE && (forall i | 0 <= i < |ops| :: ops[i].Plain()) ==> Valid()
      ensures forall a | a in good && (forall i | 0 <= i < |ops| :: !ops[i].BringsBack(a))
                && (a in old(locals) || |old(all)| + Volume(ops) <= config.globalSlots) ::
                a in good' && OrderedAt(a)
    {
      hide Struct, PricedOk, AllPlaced, Sound, LimitedTo, OrderedIn, Sends;
      good' := good;
      VolumeNone(ops);
      for i := 0 to |ops|
        invariant Kept(good') && ((forall j | 0 <= j < i :: ops[j].Plain()) ==> good <= good')
        invariant |all| <= |old(all)| + Volume(ops[..i]) && old(locals) <= locals
        invariant forall a | a in good && (forall j | 0 <= j < i :: !ops[j].BringsBack(a))
                    && (a in old(locals) || |old(all)| + Volume(ops) <= config.globalSlots) ::
                    a in good'
      {
        VolumeNext(ops, i);
        good' := Perform(ops[i], good');
      }
      assert ops[..|ops|] == ops;
      FewerInOrder(Now(), world, good', good);
      forall a | a in good' ensures OrderedAt(a) {
        InPlace(Now(), world, a, good');
      }
    }
  }

  /** How many transactions a run submits or brings back. */
  ghost function Volume(ops: seq<Op>): nat {
    if ops == [] then 0 else Volume(ops[..|ops| - 1]) + ops[|ops| - 1].Size()
  }

  lemma VolumeNone(ops: seq<Op>)
    ensures Volume(ops[..0]) == 0
  {}

  lemma {:induction false} VolumeNext(ops: seq<Op>, i: nat)
    requires i < |ops|
    ensures Volume(ops[..i + 1]) == Volume(ops[..i]) + ops[i].Size() <= Volume(ops)
    decreases |ops| - i
  {
    assert ops[..i + 1][..i] == ops[..i];
    if i + 1 < |ops| {
      VolumeNext(ops, i + 1);
    } else {
      assert ops[..i + 1] == ops;
    }
  }
}
