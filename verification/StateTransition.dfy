/** Gas and balances: what applying a message takes from the sender, gives back, pays to the coinbase and
    leaves in the block's gas pool.  Execution itself is a parameter that uses at most the gas it is given. */
module StateTransitions {
  import opened Transactions
  import Intrinsic = IntrinsicGas

  type Balances = map<Address, nat>

  datatype World = World(balances: Balances, nonces: map<Address, nat>, refund: uint64)

  /** A message; no recipient means that it creates a contract. */
  datatype Message = Message(from: Address, to: Option<Address>, gas: uint64, price: nat, value: nat,
                             nonce: uint64, checkNonce: bool, data: Data)

  /** What execution does: the world and gas it leaves, whether it failed, and whether it failed for want of
      balance for the transferred value. */
  datatype Outcome = Outcome(world: World, gas: uint64, failed: bool, insufficient: bool)

  type Evm = (Message, World, uint64) -> Outcome

  /** Execution never gives back more gas than it got. */
  ghost predicate Frugal(evm: Evm) {
    forall m: Message, w: World, g: uint64 :: evm(m, w, g).gas <= g
  }

  datatype Error =
    | NonceTooHigh | NonceTooLow | InsufficientBalanceForGas | GasLimitReached | OutOfGas | InsufficientBalance
    | BadSender

  // ---------- balances ----------

  function Balance(b: Balances, a: Address): nat {
    if a in b then b[a] else 0
  }

  function Credit(b: Balances, a: Address, amount: nat): Balances {
    b[a := Balance(b, a) + amount]
  }

  /** The sum of all balances. */
  ghost function Total(b: Balances): nat
    decreases |b|
  {
    if b == map[] then 0
    else
      var a :| a in b;
      Fewer(b, a);
      b[a] + Total(b - {a})
  }

  lemma Fewer(b: Balances, a: Address)
    requires a in b
    ensures |b - {a}| < |b|
  {}

  lemma TotalStep(b: Balances, a: Address) returns (c: Address)
    requires a in b
    ensures c in b && Total(b) == b[c] + Total(b - {c})
  {
    assert b != map[];
    c :| c in b && Total(b) == b[c] + Total(b - {c});
  }

  lemma {:induction false} TotalSplit(b: Balances, a: Address)
    requires a in b
    ensures Total(b) == b[a] + Total(b - {a})
    decreases |b|
  {
    hide Total;
    var c := TotalStep(b, a);
    if c != a {
      Fewer(b, c);
      Fewer(b, a);
      TotalSplit(b - {c}, a);
      TotalSplit(b - {a}, c);
      assert (b - {c}) - {a} == (b - {a}) - {c};
    }
  }

  lemma TotalAt(b: Balances, a: Address)
    ensures Total(b) == Balance(b, a) + Total(b - {a})
  {
    if a in b {
      TotalSplit(b, a);
    } else {
      assert b - {a} == b;
    }
  }

  lemma TotalSet(b: Balances, a: Address, v: nat)
    ensures Total(b[a := v]) == Total(b) - Balance(b, a) + v && Balance(b, a) <= Total(b)
  {
    TotalAt(b, a);
    TotalAt(b[a := v], a);
    assert b[a := v] - {a} == b - {a};
  }

  lemma TotalCredit(b: Balances, a: Address, amount: nat)
    ensures Total(Credit(b, a, amount)) == Total(b) + amount
  {
    TotalSet(b, a, Balance(b, a) + amount);
  }

  /** `after` is `before` with an amount taken from one account. */
  ghost predicate Debited(before: Balances, after: Balances, a: Address, amount: nat) {
    forall x :: Balance(after, x) == Balance(before, x) - if x == a then amount else 0
  }

  // ---------- the pool and the state ----------

  class GasPool {
    var gas: uint64

    constructor ()
      ensures gas == 0
    {
      gas := 0;
    }

    /** Makes gas available.  Going over 64 bits is a panic, which leaves the pool as it was. */
    method AddGas(amount: uint64) returns (panics: bool)
      modifies this
      ensures panics <==> old(gas) + amount > MAX_UINT64
      ensures gas == if panics then old(gas) else old(gas) + amount
    {
      if gas > MAX_UINT64 - amount {
        return true;
      }
      gas := gas + amount;
      return false;
    }

    method SubGas(amount: uint64) returns (ok: bool)
      modifies this
      ensures ok <==> old(gas) >= amount
      ensures gas == if ok then old(gas) - amount else old(gas)
    {
      if gas < amount {
        return false;
      }
      gas := gas - amount;
      return true;
    }
  }

  class StateDB {
    var world: World

    constructor (w: World)
      ensures world == w
    {
      world := w;
    }

    /** Makes sure an account exists; nobody's balance changes. */
    method Touch(a: Address)
      modifies this
      ensures Total(world.balances) == Total(old(world.balances))
      ensures forall x :: Balance(world.balances, x) == Balance(old(world.balances), x)
      ensures world.nonces == old(world.nonces) && world.refund == old(world.refund)
    {
      TotalSet(world.balances, a, 0);
      if a !in world.balances {
        world := world.(balances := world.balances[a := 0]);
      }
    }

    method AddBalance(a: Address, amount: nat)
      modifies this
      ensures world == old(world).(balances := Credit(old(world.balances), a, amount))
    {
      world := world.(balances := Credit(world.balances, a, amount));
    }

    method SubBalance(a: Address, amount: nat)
      requires amount <= Balance(world.balances, a)
      modifies this
      ensures world == old(world).(balances := old(world.balances)[a := Balance(old(world.balances), a) - amount])
      ensures Total(world.balances) == Total(old(world.balances)) - amount
    {
      TotalSet(world.balances, a, Balance(world.balances, a) - amount);
      world := world.(balances := world.balances[a := Balance(world.balances, a) - amount]);
    }
  }

  // ---------- applying one message ----------

  /** What an amount of gas costs. */
  function Fee(gas: nat, price: nat): nat {
    gas * price
  }

  function Nonce(w: World, a: Address): nat {
    if a in w.nonces then w.nonces[a] else 0
  }

  /** What is refunded: at most half of what was spent. */
  function RefundOf(spent: nat, counter: nat): nat {
    if spent / 2 > counter then counter else spent / 2
  }

  /** Why a message may not be executed, before its intrinsic gas is looked at. */
  function PreError(msg: Message, w: World, pool: nat): Option<Error> {
    if msg.checkNonce && Nonce(w, msg.from) < msg.nonce then Some(NonceTooHigh)
    else if msg.checkNonce && Nonce(w, msg.from) > msg.nonce then Some(NonceTooLow)
    else if Balance(w.balances, msg.from) < Fee(msg.gas, msg.price) then Some(InsufficientBalanceForGas)
    else if pool < msg.gas then Some(GasLimitReached)
    else None
  }

  function IntrinsicOf(msg: Message, homestead: bool): nat {
    Intrinsic.IntrinsicSum(msg.data, msg.to == None, homestead)
  }

  /** The nonces a message is executed with: a call has raised the sender's, in 64 bits, a creation leaves that
      to the execution. */
  function Raised(msg: Message, w: World): map<Address, nat> {
    if msg.to == None then w.nonces else w.nonces[msg.from := (Nonce(w, msg.from) + 1) % (MAX_UINT64 + 1)]
  }

  /** What is the same for all messages of a block. */
  datatype Context = Context(evm: Evm, coinbase: Address, homestead: bool)

  /** One message applied: the worlds before it, at the start of its execution and after it, what the execution
      did, and the gas used. */
  datatype Step = Step(before: World, mid: World, out: Outcome, after: World, used: nat)

  /** The message was executed on the world with the fee debited and the nonce raised. */
  ghost predicate Executes(c: Context, msg: Message, before: World, mid: World, out: Outcome)
    requires IntrinsicOf(msg, c.homestead) <= msg.gas
  {
    && Debited(before.balances, mid.balances, msg.from, Fee(msg.gas, msg.price))
    && mid.nonces == Raised(msg, before) && mid.refund == before.refund
    && out == c.evm(msg, mid, msg.gas - IntrinsicOf(msg, c.homestead))
  }

  /** The message may be applied with so much gas in the pool, and this is what applying it does: it was
      executed, at most half of the gas spent was refunded,
      and the sender was paid for the gas left and the coinbase for the gas used. */
  ghost predicate Applies(c: Context, msg: Message, pool: nat, s: Step) {
    && PreError(msg, s.before, pool) == None && IntrinsicOf(msg, c.homestead) <= msg.gas && !s.out.insufficient
    && Executes(c, msg, s.before, s.mid, s.out) && s.out.gas <= msg.gas
    && s.used == Used(msg, s.out) <= msg.gas
    && Paid(s.out.world.balances, s.after.balances, msg, c.coinbase, s.used)
    && s.after.nonces == s.out.world.nonces && s.after.refund == s.out.world.refund
    && Total(s.after.balances) - Total(s.before.balances) == Total(s.out.world.balances) - Total(s.mid.balances)
  }

  /** The gas a message pays for: what was spent less the refund. */
  function Used(msg: Message, out: Outcome): nat
    requires out.gas <= msg.gas
  {
    msg.gas - out.gas - RefundOf(msg.gas - out.gas, out.world.refund)
  }

  /** Why a message cannot be applied. */
  ghost predicate Refused(c: Context, msg: Message, pool: nat, w: World, e: Error) {
    match PreError(msg, w, pool)
    case Some(x) => e == x
    case None =>
      if IntrinsicOf(msg, c.homestead) > msg.gas then e == OutOfGas
      else e == InsufficientBalance && exists mid, out :: Executes(c, msg, w, mid, out) && out.insufficient
  }

  class StateTransition {
    const gp: GasPool
    const db: StateDB
    const evm: Evm
    const msg: Message
    const coinbase: Address
    const homestead: bool
    var gas: uint64
    var initialGas: uint64

    constructor (gp: GasPool, db: StateDB, evm: Evm, msg: Message, coinbase: Address, homestead: bool)
      ensures this.gp == gp && this.db == db && this.evm == evm && this.msg == msg && this.coinbase == coinbase
      ensures this.homestead == homestead && gas == 0 && initialGas == 0
    {
      this.gp, this.db, this.evm, this.msg, this.coinbase, this.homestead := gp, db, evm, msg, coinbase, homestead;
      gas, initialGas := 0, 0;
    }

    method UseGas(amount: uint64) returns (ok: bool)
      modifies `gas
      ensures ok <==> old(gas) >= amount
      ensures gas == if ok then old(gas) - amount else old(gas)
    {
      if gas < amount {
        return false;
      }
      gas := gas - amount;
      return true;
    }

    /** Buys the message's gas from the pool, paid for by the sender. */
    method BuyGas() returns (err: Option<Error>)
      requires gas == 0
      modifies this, gp, db
      ensures err == if Balance(old(db.world.balances), msg.from) < Fee(msg.gas, msg.price)
                     then Some(InsufficientBalanceForGas)
                     else if old(gp.gas) < msg.gas then Some(GasLimitReached) else None
      ensures err == None ==>
                && gas == initialGas == msg.gas && gp.gas == old(gp.gas) - msg.gas
                && Total(db.world.balances) == Total(old(db.world.balances)) - Fee(msg.gas, msg.price)
                && Debited(old(db.world.balances), db.world.balances, msg.from, Fee(msg.gas, msg.price))
      ensures err != None ==>
                && gas == 0 && initialGas == old(initialGas) && gp.gas == old(gp.gas)
                && Debited(old(db.world.balances), db.world.balances, msg.from, 0)
      ensures db.world.nonces == old(db.world.nonces) && db.world.refund == old(db.world.refund)
    {
      hide Total, Fee;
      db.Touch(msg.from);
      var mgval := Fee(msg.gas, msg.price);
      if Balance(db.world.balances, msg.from) < mgval {
        return Some(InsufficientBalanceForGas);
      }
      var ok := gp.SubGas(msg.gas);
      if !ok {
        return Some(GasLimitReached);
      }
      gas := gas + msg.gas;
      initialGas := msg.gas;
      db.SubBalance(msg.from, mgval);
      return None;
    }

    method PreCheck() returns (err: Option<Error>)
      requires gas == 0
      modifies this, gp, db
      ensures err == None ==>
                && gas == initialGas == msg.gas && gp.gas == old(gp.gas) - msg.gas
                && Total(db.world.balances) == Total(old(db.world.balances)) - Fee(msg.gas, msg.price)
                && Debited(old(db.world.balances), db.world.balances, msg.from, Fee(msg.gas, msg.price))
      ensures err == PreError(msg, old(db.world), old(gp.gas))
      ensures err != None ==> gp.gas == old(gp.gas) && Debited(old(db.world.balances), db.world.balances, msg.from, 0)
      ensures db.world.nonces == old(db.world.nonces) && db.world.refund == old(db.world.refund)
    {
      hide Total, Fee;
      db.Touch(msg.from);
      if msg.checkNonce {
        var nonce := Nonce(db.world, msg.from);
        if nonce < msg.nonce {
          return Some(NonceTooHigh);
        } else if nonce > msg.nonce {
          return Some(NonceTooLow);
        }
      }
      err := BuyGas();
    }

    /** Gives back what is left of the gas with the refund, to the sender at the price it was bought for and
        to the pool.  The pool cannot overflow. */
    method RefundGas()
      requires gas <= initialGas && gp.gas + initialGas <= MAX_UINT64
      modifies this, gp, db
      ensures initialGas == old(initialGas)
      ensures gas == old(gas) + RefundOf(initialGas - old(gas), old(db.world.refund)) <= initialGas
      ensures gp.gas == old(gp.gas) + gas
      ensures Total(db.world.balances) == Total(old(db.world.balances)) + Fee(gas, msg.price)
      ensures forall x :: Balance(db.world.balances, x) ==
                          Balance(old(db.world.balances), x) + if x == msg.from then Fee(gas, msg.price) else 0
      ensures db.world.nonces == old(db.world.nonces) && db.world.refund == old(db.world.refund)
    {
      hide Total, Fee;
      var refund := (initialGas - gas) / 2;
      if refund > db.world.refund {
        refund := db.world.refund;
      }
      gas := gas + refund;
      db.Touch(msg.from);
      TotalCredit(db.world.balances, msg.from, Fee(gas, msg.price));
      db.AddBalance(msg.from, Fee(gas, msg.price));
      var panics := gp.AddGas(gas);
      assert !panics;
    }

    /** Runs the message: a creation, or a call for which the sender's nonce goes up first. */
    method Execute() returns (out: Outcome, ghost mid: World)
      requires Frugal(evm)
      modifies `gas, db
      ensures Total(mid.balances) == Total(old(db.world.balances))
              && Debited(old(db.world.balances), mid.balances, msg.from, 0)
      ensures mid.refund == old(db.world.refund)
      ensures mid.nonces == Raised(msg, old(db.world))
      ensures out == evm(msg, mid, old(gas)) && gas == out.gas <= old(gas) && db.world == out.world
    {
      hide Total;
      if msg.to != None {
        db.world := db.world.(nonces := Raised(msg, db.world));
        db.Touch(msg.to.value);
      }
      mid := db.world;
      out := evm(msg, db.world, gas);
      gas, db.world := out.gas, out.world;
    }

    /** Refunds the sender and pays the coinbase for the gas used: between them, for all the gas bought. */
    method Settle() returns (used: uint64)
      requires gas <= initialGas == msg.gas && gp.gas + msg.gas <= MAX_UINT64
      modifies this, gp, db
      ensures used == (msg.gas - old(gas)) - RefundOf(msg.gas - old(gas), old(db.world.refund)) <= msg.gas
      ensures db.world.nonces == old(db.world.nonces) && db.world.refund == old(db.world.refund)
      ensures gp.gas == old(gp.gas) + msg.gas - used
      ensures Total(db.world.balances) == Total(old(db.world.balances)) + Fee(msg.gas, msg.price)
      ensures Paid(old(db.world.balances), db.world.balances, msg, coinbase, used)
    {
      hide Total, Fee;
      RefundGas();
      used := initialGas - gas;
      TotalCredit(db.world.balances, coinbase, Fee(used, msg.price));
      db.AddBalance(coinbase, Fee(used, msg.price));
      Shares(msg.gas, gas, used, msg.price);
    }

    /** Applies the message.  On success the pool has lost exactly the gas used, at most half of the gas spent
        has been refunded, and the balances have changed in sum only by what execution did. */
    method TransitionDb() returns (used: uint64, failed: bool, err: Option<Error>, ghost mid: World, ghost out: Outcome)
      requires gas == 0 && Frugal(evm)
      modifies this, gp, db
      ensures err == match PreError(msg, old(db.world), old(gp.gas))
                     case Some(e) => Some(e)
                     case None => if IntrinsicOf(msg, homestead) > msg.gas then Some(OutOfGas)
                                  else if out.insufficient then Some(InsufficientBalance) else None
      ensures err != None ==> Refused(Context(evm, coinbase, homestead), msg, old(gp.gas), old(db.world), err.value)
      ensures err == None ==>
                && Applies(Context(evm, coinbase, homestead), msg, old(gp.gas),
                           Step(old(db.world), mid, out, db.world, used))
                && failed == out.failed && gp.gas == old(gp.gas) - used
    {
      hide Total, PreError, Frugal, Debited, Paid, RefundOf, Fee;
      used, failed, mid, out := 0, false, db.world, Outcome(db.world, 0, false, false);
      err := PreCheck();
      if err != None {
        return;
      }
      ghost var bought := db.world.balances;
      var intrinsic := Intrinsic.IntrinsicGas(msg.data, msg.to == None, homestead);
      if intrinsic == None {
        err := Some(OutOfGas);
        return;
      }
      var enough := UseGas(intrinsic.value);
      if !enough {
        err := Some(OutOfGas);
        return;
      }
      var o, m := Execute();
      mid, out, failed := m, o, o.failed;
      DebitedStill(old(db.world.balances), bought, mid.balances, msg.from, Fee(msg.gas, msg.price));
      assert Executes(Context(evm, coinbase, homestead), msg, old(db.world), mid, out);
      if o.insufficient {
        failed, err := false, Some(InsufficientBalance);
        return;
      }
      used := Settle();
    }
  }

  /** `after` is `before` with the sender paid for the gas left and the coinbase for the gas used. */
  ghost predicate Paid(before: Balances, after: Balances, msg: Message, coinbase: Address, used: nat)
    requires used <= msg.gas
  {
    forall x :: Balance(after, x) == Balance(before, x) + (if x == msg.from then Fee(msg.gas - used, msg.price) else 0)
                                     + (if x == coinbase then Fee(used, msg.price) else 0)
  }

  lemma DebitedStill(a: Balances, b: Balances, c: Balances, who: Address, amount: nat)
    requires Debited(a, b, who, amount) && Debited(b, c, who, 0)
    ensures Debited(a, c, who, amount)
  {}

  // ---------- a whole block ----------

  datatype Receipt = Receipt(cumulative: nat, gasUsed: nat, failed: bool)

  function GasOf(receipts: seq<Receipt>): nat {
    if receipts == [] then 0 else GasOf(receipts[..|receipts| - 1]) + receipts[|receipts| - 1].gasUsed
  }

  /** Every receipt's cumulative figure is the gas of the receipts up to it. */
  ghost predicate Cumulative(receipts: seq<Receipt>) {
    forall i | 0 <= i < |receipts| :: receipts[i].cumulative == GasOf(receipts[..i + 1])
  }

  lemma OneReceipt(receipts: seq<Receipt>, r: Receipt)
    requires Cumulative(receipts) && r.cumulative == GasOf(receipts) + r.gasUsed
    ensures Cumulative(receipts + [r]) && GasOf(receipts + [r]) == r.cumulative
  {
    var rs := receipts + [r];
    assert rs[..|receipts|] == receipts && rs[..|rs|] == rs;
    forall i | 0 <= i < |rs| ensures rs[i].cumulative == GasOf(rs[..i + 1]) {
      if i < |receipts| {
        assert rs[..i + 1] == receipts[..i + 1];
      }
    }
  }

  /** The gas used by applied messages, and what their executions added to the balances in sum. */
  ghost function SpentBy(steps: seq<Step>): nat {
    if steps == [] then 0 else SpentBy(steps[..|steps| - 1]) + steps[|steps| - 1].used
  }

  ghost function MintedBy(steps: seq<Step>): int {
    if steps == [] then 0
    else
      var s := steps[|steps| - 1];
      MintedBy(steps[..|steps| - 1]) + Total(s.out.world.balances) - Total(s.mid.balances)
  }

  /** The world between messages: the refund counter starts anew. */
  function Finalised(w: World): World {
    w.(refund := 0)
  }

  ghost function WorldAfter(w: World, steps: seq<Step>): World {
    if steps == [] then w else Finalised(steps[|steps| - 1].after)
  }

  /** The messages were applied one after the other, each to the world and the pool the ones before it left. */
  ghost predicate Ran(c: Context, txs: seq<Option<Message>>, limit: nat, w: World, steps: seq<Step>) {
    |steps| <= |txs| && forall i | 0 <= i < |steps| :: Follows(c, txs[i], limit, w, steps[..i], steps[i])
  }

  ghost predicate Follows(c: Context, tx: Option<Message>, limit: nat, w: World, done: seq<Step>, s: Step) {
    && tx.Some? && SpentBy(done) <= limit && s.before == WorldAfter(w, done)
    && Applies(c, tx.value, limit - SpentBy(done), s)
  }

  /** The receipts tell the gas used and the failures of the executions. */
  ghost predicate Records(receipts: seq<Receipt>, steps: seq<Step>) {
    |receipts| == |steps| && forall i | 0 <= i < |steps| ::
      receipts[i].gasUsed == steps[i].used && receipts[i].failed == steps[i].out.failed
  }

  lemma NothingRan(c: Context, txs: seq<Option<Message>>, limit: nat, w: World)
    ensures Ran(c, txs, limit, w, []) && Records([], []) && SpentBy([]) == 0 && MintedBy([]) == 0
  {}

  lemma OneRan(c: Context, txs: seq<Option<Message>>, limit: nat, w: World, steps: seq<Step>, s: Step)
    requires Ran(c, txs, limit, w, steps) && |steps| < |txs| && Follows(c, txs[|steps|], limit, w, steps, s)
    ensures Ran(c, txs, limit, w, steps + [s])
    ensures SpentBy(steps + [s]) == SpentBy(steps) + s.used && WorldAfter(w, steps + [s]) == Finalised(s.after)
    ensures MintedBy(steps + [s]) == MintedBy(steps) + Total(s.after.balances) - Total(s.before.balances)
  {
    hide *;
    OneMore(c, txs, limit, w, steps, s);
    OneStep(w, steps, s);
    OneMinted(steps, s);
    Conserved(c, txs[|steps|], limit, w, steps, s);
  }

  lemma OneMore(c: Context, txs: seq<Option<Message>>, limit: nat, w: World, steps: seq<Step>, s: Step)
    requires Ran(c, txs, limit, w, steps) && |steps| < |txs| && Follows(c, txs[|steps|], limit, w, steps, s)
    ensures Ran(c, txs, limit, w, steps + [s])
  {
    hide Follows;
    var all := steps + [s];
    forall i | 0 <= i < |all|
      ensures Follows(c, txs[i], limit, w, all[..i], all[i])
    {
      if i < |steps| {
        assert all[..i] == steps[..i];
      } else {
        assert all[..i] == steps;
      }
    }
  }

  lemma OneStep(w: World, steps: seq<Step>, s: Step)
    ensures SpentBy(steps + [s]) == SpentBy(steps) + s.used && WorldAfter(w, steps + [s]) == Finalised(s.after)
  {
    hide Finalised;
    assert (steps + [s])[..|steps|] == steps;
  }

  lemma OneMinted(steps: seq<Step>, s: Step)
    ensures MintedBy(steps + [s]) == MintedBy(steps) + Total(s.out.world.balances) - Total(s.mid.balances)
  {
    hide Total;
    assert (steps + [s])[..|steps|] == steps;
  }

  lemma Conserved(c: Context, tx: Option<Message>, limit: nat, w: World, done: seq<Step>, s: Step)
    requires Follows(c, tx, limit, w, done, s)
    ensures Total(s.after.balances) - Total(s.before.balances) == Total(s.out.world.balances) - Total(s.mid.balances)
    ensures SpentBy(done) + s.used <= limit
  {
    hide Total, SpentBy, WorldAfter, Executes, Paid;
  }

  lemma OneRecord(receipts: seq<Receipt>, steps: seq<Step>, r: Receipt, s: Step)
    requires Records(receipts, steps) && r.gasUsed == s.used && r.failed == s.out.failed
    ensures Records(receipts + [r], steps + [s])
  {}

  /** Processes a block's transactions.  On success every message was applied in turn, the receipts record the
      executions, the gas used is what the pool has lost, and the balances have changed in sum by what the
      executions did.  Otherwise the first message that cannot be derived or applied says why. */
  method Process(txs: seq<Option<Message>>, limit: uint64, db: StateDB, evm: Evm, coinbase: Address, homestead: bool)
    returns (receipts: seq<Receipt>, used: uint64, err: Option<Error>, ghost steps: seq<Step>, ghost left: nat)
    requires Frugal(evm)
    modifies db
    ensures Ran(Context(evm, coinbase, homestead), txs, limit, old(db.world), steps)
    ensures SpentBy(steps) + left == limit
    ensures err == None ==>
              && |steps| == |txs| && Records(receipts, steps) && Cumulative(receipts)
              && used == GasOf(receipts) == SpentBy(steps) && db.world == WorldAfter(old(db.world), steps)
              && Total(db.world.balances) == Total(old(db.world.balances)) + MintedBy(steps)
    ensures err != None ==>
              && receipts == [] && used == 0 && |steps| < |txs|
              && (match txs[|steps|]
                  case None => err.value == BadSender
                  case Some(msg) =>
                    Refused(Context(evm, coinbase, homestead), msg, left, WorldAfter(old(db.world), steps), err.value))
  {
    hide Total, Frugal, Cumulative, Applies, Ran, Records, SpentBy, MintedBy, WorldAfter, PreError, GasOf, IntrinsicOf;
    ghost var c, w := Context(evm, coinbase, homestead), db.world;
    var gp := new GasPool();
    var panics := gp.AddGas(limit);
    receipts, used, err, steps, left := [], 0, None, [], limit;
    NoReceipts();
    NothingRan(c, txs, limit, w);
    WorldAtStart(w);
    for i := 0 to |txs|
      invariant fresh(gp) && gp.gas == left && |steps| == i && err == None
      invariant Ran(c, txs, limit, w, steps) && SpentBy(steps) + left == limit && db.world == WorldAfter(w, steps)
      invariant Records(receipts, steps) && Cumulative(receipts) && used == GasOf(receipts) == SpentBy(steps)
      invariant Total(db.world.balances) == Total(w.balances) + MintedBy(steps)
    {
      if txs[i] == None {
        err, receipts, used := Some(BadSender), [], 0;
        return;
      }
      var st := new StateTransition(gp, db, evm, txs[i].value, coinbase, homestead);
      ghost var before := db.world;
      var gas, failed, e, mid, out := st.TransitionDb();
      if e != None {
        err, receipts, used := e, [], 0;
        return;
      }
      ghost var s := Step(before, mid, out, db.world, gas);
      OneRan(c, txs, limit, w, steps, s);
      Conserved(c, txs[i], limit, w, steps, s);
      OneReceipt(receipts, Receipt(used + gas, gas, failed));
      OneRecord(receipts, steps, Receipt(used + gas, gas, failed), s);
      db.world := Finalised(db.world);
      used := used + gas;
      receipts := receipts + [Receipt(used, gas, failed)];
      steps, left := steps + [s], gp.gas;
    }
  }

  lemma WorldAtStart(w: World)
    ensures WorldAfter(w, []) == w
  {}

  lemma NoReceipts()
    ensures Cumulative([]) && GasOf([]) == 0
  {}

  /** A receipt's gas from the cumulative figures, in 64-bit arithmetic. */
  function GasFrom(receipts: seq<Receipt>, j: nat): nat
    requires j < |receipts|
  {
    if j == 0 then receipts[j].cumulative
    else Difference(receipts[j].cumulative, receipts[j - 1].cumulative)
  }

  /** Fills in every receipt's gas from the cumulative figures. */
  method SetReceiptsData(transactions: nat, receipts: array<Receipt>) returns (ok: bool)
    modifies receipts
    ensures ok <==> transactions == receipts.Length
    ensures !ok ==> receipts[..] == old(receipts[..])
    ensures ok ==> forall j | 0 <= j < receipts.Length ::
                     receipts[j] == old(receipts[j]).(gasUsed := GasFrom(old(receipts[..]), j))
  {
    if transactions != receipts.Length {
      return false;
    }
    ghost var s := receipts[..];
    var j := 0;
    while j < receipts.Length
      invariant 0 <= j <= receipts.Length
      invariant forall k | j <= k < receipts.Length :: receipts[k] == s[k]
      invariant forall k | 0 <= k < j :: receipts[k] == s[k].(gasUsed := GasFrom(s, k))
    {
      var gas := if j == 0 then receipts[j].cumulative else Difference(receipts[j].cumulative,
          receipts[j - 1].cumulative);
      assert gas == GasFrom(s, j);
      receipts[j] := receipts[j].(gasUsed := gas);
      j := j + 1;
    }
    ok := true;
  }

  function Difference(a: nat, b: nat): nat {
    (a - b) % (MAX_UINT64 + 1)
  }

  lemma NoWrap(a: nat, b: nat)
    requires b <= a <= MAX_UINT64
    ensures Difference(a, b) == a - b
  {}

  lemma GasStep(receipts: seq<Receipt>, j: nat)
    requires j < |receipts|
    ensures GasOf(receipts[..j + 1]) == GasOf(receipts[..j]) + receipts[j].gasUsed
  {
    assert receipts[..j + 1][..j] == receipts[..j];
  }

  /** The gas figures of a block's receipts are recovered from their cumulative figures. */
  lemma GasRecovered(receipts: seq<Receipt>, j: nat)
    requires Cumulative(receipts) && j < |receipts| && receipts[j].cumulative <= MAX_UINT64
    ensures GasFrom(receipts, j) == receipts[j].gasUsed
  {
    hide GasOf, Difference;
    GasStep(receipts, j);
    if j == 0 {
      NoReceipts();
      assert receipts[..0] == [];
    } else {
      assert receipts[j - 1].cumulative == GasOf(receipts[..j - 1 + 1]);
      NoWrap(receipts[j].cumulative, receipts[j - 1].cumulative);
    }
  }

  lemma Shares(all: nat, left: nat, used: nat, price: nat)
    requires all == left + used
    ensures Fee(left, price) + Fee(used, price) == Fee(all, price)
  {}
}
