/** The pool's price heap.  Transactions that leave the pool are not taken out of the heap but
    counted as stale; the heap may also hold a transaction more than once. */
module PricedLists {
  import opened Transactions
  import opened BinaryHeap

  function Price(tx: Tx): int {
    tx.price
  }

  predicate IsLocal(tx: Tx, locals: set<Address>) {
    tx.sender.Some? && tx.sender.value in locals
  }

  class PricedList {
    var items: seq<Tx>
    var stales: int

    ghost predicate Valid()
      reads this
    {
      IsHeap(items, Price)
    }

    /** Every live transaction is in the heap. */
    ghost predicate Covers(all: set<Tx>)
      reads this
    {
      forall tx | tx in all :: tx in items
    }

    constructor ()
      ensures Valid() && items == []
    {
      items, stales := [], 0;
    }

    method Put(tx: Tx)
      requires Valid()
      modifies this`items
      ensures Valid() && forall x :: x in items <==> x == tx || x in old(items)
    {
      hide HeapFrom;
      ghost var was := items;
      items := Push(items, tx, Price);
      forall x ensures x in items <==> x == tx || x in was {
        assert x in items <==> x in multiset(items);
        assert x in was <==> x in multiset(was);
      }
    }

    /** Pops the root, a cheapest entry. */
    method PopCheapest() returns (tx: Tx)
      requires Valid() && |items| > 0
      modifies this`items
      ensures Valid() && |items| < old(|items|)
      ensures tx == old(items)[0] && forall x | x in old(items) :: tx.price <= x.price
      ensures forall x | x in items :: x in old(items)
      ensures forall x | x in old(items) :: x == tx || x in items
      ensures multiset(old(items)) == multiset(items) + multiset{tx}
    {
      hide HeapFrom;
      RootIsMinOfAll(items, Price);
      assert forall x | x in items :: Price(items[0]) <= Price(x);
      ghost var was := items;
      tx, items := Pop(items, Price);
      PoppedOne(was, items, tx);
    }

    /** Counts a stale entry; past a quarter of the heap, rebuilds it from the live transactions, each once. */
    method Removed(all: set<Tx>)
      requires Valid()
      modifies this
      ensures Valid()
      ensures if old(stales) + 1 <= |old(items)| / 4 then items == old(items) && stales == old(stales) + 1
              else multiset(items) == multiset(all) && stales == 0
      ensures items == old(items) || forall x :: x in items <==> x in all
    {
      hide HeapFrom;
      stales := stales + 1;
      if stales <= |items| / 4 {
        return;
      }
      var reheap := [];
      var left := all;
      while left != {}
        invariant left <= all && multiset(reheap) == multiset(all - left)
      {
        var tx :| tx in left;
        assert all - (left - {tx}) == all - left + {tx};
        reheap, left := reheap + [tx], left - {tx};
      }
      assert all - left == all;
      stales := 0;
      items := Init(reheap, Price);
      forall x ensures x in items <==> x in all {
        assert x in items <==> x in multiset(items);
      }
    }

    /** Takes out exactly the live remote transactions priced below the threshold; everything else
        that is live stays. */
    method Cap(threshold: nat, all: set<Tx>, locals: set<Address>) returns (drop: seq<Tx>)
      requires Valid() && Covers(all)
      modifies this
      ensures Valid()
      ensures forall tx :: tx in drop <==> tx in all && tx.price < threshold && !IsLocal(tx, locals)
      ensures Covers(set tx | tx in all && tx !in drop)
    {
      hide HeapFrom;
      drop := [];
      var save := [];
      var done := false;
      while |items| > 0 && !done
        invariant Valid()
        invariant forall tx | tx in all :: tx in items || tx in drop || tx in save
        invariant forall tx | tx in drop :: tx in all && tx.price < threshold && !IsLocal(tx, locals)
        invariant forall tx | tx in save :: tx.price >= threshold || IsLocal(tx, locals)
        invariant done ==> forall tx | tx in items :: tx.price >= threshold
        decreases |items|
      {
        var tx := PopCheapest();
        if tx !in all {
          stales := stales - 1;
        } else if tx.price >= threshold {
          save := save + [tx];
          done := true;
        } else if IsLocal(tx, locals) {
          save := save + [tx];
        } else {
          drop := drop + [tx];
        }
      }
      PutBack(save);
    }

    /** Whether a remote transaction is no better than the cheapest live one.  In an empty pool nothing
        is underpriced. */
    method Underpriced(tx: Tx, all: set<Tx>, locals: set<Address>) returns (r: bool)
      requires Valid() && Covers(all)
      modifies this
      ensures Valid() && Covers(all)
      ensures r <==> !IsLocal(tx, locals) && all != {} && forall x | x in all :: x.price >= tx.price
    {
      hide HeapFrom;
      if IsLocal(tx, locals) {
        return false;
      }
      while |items| > 0 && items[0] !in all
        invariant Valid() && Covers(all)
        decreases |items|
      {
        stales := stales - 1;
        var stale := PopCheapest();
      }
      if |items| == 0 {
        assert all == {};
        return false;
      }
      RootIsMinOfAll(items, Price);
      assert forall x | x in all :: Price(items[0]) <= Price(x);
      r := items[0].price >= tx.price;
    }

    /** Takes out the cheapest live remote transactions: up to `count`, or all there are; everything
        else that is live stays. */
    method Discard(count: int, all: set<Tx>, locals: set<Address>) returns (drop: seq<Tx>)
      requires Valid() && Covers(all)
      modifies this
      ensures Valid()
      ensures forall tx | tx in drop :: tx in all && !IsLocal(tx, locals)
      ensures forall d, tx | d in drop && tx in all && tx !in drop && !IsLocal(tx, locals) :: d.price <= tx.price
      ensures |drop| <= if count > 0 then count else 0
      ensures |drop| < count ==> forall tx | tx in all && !IsLocal(tx, locals) :: tx in drop
      ensures multiset(drop) <= multiset(old(items))
      ensures |drop| < count ==>
                forall tx | tx in all && !IsLocal(tx, locals) :: multiset(drop)[tx] == multiset(old(items))[tx]
      ensures Covers(set tx | tx in all && tx !in drop)
    {
      hide HeapFrom;
      drop := [];
      var save := [];
      var todo := count;
      while |items| > 0 && todo > 0
        invariant Valid() && |drop| + todo == count
        invariant if count > 0 then todo >= 0 else drop == []
        invariant forall tx | tx in all :: tx in items || tx in drop || tx in save
        invariant forall tx | tx in drop :: tx in all && !IsLocal(tx, locals)
        invariant forall tx | tx in save :: IsLocal(tx, locals)
        invariant forall d, x | d in drop && x in items :: d.price <= x.price
        invariant forall tx | tx in all ::
                    multiset(items)[tx] + multiset(drop)[tx] + multiset(save)[tx] == multiset(old(items))[tx]
        decreases |items|
      {
        var tx := PopCheapest();
        if tx !in all {
          stales := stales - 1;
        } else if IsLocal(tx, locals) {
          save := save + [tx];
        } else {
          drop := drop + [tx];
          todo := todo - 1;
        }
      }
      DroppedOnce(drop, all, old(items));
      PutBack(save);
    }

    method PutBack(save: seq<Tx>)
      requires Valid()
      modifies this`items
      ensures Valid() && forall x :: x in items <==> x in save || x in old(items)
    {
      for i := 0 to |save|
        invariant Valid() && forall x :: x in items <==> x in save[..i] || x in old(items)
      {
        Put(save[i]);
        assert save[..i + 1] == save[..i] + [save[i]];
      }
      assert save[..|save|] == save;
    }
  }

  lemma DroppedOnce(drop: seq<Tx>, all: set<Tx>, items: seq<Tx>)
    requires forall tx | tx in drop :: tx in all
    requires forall tx | tx in all :: multiset(drop)[tx] <= multiset(items)[tx]
    ensures multiset(drop) <= multiset(items)
  {
    forall tx ensures multiset(drop)[tx] <= multiset(items)[tx] {
      assert tx in multiset(drop) ==> tx in drop;
    }
  }

  /** Where the heap holds no live transaction twice, no two that are dropped are the same. */
  lemma AllDifferent(drop: seq<Tx>, items: seq<Tx>)
    requires multiset(drop) <= multiset(items) && forall tx | tx in drop :: multiset(items)[tx] <= 1
    ensures forall i, j | 0 <= i < j < |drop| :: drop[i] != drop[j]
  {
    forall i, j | 0 <= i < j < |drop| ensures drop[i] != drop[j] {
      if drop[i] == drop[j] {
        Twice(drop, i, j);
      }
    }
  }

  lemma Twice(s: seq<Tx>, i: nat, j: nat)
    requires i < j < |s| && s[i] == s[j]
    ensures multiset(s)[s[i]] >= 2
  {
    assert s == s[..i] + [s[i]] + s[i + 1..j] + [s[i]] + s[j + 1..];
  }

  lemma PoppedOne(was: seq<Tx>, rest: seq<Tx>, tx: Tx)
    requires multiset(was) == multiset(rest) + multiset{tx}
    ensures |rest| < |was| && tx in was
    ensures forall x | x in rest :: x in was
    ensures forall x | x in was :: x == tx || x in rest
  {
    assert |multiset(was)| == |multiset(rest)| + 1;
    assert tx in multiset(was);
    forall x | x in rest ensures x in was {
      assert x in multiset(was);
    }
    forall x | x in was ensures x == tx || x in rest {
      assert x in multiset(was);
      assert x == tx || x in multiset(rest);
    }
  }
}
