/** The transaction list of an account as a value: what each list operation does to the nonce map
    and to the cost and gas caps.  `TxLists.TxList` computes these functions; the pool holds such
    values. */
module ListModel {
  import opened Transactions
  import opened Nonces

  datatype List = List(strict: bool, items: Items, costcap: int, gascap: nat)

  function NewList(strict: bool): List {
    List(strict, map[], 0, 0)
  }

  /** The caps bound every member, and members sit under their own nonces. */
  ghost predicate Bounded(l: List) {
    && WellKeyed(l.items)
    && forall n | n in l.items :: l.items[n].Cost() <= l.costcap && l.items[n].gas <= l.gascap
  }

  /** `m` holds exactly the nonces from `lo` up to `hi`. */
  ghost predicate GapFree(m: Items, lo: nat, hi: nat) {
    lo <= hi && forall n :: n in m <==> lo <= n < hi
  }

  /** The replacement rule: a strictly higher price, by at least `bump` percent. */
  predicate Outbids(tx: Tx, prev: Tx, bump: nat) {
    prev.price < tx.price && prev.price * (100 + bump) / 100 <= tx.price
  }

  datatype Added = Added(list: List, inserted: bool, replaced: Option<Tx>)

  function Add(l: List, tx: Tx, bump: nat): Added {
    if tx.nonce in l.items && !Outbids(tx, l.items[tx.nonce], bump) then Added(l, false, None)
    else
      Added(l.(items := l.items[tx.nonce := tx],
               costcap := if l.costcap < tx.Cost() then tx.Cost() else l.costcap,
               gascap := if l.gascap < tx.gas then tx.gas else l.gascap),
            true, if tx.nonce in l.items then Some(l.items[tx.nonce]) else None)
  }

  function Exceeds(cost: int, gas: nat): Tx -> bool {
    (tx: Tx) => tx.Cost() > cost || tx.gas > gas
  }

  function Beyond(nonce: nat): Tx -> bool {
    (tx: Tx) => tx.nonce > nonce
  }

  datatype Filtered = Filtered(list: List, removed: Items, invalids: Items)

  /** With the short circuit on the caps. */
  function Filter(l: List, cost: int, gas: nat): Filtered {
    if l.costcap <= cost && l.gascap <= gas then Filtered(l, map[], map[])
    else
      var scan := Scan(l, cost, gas);
      scan.(list := scan.list.(costcap := cost, gascap := gas))
  }

  /** What a scan of the whole list removes; in strict mode everything beyond the lowest removed
      nonce goes too. */
  function Scan(l: List, cost: int, gas: nat): Filtered {
    var removed := Dropped(l.items, Exceeds(cost, gas));
    var kept := Kept(l.items, Exceeds(cost, gas));
    if l.strict && removed.Keys != {} then
      var lowest := Min(removed.Keys);
      Filtered(l.(items := Kept(kept, Beyond(lowest))), removed, Dropped(kept, Beyond(lowest)))
    else Filtered(l.(items := kept), removed, map[])
  }

  datatype Removed = Removed(list: List, found: bool, invalids: Items)

  function Remove(l: List, nonce: nat): Removed {
    if nonce !in l.items then Removed(l, false, map[])
    else
      var kept := l.items - {nonce};
      if l.strict then Removed(l.(items := Kept(kept, Beyond(nonce))), true, Dropped(kept, Beyond(nonce)))
      else Removed(l.(items := kept), true, map[])
  }

  function Forward(l: List, threshold: nat): List {
    l.(items := AtLeast(l.items, threshold))
  }

  /** The nonce at which the run taken by `Ready` ends; nothing is taken when it is the lowest one. */
  function ReadyEnd(l: List, start: nat): nat {
    if l.items.Keys == {} || Min(l.items.Keys) > start then 0
    else RunEnd(l.items.Keys, Min(l.items.Keys))
  }

  // ---- the caps stay bounds, and make the short circuit exact ----

  lemma AddBounded(l: List, tx: Tx, bump: nat)
    requires Bounded(l)
    ensures Bounded(Add(l, tx, bump).list)
  {}

  /** The short circuit returns what a full scan would, and the lowered caps are bounds again. */
  lemma FilterIsScan(l: List, cost: int, gas: nat)
    requires Bounded(l)
    ensures var f, s := Filter(l, cost, gas), Scan(l, cost, gas);
            && f.removed == s.removed && f.invalids == s.invalids && f.list.items == s.list.items
            && Bounded(f.list)
            && forall n | n in f.list.items :: !Exceeds(cost, gas)(f.list.items[n])
  {
    if l.costcap <= cost && l.gascap <= gas {
      var removed := Dropped(l.items, Exceeds(cost, gas));
      assert removed.Keys == {};
      assert Kept(l.items, Exceeds(cost, gas)) == l.items;
    }
  }

  lemma ShrinkBounded(l: List, items: Items)
    requires Bounded(l) && items.Keys <= l.items.Keys && forall n | n in items :: items[n] == l.items[n]
    ensures Bounded(l.(items := items))
  {}

  lemma RemoveBounded(l: List, nonce: nat)
    requires Bounded(l)
    ensures Bounded(Remove(l, nonce).list)
  {}

  // ---- removed, invalid and kept transactions partition the old list ----

  /** `a`, `b` and `c` are disjoint and make up `m`. */
  ghost predicate Split3(m: Items, a: Items, b: Items, c: Items) {
    && a.Keys !! b.Keys && a.Keys !! c.Keys && b.Keys !! c.Keys
    && m == a + b + c
  }

  lemma ScanSplits(l: List, cost: int, gas: nat)
    ensures var f := Scan(l, cost, gas); Split3(l.items, f.list.items, f.removed, f.invalids)
  {}

  lemma RemoveSplits(l: List, nonce: nat)
    requires nonce in l.items
    ensures var r := Remove(l, nonce); Split3(l.items, r.list.items, map[nonce := l.items[nonce]], r.invalids)
  {
    var r := Remove(l, nonce);
    assert r.list.items + map[nonce := l.items[nonce]] + r.invalids == l.items;
  }

  /** In a strict list a removal cuts at the removed nonce. */
  lemma RemoveCuts(l: List, nonce: nat)
    requires l.strict && WellKeyed(l.items) && nonce in l.items
    ensures Remove(l, nonce).list.items == Below(l.items, nonce)
    ensures Remove(l, nonce).invalids == AtLeast(l.items, nonce + 1)
  {}

  // ---- strict lists keep their nonces consecutive ----

  /** A strict scan cuts a consecutive list at the first transaction that exceeds the limits. */
  lemma ScanGapFree(l: List, cost: int, gas: nat, lo: nat, hi: nat) returns (cut: nat)
    requires l.strict && WellKeyed(l.items) && GapFree(l.items, lo, hi)
    ensures var f := Scan(l, cost, gas);
            && GapFree(f.list.items, lo, cut) && cut <= hi
            && (forall n | n in f.invalids :: cut < n < hi)
            && (cut < hi ==> cut in f.removed)
  {
    var f := Scan(l, cost, gas);
    if f.removed.Keys == {} {
      cut := hi;
      assert forall n | n in l.items :: n !in f.removed.Keys;
      assert f.list.items == l.items;
    } else {
      cut := Min(f.removed.Keys);
      forall n ensures n in f.list.items <==> lo <= n < cut {
        if lo <= n < cut {
          assert n in l.items && n !in f.removed.Keys;
        }
      }
    }
  }

  lemma RemoveGapFree(l: List, nonce: nat, lo: nat, hi: nat)
    requires l.strict && WellKeyed(l.items) && GapFree(l.items, lo, hi) && nonce in l.items
    ensures GapFree(Remove(l, nonce).list.items, lo, nonce)
    ensures forall n | n in Remove(l, nonce).invalids :: nonce < n < hi
  {}

  lemma ForwardGapFree(m: Items, lo: nat, hi: nat, t: nat)
    requires GapFree(m, lo, hi) && lo <= t <= hi
    ensures GapFree(AtLeast(m, t), t, hi)
  {}

  lemma LowestGapFree(m: Items, r: Items, lo: nat, hi: nat, k: nat)
    requires GapFree(m, lo, hi) && IsLowest(r, m, k)
    ensures |r| <= hi - lo && GapFree(r, lo, lo + |r|)
  {
    GapFreeSize(m, lo, hi);
    var top := RunEnd(r.Keys, lo);
    assert hi !in r.Keys;
    assert top <= hi;
    forall n | n in r ensures n < top {
      assert top < hi ==> top in m && top !in r;
    }
    assert GapFree(r, lo, top);
    GapFreeSize(r, lo, top);
  }

  lemma {:induction false} GapFreeSize(m: Items, lo: nat, hi: nat)
    requires GapFree(m, lo, hi)
    ensures |m| == hi - lo
    decreases hi - lo
  {
    if lo == hi {
      assert m.Keys == {};
    } else {
      var rest := m - {hi - 1};
      assert m.Keys == rest.Keys + {hi - 1};
      GapFreeSize(rest, lo, hi - 1);
    }
  }
}
