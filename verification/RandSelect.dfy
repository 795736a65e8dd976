/** Weighted random selection: a tree of eight-way nodes that keeps, at every node, the sum of the weights
    below each branch. */
module RandSelect {
  import opened Transactions

  const BRANCHES: nat := 8

  type Item = nat

  datatype Slot = Empty | Leaf(item: Item) | Sub(node: Node)

  datatype Node = Node(level: nat, maxItems: nat, itemCnt: nat, sumWeight: nat, weights: seq<nat>, items: seq<Slot>)

  function Pow8(n: nat): (r: nat)
    ensures r >= 1
  {
    if n == 0 then 1 else 8 * Pow8(n - 1)
  }

  function Sum(s: seq<nat>): nat {
    if s == [] then 0 else Sum(s[..|s| - 1]) + s[|s| - 1]
  }

  /** How many items a slot holds. */
  function Held(s: Slot): nat {
    match s
    case Empty => 0
    case Leaf(_) => 1
    case Sub(m) => m.itemCnt
  }

  function Holdings(items: seq<Slot>): seq<nat> {
    seq(|items|, i requires 0 <= i < |items| => Held(items[i]))
  }

  /** A slot, with the weight recorded for it, in a node of a level. */
  ghost predicate SlotOk(level: nat, s: Slot, weight: nat)
    decreases level, 0
  {
    match s
    case Empty => weight == 0
    case Leaf(_) => level == 0 && weight > 0
    case Sub(m) => level > 0 && m.level == level - 1 && Ok(m) && weight == m.sumWeight
  }

  /** Sums and counts are those of what lies below. */
  ghost predicate Ok(n: Node)
    decreases n.level, 1
  {
    && n.maxItems == Pow8(n.level + 1) && |n.weights| == |n.items| == BRANCHES
    && (forall b | 0 <= b < BRANCHES :: SlotOk(n.level, n.items[b], n.weights[b]))
    && n.sumWeight == Sum(n.weights) && n.itemCnt == Sum(Holdings(n.items))
  }

  // ---------- indices ----------

  /** The branch of a node of a level that an index leads to, the index below it, and back. */
  function BranchOf(level: nat, i: nat): nat {
    Quotient(i, Pow8(level))
  }

  function Quotient(i: nat, p: nat): nat
    requires p > 0
  {
    i / p
  }

  function RestOf(level: nat, i: nat): int {
    i - BranchOf(level, i) * Pow8(level)
  }

  function Index(level: nat, b: nat, r: nat): nat {
    Pow8(level) * b + r
  }

  lemma Split(level: nat, i: nat)
    requires i < Pow8(level + 1)
    ensures BranchOf(level, i) < BRANCHES && 0 <= RestOf(level, i) < Pow8(level)
    ensures Index(level, BranchOf(level, i), RestOf(level, i)) == i
  {
    var p := Pow8(level);
    assert Pow8(level + 1) == 8 * p;
    Divide(p, i);
  }

  lemma Divide(p: nat, i: nat)
    requires p > 0 && i < 8 * p
    ensures i / p < 8 && (i / p) * p <= i < (i / p) * p + p && p * (i / p) + (i - (i / p) * p) == i
  {}

  lemma Small(d: int, p: int)
    requires p > 0 && d * p < p && 0 - p < d * p
    ensures d == 0
  {
    assert d >= 1 ==> d * p >= p;
    assert d <= -1 ==> d * p <= 0 - p;
  }

  lemma Join(level: nat, b: nat, r: nat)
    requires r < Pow8(level) && b < BRANCHES
    ensures var i := Index(level, b, r); i < Pow8(level + 1) && BranchOf(level, i) == b && RestOf(level, i) == r
  {
    JoinAt(Pow8(level), b, r);
  }

  lemma JoinAt(p: nat, b: nat, r: nat)
    requires r < p && b < 8
    ensures var i := p * b + r; i < 8 * p && i / p == b && i - b * p == r
  {
    var i := p * b + r;
    var q := i / p;
    assert q * p <= i < q * p + p;
    assert (q - b) * p == q * p - p * b;
    Small(q - b, p);
  }

  /** At the bottom a branch is an index. */
  lemma Bottom(i: nat)
    ensures BranchOf(0, i) == i && RestOf(0, i) == 0 && Pow8(1) == 8 && Pow8(0) == 1
  {}

  // ---------- what a node holds ----------

  /** The item and weight at an index of the node. */
  ghost function At(n: Node, i: nat): Option<(Item, nat)>
    requires Ok(n) && i < n.maxItems
    decreases n.level
  {
    Split(n.level, i);
    var b, r := BranchOf(n.level, i), RestOf(n.level, i);
    assert SlotOk(n.level, n.items[b], n.weights[b]);
    match n.items[b]
    case Empty => None
    case Leaf(item) => Some((item, n.weights[b]))
    case Sub(m) => At(m, r)
  }

  /** The weight before an index. */
  ghost function Start(n: Node, i: nat): nat
    requires Ok(n) && i < n.maxItems
    decreases n.level
  {
    Split(n.level, i);
    var b, r := BranchOf(n.level, i), RestOf(n.level, i);
    assert SlotOk(n.level, n.items[b], n.weights[b]);
    Sum(n.weights[..b]) + (if n.items[b].Sub? then Start(n.items[b].node, r) else 0)
  }

  // ---------- sums ----------

  lemma {:induction false} SumAt(s: seq<nat>, i: nat, v: nat)
    requires i < |s|
    ensures Sum(s[i := v]) == Sum(s) - s[i] + v && s[i] <= Sum(s)
  {
    var last := |s| - 1;
    if i < last {
      assert s[i := v][..last] == s[..last][i := v];
      SumAt(s[..last], i, v);
    } else {
      assert s[i := v][..last] == s[..last];
    }
  }

  lemma {:induction false} SumFull(s: seq<nat>, cap: nat)
    requires forall i | 0 <= i < |s| :: s[i] <= cap
    ensures Sum(s) <= |s| * cap
    ensures (forall i | 0 <= i < |s| :: s[i] == cap) ==> Sum(s) == |s| * cap
  {
    if s != [] {
      var n := |s| - 1;
      SumFull(s[..n], cap);
      assert |s| * cap == n * cap + cap;
    }
  }

  lemma {:induction false} SumPrefix(s: seq<nat>, a: nat, b: nat)
    requires a <= b <= |s|
    ensures Sum(s[..a]) <= Sum(s[..b]) && (a < b ==> Sum(s[..a]) + s[a] <= Sum(s[..b]))
    decreases b - a
  {
    if a < b {
      assert s[..b][..b - 1] == s[..b - 1];
      if a < b - 1 {
        SumPrefix(s, a, b - 1);
      }
    }
  }

  /** A node never holds more than it has room for. */
  lemma {:induction false} Bounded(n: Node)
    requires Ok(n)
    ensures n.itemCnt <= n.maxItems
    decreases n.level
  {
    var h := Holdings(n.items);
    forall b | 0 <= b < |h| ensures h[b] <= Pow8(n.level) {
      assert SlotOk(n.level, n.items[b], n.weights[b]);
      if n.items[b].Sub? {
        Bounded(n.items[b].node);
      }
    }
    SumFull(h, Pow8(n.level));
  }

  /** Every sum and weight in a tree is within a bound. */
  ghost predicate Within(n: Node, cap: nat)
    decreases n.level
  {
    && n.sumWeight <= cap && (forall b | 0 <= b < |n.weights| :: n.weights[b] <= cap)
    && forall b | 0 <= b < |n.items| && n.items[b].Sub? ::
         n.items[b].node.level < n.level && Within(n.items[b].node, cap)
  }

  /** No sum in a tree is greater than the total, so where that is representable all of them are. */
  lemma {:induction false} WithinTotal(n: Node, cap: nat)
    requires Ok(n) && n.sumWeight <= cap
    ensures Within(n, cap)
    decreases n.level
  {
    forall b | 0 <= b < BRANCHES
      ensures n.weights[b] <= cap
      ensures n.items[b].Sub? ==> n.items[b].node.level < n.level && Within(n.items[b].node, cap)
    {
      assert SlotOk(n.level, n.items[b], n.weights[b]);
      SumAt(n.weights, b, 0);
      if n.items[b].Sub? {
        WithinTotal(n.items[b].node, cap);
      }
    }
  }

  /** A slot that cannot take another item. */
  ghost predicate FullSlot(level: nat, s: Slot) {
    s != Empty && (level == 0 || (s.Sub? && s.node.itemCnt == s.node.maxItems))
  }

  /** A node with room has a slot with room. */
  lemma RoomBelow(n: Node)
    requires Ok(n) && forall b | 0 <= b < BRANCHES :: FullSlot(n.level, n.items[b])
    ensures n.itemCnt == n.maxItems
  {
    hide Sum;
    var h := Holdings(n.items);
    forall b | 0 <= b < |h| ensures h[b] == Pow8(n.level) {
      FullHolds(n, b);
    }
    SumFull(h, Pow8(n.level));
  }

  lemma FullHolds(n: Node, b: nat)
    requires Ok(n) && b < BRANCHES && FullSlot(n.level, n.items[b])
    ensures Held(n.items[b]) == Pow8(n.level)
  {
    hide Sum, Holdings;
    assert SlotOk(n.level, n.items[b], n.weights[b]);
  }

  // ---------- replacing what is below one branch ----------

  /** The node with one slot, its weight and the totals replaced. */
  function Replace(n: Node, b: nat, s: Slot, weight: nat, sumWeight: nat, itemCnt: nat): Node
    requires b < |n.weights| && b < |n.items|
  {
    n.(items := n.items[b := s], weights := n.weights[b := weight], sumWeight := sumWeight, itemCnt := itemCnt)
  }

  /** The result is right if the slot is and the totals move with it. */
  lemma ReplaceOk(n: Node, b: nat, s: Slot, weight: nat)
    requires Ok(n) && b < BRANCHES && SlotOk(n.level, s, weight)
    ensures n.weights[b] <= n.sumWeight && Held(n.items[b]) <= n.itemCnt
    ensures Ok(Replace(n, b, s, weight, n.sumWeight - n.weights[b] + weight, n.itemCnt - Held(n.items[b]) + Held(s)))
  {
    hide Sum, Pow8, Holdings;
    SumAt(n.weights, b, weight);
    HoldingsAt(n.items, b, s);
    SumAt(Holdings(n.items), b, Held(s));
  }

  lemma HoldingsAt(items: seq<Slot>, b: nat, s: Slot)
    requires b < |items|
    ensures |Holdings(items)| == |items| && Holdings(items)[b] == Held(items[b])
    ensures Holdings(items[b := s]) == Holdings(items)[b := Held(s)]
  {}

  /** What a slot holds at an index below it. */
  ghost function AtSlot(s: Slot, weight: nat, r: nat): Option<(Item, nat)> {
    match s
    case Empty => None
    case Leaf(item) => Some((item, weight))
    case Sub(m) => if Ok(m) && r < m.maxItems then At(m, r) else None
  }

  /** A node holds what its branches hold. */
  lemma AtBranch(n: Node, b: nat, r: nat)
    requires Ok(n) && b < BRANCHES && r < Pow8(n.level)
    ensures var i := Index(n.level, b, r); i < n.maxItems && At(n, i) == AtSlot(n.items[b], n.weights[b], r)
  {
    hide BranchOf, RestOf, Index, At, AtSlot;
    Join(n.level, b, r);
    AtUnfolded(n, Index(n.level, b, r), b, r);
  }

  lemma AtUnfolded(n: Node, i: nat, b: nat, r: nat)
    requires Ok(n) && i < n.maxItems && b == BranchOf(n.level, i) < BRANCHES && r == RestOf(n.level, i) < Pow8(n.level)
    ensures At(n, i) == AtSlot(n.items[b], n.weights[b], r)
  {
    hide BranchOf, RestOf, Index, Sum, Holdings;
    Below(n, b);
    match n.items[b]
    case Empty => assert At(n, i) == None;
    case Leaf(item) => assert At(n, i) == Some((item, n.weights[b]));
    case Sub(m) => assert At(n, i) == At(m, r);
  }

  lemma Below(n: Node, b: nat)
    requires Ok(n) && b < BRANCHES
    ensures SlotOk(n.level, n.items[b], n.weights[b])
    ensures n.items[b].Sub? ==> Ok(n.items[b].node) && n.items[b].node.maxItems == Pow8(n.level)
  {
    hide Sum, Holdings;
  }

  lemma Shape(n: Node)
    requires Ok(n)
    ensures n.maxItems == Pow8(n.level + 1) && |n.items| == |n.weights| == BRANCHES
  {}

  /** `n'` holds at `i` what is told and elsewhere what `n` holds. */
  ghost predicate Differs(n: Node, n': Node, i: nat, what: Option<(Item, nat)>) {
    && Ok(n) && Ok(n') && n'.level == n.level && i < n.maxItems && n'.maxItems == n.maxItems
    && At(n', i) == what
    && forall j: nat | j < n.maxItems && j != i :: At(n', j) == At(n, j)
  }

  /** A change below a branch is the same change of the node. */
  lemma Lifted(n: Node, n': Node, b: nat, s: Slot, weight: nat, r: nat, what: Option<(Item, nat)>)
    requires Ok(n) && Ok(n') && n'.level == n.level && b < BRANCHES && r < Pow8(n.level)
    requires n'.items == n.items[b := s] && n'.weights == n.weights[b := weight]
    requires AtSlot(s, weight, r) == what
    requires forall k: nat | k < Pow8(n.level) && k != r :: AtSlot(s, weight, k) == AtSlot(n.items[b], n.weights[b], k)
    ensures Differs(n, n', Index(n.level, b, r), what)
  {
    hide Ok, At, Pow8, BranchOf, RestOf, Index, AtSlot;
    Shape(n);
    Shape(n');
    AtBranch(n, b, r);
    AtBranch(n', b, r);
    forall j: nat | j < n.maxItems && j != Index(n.level, b, r) ensures At(n', j) == At(n, j) {
      Split(n.level, j);
      AtBranch(n, BranchOf(n.level, j), RestOf(n.level, j));
      AtBranch(n', BranchOf(n.level, j), RestOf(n.level, j));
    }
  }

  /** A change of a sub-node, as its slot shows it. */
  lemma SlotChanged(m: Node, m': Node, r: nat, what: Option<(Item, nat)>, w: nat, w': nat)
    requires Differs(m, m', r, what)
    ensures Ok(m') && m'.level == m.level && m'.maxItems == m.maxItems == Pow8(m.level + 1) && r < m.maxItems
    ensures AtSlot(Sub(m'), w', r) == what
    ensures forall k: nat | k < m.maxItems && k != r :: AtSlot(Sub(m'), w', k) == AtSlot(Sub(m), w, k)
  {}

  lemma NewSlot(level: nat, k: nat, w: nat)
    ensures AtSlot(Sub(NewNode(level)), w, k) == None == AtSlot(Empty, 0, k)
  {
    NewNodeOk(level);
  }

  // ---------- the operations of a node ----------

  function NewNode(level: nat): Node {
    Node(level, Pow8(level + 1), 0, 0, seq(BRANCHES, _ => 0), seq(BRANCHES, _ => Empty))
  }

  lemma NewNodeOk(level: nat)
    ensures Ok(NewNode(level)) && forall i: nat | i < Pow8(level + 1) :: At(NewNode(level), i) == None
  {
    var n := NewNode(level);
    SumFull(n.weights, 0);
    SumFull(Holdings(n.items), 0);
    forall i: nat | i < Pow8(level + 1) ensures At(n, i) == None {
      Split(level, i);
    }
  }

  lemma LeafSlot(item: Item, w: nat, r: nat)
    ensures AtSlot(Leaf(item), w, r) == Some((item, w)) && AtSlot(Empty, w, r) == None
  {}

  /** The first branch that is not full. */
  method FindBranch(n: Node) returns (branch: nat)
    requires Ok(n) && n.itemCnt < n.maxItems
    ensures branch < BRANCHES && !FullSlot(n.level, n.items[branch])
            && forall b | 0 <= b < branch :: FullSlot(n.level, n.items[b])
  {
    branch := 0;
    while n.items[branch] != Empty && (n.level == 0 || (n.items[branch].Sub?
        && n.items[branch].node.itemCnt == n.items[branch].node.maxItems))
      invariant branch < BRANCHES && forall b | 0 <= b < branch :: FullSlot(n.level, n.items[b])
      decreases BRANCHES - branch
    {
      branch := branch + 1;
      if branch == BRANCHES {
        RoomBelow(n);
        assert false;
      }
    }
  }

  /** Inserts an item into a node that has room.  There is always a branch for it. */
  method Insert(n: Node, item: Item, weight: nat) returns (n': Node, i: nat)
    requires Ok(n) && n.itemCnt < n.maxItems && weight > 0
    ensures i < n.maxItems && At(n, i) == None && Differs(n, n', i, Some((item, weight)))
    ensures n'.itemCnt == n.itemCnt + 1 && n'.sumWeight == n.sumWeight + weight
    decreases n.level
  {
    hide Differs, At, AtSlot, Sum, Holdings, Pow8, BranchOf, RestOf;
    var branch := FindBranch(n);
    assert SlotOk(n.level, n.items[branch], n.weights[branch]);
    Shape(n);
    if n.level == 0 {
      n' := Replace(n, branch, Leaf(item), n.weights[branch] + weight, n.sumWeight + weight, n.itemCnt + 1);
      i := branch;
      Bottom(branch);
      LeafSlot(item, weight, 0);
      LeafSlot(item, n.weights[branch], 0);
      ReplaceOk(n, branch, Leaf(item), weight);
      Lifted(n, n', branch, Leaf(item), weight, 0, Some((item, weight)));
      AtBranch(n, branch, 0);
    } else {
      NewNodeOk(n.level - 1);
      var sub := if n.items[branch] == Empty then NewNode(n.level - 1) else n.items[branch].node;
      Bounded(sub);
      var sub', r := Insert(sub, item, weight);
      n' := Replace(n, branch, Sub(sub'), n.weights[branch] + weight, n.sumWeight + weight, n.itemCnt + 1);
      i := sub.maxItems * branch + r;
      SlotChanged(sub, sub', r, Some((item, weight)), n.weights[branch], sub'.sumWeight);
      AtNode(sub, r, n.weights[branch]);
      forall k: nat ensures AtSlot(Sub(sub), n.weights[branch], k) == AtSlot(n.items[branch], n.weights[branch], k) {
        NewSlot(n.level - 1, k, n.weights[branch]);
      }
      ReplaceOk(n, branch, Sub(sub'), sub'.sumWeight);
      Lifted(n, n', branch, Sub(sub'), sub'.sumWeight, r, Some((item, weight)));
      AtBranch(n, branch, r);
    }
  }

  lemma AtNode(m: Node, r: nat, w: nat)
    requires Ok(m) && r < m.maxItems
    ensures AtSlot(Sub(m), w, r) == At(m, r)
  {}

  /** Changes the weight of the item at an index, or takes it out if the weight is zero. */
  method SetWeight(n: Node, i: nat, weight: nat) returns (n': Node, diff: int)
    requires Ok(n) && i < n.maxItems && At(n, i).Some?
    ensures var (item, was) := At(n, i).value;
            && Differs(n, n', i, if weight == 0 then None else Some((item, weight))) && diff == weight - was
            && n'.sumWeight == n.sumWeight + diff && n'.itemCnt == n.itemCnt - (if weight == 0 then 1 else 0)
    decreases n.level
  {
    hide Differs, At, AtSlot, Sum, Holdings, Pow8, BranchOf, RestOf, Index;
    Shape(n);
    Split(n.level, i);
    var branch := BranchOf(n.level, i);
    var r := RestOf(n.level, i);
    assert SlotOk(n.level, n.items[branch], n.weights[branch]);
    AtBranch(n, branch, r);
    Holding(n.items[branch], n.weights[branch], r);
    if n.level == 0 {
      Bottom(i);
      diff := weight - n.weights[i];
      var s := if weight == 0 then Empty else n.items[i];
      ReplaceOk(n, i, s, weight);
      n' := Replace(n, i, s, weight, n.sumWeight + diff, n.itemCnt - (if weight == 0 then 1 else 0));
      LeafSlot(n.items[i].item, weight, r);
      Lifted(n, n', i, s, weight, r, if weight == 0 then None else Some((n.items[i].item, weight)));
    } else {
      var sub := n.items[branch].node;
      AtNode(sub, r, n.weights[branch]);
      var sub', d := SetWeight(sub, r, weight);
      diff := d;
      ghost var what := if weight == 0 then None else Some((At(sub, r).value.0, weight));
      SlotChanged(sub, sub', r, what, n.weights[branch], sub'.sumWeight);
      ReplaceOk(n, branch, Sub(sub'), sub'.sumWeight);
      n' := Replace(n, branch, Sub(sub'), n.weights[branch] + diff, n.sumWeight + diff,
          n.itemCnt - (if weight == 0 then 1 else 0));
      Lifted(n, n', branch, Sub(sub'), sub'.sumWeight, r, what);
    }
  }

  /** A slot that holds something is not empty. */
  lemma Holding(s: Slot, weight: nat, r: nat)
    requires AtSlot(s, weight, r).Some?
    ensures s != Empty && (s.Leaf? ==> AtSlot(s, weight, r) == Some((s.item, weight)))
    ensures s.Sub? ==> Ok(s.node) && r < s.node.maxItems && At(s.node, r) == AtSlot(s, weight, r)
  {}

  // ---------- choosing ----------

  /** Where a branch's part of the weight starts. */
  lemma StartBranch(n: Node, b: nat, r: nat)
    requires Ok(n) && b < BRANCHES && r < Pow8(n.level)
    ensures var i := Index(n.level, b, r);
            && i < n.maxItems && At(n, i) == AtSlot(n.items[b], n.weights[b], r)
            && Start(n, i) == Sum(n.weights[..b]) + (if n.items[b].Sub? && Ok(n.items[b].node)
                && r < n.items[b].node.maxItems then Start(n.items[b].node, r) else 0)
  {
    hide BranchOf, RestOf, Index, Sum, Holdings;
    AtBranch(n, b, r);
    Join(n.level, b, r);
    assert SlotOk(n.level, n.items[b], n.weights[b]);
  }

  /** The share of the total weight of what is held at an index holds the value. */
  ghost predicate Picks(n: Node, value: nat, i: nat) {
    Ok(n) && i < n.maxItems && At(n, i).Some? && Start(n, i) <= value < Start(n, i) + At(n, i).value.1
  }

  ghost predicate PicksItem(n: Node, value: nat, i: nat, item: Item, weight: nat) {
    Picks(n, value, i) && At(n, i) == Some((item, weight))
  }

  /** Selects the item whose share of the total weight holds the value. */
  method Choose(n: Node, value: nat) returns (item: Item, weight: nat, ghost i: nat)
    requires Ok(n) && value < n.sumWeight
    ensures PicksItem(n, value, i, item, weight)
    decreases n.level
  {
    hide At, AtSlot, Start, Holdings, Pow8, Index, Sum;
    var val := value;
    var b := 0;
    SumOfNone(n.weights);
    assert n.weights[..BRANCHES] == n.weights;
    while b < BRANCHES
      invariant 0 <= b <= BRANCHES && value == Sum(n.weights[..b]) + val
    {
      var w := n.weights[b];
      SumOfOne(n.weights, b);
      if val < w {
        assert SlotOk(n.level, n.items[b], n.weights[b]);
        if n.level == 0 {
          Bottom(b);
          StartBranch(n, b, 0);
          LeafSlot(n.items[b].item, w, 0);
          return n.items[b].item, w, Index(0, b, 0);
        } else {
          var sub := n.items[b].node;
          var item', weight', r := Choose(sub, val);
          Shape(sub);
          AtNode(sub, r, w);
          StartBranch(n, b, r);
          return item', weight', Index(n.level, b, r);
        }
      }
      val := val - w;
      b := b + 1;
    }
    assert false;
  }

  lemma SumOfNone(s: seq<nat>)
    ensures Sum(s[..0]) == 0
  {}

  lemma SumOfOne(s: seq<nat>, b: nat)
    requires b < |s|
    ensures Sum(s[..b + 1]) == Sum(s[..b]) + s[b]
  {
    assert s[..b + 1][..b] == s[..b];
  }

  /** An item's share lies within the total. */
  lemma {:induction false} ShareInside(n: Node, i: nat)
    requires Ok(n) && i < n.maxItems && At(n, i).Some?
    ensures Start(n, i) + At(n, i).value.1 <= n.sumWeight
    decreases n.level
  {
    hide At, AtSlot, Start, Holdings, Pow8, Index, Sum, BranchOf, RestOf;
    Shape(n);
    Split(n.level, i);
    var b, r := BranchOf(n.level, i), RestOf(n.level, i);
    StartBranch(n, b, r);
    Holding(n.items[b], n.weights[b], r);
    assert SlotOk(n.level, n.items[b], n.weights[b]);
    if n.items[b].Sub? {
      ShareInside(n.items[b].node, r);
    }
    SumPrefix(n.weights, b, BRANCHES);
    assert n.weights[..BRANCHES] == n.weights;
  }

  /** An item's share lies within its branch's. */
  lemma ShareInBranch(n: Node, b: nat, r: nat)
    requires Ok(n) && b < BRANCHES && r < Pow8(n.level) && Index(n.level, b, r) < n.maxItems
             && At(n, Index(n.level, b, r)).Some?
    ensures var i := Index(n.level, b, r);
            Sum(n.weights[..b]) <= Start(n, i) && Start(n, i) + At(n, i).value.1 <= Sum(n.weights[..b]) + n.weights[b]
  {
    hide At, AtSlot, Start, Holdings, Pow8, Index, Sum, BranchOf, RestOf;
    StartBranch(n, b, r);
    Holding(n.items[b], n.weights[b], r);
    assert SlotOk(n.level, n.items[b], n.weights[b]);
    if n.items[b].Sub? {
      ShareInside(n.items[b].node, r);
    }
  }

  /** Different items' shares do not overlap. */
  lemma {:induction false} SharesApart(n: Node, i: nat, j: nat)
    requires Ok(n) && i < n.maxItems && j < n.maxItems && i != j && At(n, i).Some? && At(n, j).Some?
    ensures Start(n, i) + At(n, i).value.1 <= Start(n, j) || Start(n, j) + At(n, j).value.1 <= Start(n, i)
    decreases n.level
  {
    hide At, AtSlot, Start, Holdings, Pow8, Index, Sum, BranchOf, RestOf;
    Shape(n);
    Split(n.level, i);
    Split(n.level, j);
    var b, r := BranchOf(n.level, i), RestOf(n.level, i);
    var c, q := BranchOf(n.level, j), RestOf(n.level, j);
    ShareInBranch(n, b, r);
    ShareInBranch(n, c, q);
    if b < c {
      SumPrefix(n.weights, b, c);
    } else if c < b {
      SumPrefix(n.weights, c, b);
    } else {
      StartBranch(n, b, r);
      StartBranch(n, b, q);
      Holding(n.items[b], n.weights[b], r);
      Holding(n.items[b], n.weights[b], q);
      assert SlotOk(n.level, n.items[b], n.weights[b]);
      if n.level == 0 {
        Bottom(i);
        Bottom(j);
        assert false;
      }
      SharesApart(n.items[b].node, r, q);
    }
  }

  /** Only one item's share holds a value. */
  lemma PicksOnly(n: Node, i: nat, j: nat, value: nat)
    requires Picks(n, value, i) && Picks(n, value, j)
    ensures i == j
  {
    if i != j {
      SharesApart(n, i, j);
    }
  }

  function Range(lo: nat, hi: nat): (r: set<nat>)
    ensures forall v: nat :: v in r <==> lo <= v < hi
    decreases hi
  {
    if lo >= hi then {} else Range(lo, hi - 1) + {hi - 1}
  }

  lemma {:induction false} RangeSize(lo: nat, hi: nat)
    requires lo <= hi
    ensures |Range(lo, hi)| == hi - lo
    decreases hi - lo
  {
    if lo < hi {
      RangeSize(lo, hi - 1);
    }
  }

  /** Each item is picked by exactly as many of the values below the total as its weight. */
  lemma ShareSize(n: Node, i: nat)
    requires Ok(n) && i < n.maxItems && At(n, i).Some?
    ensures |set v: nat | v < n.sumWeight && Picks(n, v, i)| == At(n, i).value.1
  {
    hide Ok, At, Start;
    ShareInside(n, i);
    var lo, hi := Start(n, i), Start(n, i) + At(n, i).value.1;
    RangeSize(lo, hi);
    assert (set v: nat | v < n.sumWeight && Picks(n, v, i)) == Range(lo, hi);
  }

  /** What is held has weight; nothing is held where there is no weight. */
  lemma {:induction false} HeldHasWeight(n: Node, i: nat)
    requires Ok(n) && i < n.maxItems && At(n, i).Some?
    ensures At(n, i).value.1 > 0 && n.sumWeight > 0
    decreases n.level
  {
    hide At, AtSlot, Holdings, Pow8, Index, BranchOf, RestOf;
    Shape(n);
    Split(n.level, i);
    var b, r := BranchOf(n.level, i), RestOf(n.level, i);
    AtBranch(n, b, r);
    Holding(n.items[b], n.weights[b], r);
    assert SlotOk(n.level, n.items[b], n.weights[b]);
    if n.items[b].Sub? {
      HeldHasWeight(n.items[b].node, r);
    }
    SumPrefix(n.weights, b, BRANCHES);
    assert n.weights[..BRANCHES] == n.weights;
  }

  // ---------- a level on top ----------

  function Grow(n: Node): Node {
    Node(n.level + 1, n.maxItems * BRANCHES, n.itemCnt, n.sumWeight,
         [n.sumWeight, 0, 0, 0, 0, 0, 0, 0], [Sub(n), Empty, Empty, Empty, Empty, Empty, Empty, Empty])
  }

  /** The indices handed out stay valid. */
  lemma GrowKeeps(n: Node)
    requires Ok(n)
    ensures Ok(Grow(n)) && Grow(n).maxItems >= n.maxItems
    ensures forall i: nat | i < Grow(n).maxItems :: At(Grow(n), i) == if i < n.maxItems then At(n, i) else None
  {
    hide At, AtSlot, Sum, Index, BranchOf, RestOf;
    var g := Grow(n);
    SumOfFirst(n.sumWeight);
    SumOfFirst(n.itemCnt);
    assert Holdings(g.items) == [n.itemCnt, 0, 0, 0, 0, 0, 0, 0];
    forall b | 0 <= b < BRANCHES ensures SlotOk(g.level, g.items[b], g.weights[b]) {
    }
    forall i: nat | i < g.maxItems ensures At(g, i) == if i < n.maxItems then At(n, i) else None {
      Split(g.level, i);
      var b, r := BranchOf(g.level, i), RestOf(g.level, i);
      AtBranch(g, b, r);
      FirstBranch(g.level, b, r);
      if b == 0 {
        AtNode(n, r, n.sumWeight);
      } else {
        LeafSlot(0, 0, r);
      }
    }
  }

  lemma FirstBranch(level: nat, b: nat, r: nat)
    requires r < Pow8(level)
    ensures if b == 0 then Index(level, b, r) == r else Index(level, b, r) >= Pow8(level)
  {
    hide Pow8;
    AtLeast(Pow8(level), b);
  }

  lemma AtLeast(p: nat, b: nat)
    ensures b == 0 ==> p * b == 0
    ensures b > 0 ==> p * b >= p
  {}

  lemma SumOfFirst(w: nat)
    ensures Sum([w, 0, 0, 0, 0, 0, 0, 0]) == w
  {
    var z: seq<nat> := [0, 0, 0, 0, 0, 0, 0, 0];
    SumFull(z, 0);
    SumAt(z, 0, w);
    assert z[0 := w] == [w, 0, 0, 0, 0, 0, 0, 0];
  }

  // ---------- the set of items ----------

  /** The index leads to every item of the tree and to nothing else. */
  ghost predicate Indexed(root: Node, idx: map<Item, nat>) {
    && Ok(root)
    && (forall x | x in idx :: idx[x] < root.maxItems && At(root, idx[x]).Some? && At(root, idx[x]).value.0 == x)
    && (forall i: nat | i < root.maxItems && At(root, i).Some? ::
          At(root, i).value.0 in idx && idx[At(root, i).value.0] == i)
  }

  /** The plain map from items to weights that the tree stands for. */
  ghost function WeightsOf(root: Node, idx: map<Item, nat>): map<Item, nat>
    requires Indexed(root, idx)
  {
    map x | x in idx :: At(root, idx[x]).value.1
  }

  ghost function SumOf(m: map<Item, nat>): nat
    decreases |m|
  {
    if m == map[] then 0
    else
      var x :| x in m;
      m[x] + SumOf(m - {x})
  }

  lemma {:induction false} SumWithout(m: map<Item, nat>, x: Item)
    requires x in m
    ensures SumOf(m) == m[x] + SumOf(m - {x}) && |m - {x}| == |m| - 1
    decreases |m|
  {
    Smaller(m, x);
    var y :| y in m && SumOf(m) == m[y] + SumOf(m - {y});
    if y != x {
      Smaller(m, y);
      SumWithout(m - {y}, x);
      SumWithout(m - {x}, y);
      assert m - {y} - {x} == m - {x} - {y};
    }
  }

  lemma Smaller(m: map<Item, nat>, x: Item)
    requires x in m
    ensures |m - {x}| == |m| - 1
  {
    assert m.Keys == (m - {x}).Keys + {x};
  }

  lemma SumWith(m: map<Item, nat>, x: Item, v: nat)
    ensures SumOf(m[x := v]) == SumOf(m) - (if x in m then m[x] else 0) + v
    ensures |m[x := v]| == |m| + if x in m then 0 else 1
  {
    hide SumOf;
    SumWithout(m[x := v], x);
    if x in m {
      SumWithout(m, x);
      assert m[x := v] - {x} == m - {x};
    } else {
      assert m[x := v] - {x} == m;
    }
  }

  /** The tree's totals are those of the map. */
  ghost predicate Tallied(root: Node, weights: map<Item, nat>) {
    root.sumWeight == SumOf(weights) && root.itemCnt == |weights|
  }

  lemma GrowIndexed(root: Node, idx: map<Item, nat>)
    requires Indexed(root, idx)
    ensures Indexed(Grow(root), idx) && WeightsOf(Grow(root), idx) == WeightsOf(root, idx)
  {
    hide Ok, At;
    GrowKeeps(root);
  }

  lemma InsertIndexed(root: Node, root': Node, idx: map<Item, nat>, i: nat, item: Item, weight: nat)
    requires Indexed(root, idx) && item !in idx && i < root.maxItems && At(root, i) == None
             && Differs(root, root', i, Some((item, weight)))
    ensures Indexed(root', idx[item := i]) && WeightsOf(root', idx[item := i]) == WeightsOf(root, idx)[item := weight]
  {
    hide Ok, At;
  }

  lemma UpdateIndexed(root: Node, root': Node, idx: map<Item, nat>, item: Item, weight: nat)
    requires Indexed(root, idx) && item in idx
             && Differs(root, root', idx[item], if weight == 0 then None else Some((item, weight)))
    ensures var idx' := if weight == 0 then idx - {item} else idx;
            && Indexed(root', idx')
            && WeightsOf(root', idx') ==
               if weight == 0 then WeightsOf(root, idx) - {item} else WeightsOf(root, idx)[item := weight]
  {
    hide Ok, At;
  }

  function Changed(m: map<Item, nat>, item: Item, weight: nat): map<Item, nat> {
    if weight == 0 then m - {item} else m[item := weight]
  }

  lemma ChangedSum(m: map<Item, nat>, item: Item, weight: nat)
    ensures var m' := Changed(m, item, weight);
            && SumOf(m') == SumOf(m) - (if item in m then m[item] else 0) + weight
            && |m'| == |m| - (if item in m then 1 else 0) + (if weight == 0 then 0 else 1)
  {
    hide SumOf;
    if weight > 0 {
      SumWith(m, item, weight);
    } else if item in m {
      SumWithout(m, item);
    } else {
      assert m - {item} == m;
    }
  }

  class WeightedRandomSelect {
    var root: Node
    var idx: map<Item, nat>

    ghost predicate Valid()
      reads this
    {
      Indexed(root, idx) && Tallied(root, WeightsOf(root, idx))
    }

    ghost function Weights(): map<Item, nat>
      requires Valid()
      reads this
    {
      WeightsOf(root, idx)
    }

    /** While the weights in sum fit in a signed 64-bit integer, so does every number in the tree. */
    lemma NoOverflow()
      requires Valid() && SumOf(Weights()) < 0x8000_0000_0000_0000
      ensures Within(root, 0x7FFF_FFFF_FFFF_FFFF)
    {
      IndexedOk(root, idx);
      WithinTotal(root, 0x7FFF_FFFF_FFFF_FFFF);
    }

    constructor ()
      ensures Valid() && Weights() == map[]
    {
      root, idx := NewNode(0), map[];
      NewNodeOk(0);
    }

    /** Sets an item's weight, adding the item if need be, or removes it if the weight is zero. */
    method Set(item: Item, weight: nat)
      requires Valid()
      modifies this
      ensures Valid() && Weights() == Changed(old(Weights()), item, weight)
    {
      hide Indexed, Differs, At, Ok, SumOf;
      IndexedOk(root, idx);
      ChangedSum(Weights(), item, weight);
      if item in idx {
        IndexedAt(root, idx, item);
        var root', _ := SetWeight(root, idx[item], weight);
        UpdateIndexed(root, root', idx, item, weight);
        root := root';
        if weight == 0 {
          idx := idx - {item};
        }
      } else if weight != 0 {
        if root.itemCnt == root.maxItems {
          GrowIndexed(root, idx);
          GrownRoom(root);
          root := Grow(root);
        }
        IndexedOk(root, idx);
        var root', i := Insert(root, item, weight);
        InsertIndexed(root, root', idx, i, item, weight);
        root, idx := root', idx[item := i];
      }
    }

    /** One round, with the random numbers given: the item whose share holds the value has its stored weight put
        right, and is selected unless its weight has gone down and the toss is not below what is left. */
    method Round(value: nat, toss: nat -> nat, now: Item -> nat)
      returns (r: Option<Item>, item: Item, last: nat, ghost i: nat)
      requires Valid() && value < root.sumWeight && forall last: nat | last > 0 :: toss(last) < last
      modifies this
      ensures Valid() && Weights() == Changed(old(Weights()), item, now(item))
      ensures PicksItem(old(root), value, i, item, last) && item in old(Weights()) && last == old(Weights())[item] > 0
      ensures r == if Accepted(now(item), last, toss(last)) then Some(item) else None
    {
      hide Indexed, At, Ok, WeightsOf, Start, SumOf;
      IndexedOk(root, idx);
      item, last, i := Choose(root, value);
      HeldHasWeight(root, i);
      FoundIn(root, idx, i);
      var weight := now(item);
      if weight != last {
        Set(item, weight);
      } else {
        assert Weights() == Weights()[item := weight];
      }
      r := if weight >= last || toss(last) < weight then Some(item) else None;
    }

    /** Selects an item: rounds until one selects, each of the others lowering the total. */
    method ChooseItem(now: Item -> nat) returns (r: Option<Item>)
      requires Valid()
      modifies this
      ensures Valid()
      ensures r == None ==> Weights() == map[]
      ensures r.Some? ==> r.value in old(Weights()) && now(r.value) > 0
      ensures Refreshed(old(Weights()), Weights(), now)
    {
      hide Indexed, At, Ok, WeightsOf, Start, SumOf;
      while true
        invariant Valid() && Refreshed(old(Weights()), Weights(), now)
        decreases root.sumWeight
      {
        ghost var before := Weights();
        if root.sumWeight == 0 {
          NoWeightNoItem(root, idx);
          return None;
        }
        var value: nat :| value < root.sumWeight;
        var k: nat :| true;
        var choice, item, _, _ := Round(value, (last: nat) => if last == 0 then 0 else k % last, now);
        ChangedSum(before, item, now(item));
        RefreshedOne(old(Weights()), before, Weights(), now, item);
        if choice.Some? {
          return choice;
        }
      }
    }
  }

  /** An item is selected in a round. */
  predicate Accepted(weight: nat, last: nat, toss: nat) {
    weight >= last || toss < weight
  }

  /** Of the tosses below an item's stored weight, as many select it as its current weight: with `ShareSize`, of
      the pairs of a value and a toss each item has its current weight's part. */
  lemma TossSize(weight: nat, last: nat)
    ensures |set toss: nat | toss < last && Accepted(weight, last, toss)| == if weight < last then weight else last
  {
    var n := if weight < last then weight else last;
    RangeSize(0, n);
    assert (set toss: nat | toss < last && Accepted(weight, last, toss)) == Range(0, n);
  }

  /** Weights are as they were or as they are now; only items without weight are missing. */
  ghost predicate Refreshed(was: map<Item, nat>, left: map<Item, nat>, now: Item -> nat) {
    && (forall x | x in left :: x in was && (left[x] == was[x] || left[x] == now(x)))
    && (forall x | x in was && x !in left :: now(x) == 0)
  }

  lemma RefreshedOne(was: map<Item, nat>, before: map<Item, nat>, after: map<Item, nat>, now: Item -> nat, item: Item)
    requires Refreshed(was, before, now) && item in before
    requires after == Changed(before, item, now(item))
    ensures Refreshed(was, after, now) && item in was
  {}

  lemma IndexedOk(root: Node, idx: map<Item, nat>)
    requires Indexed(root, idx)
    ensures Ok(root) && root.itemCnt <= root.maxItems
  {
    Bounded(root);
  }

  lemma IndexedAt(root: Node, idx: map<Item, nat>, item: Item)
    requires Indexed(root, idx) && item in idx
    ensures Ok(root) && idx[item] < root.maxItems && At(root, idx[item]) == Some((item, WeightsOf(root, idx)[item]))
  {}

  lemma GrownRoom(root: Node)
    requires Ok(root) && root.itemCnt == root.maxItems
    ensures Grow(root).itemCnt < Grow(root).maxItems
  {}

  lemma FoundIn(root: Node, idx: map<Item, nat>, i: nat)
    requires Indexed(root, idx) && i < root.maxItems && At(root, i).Some?
    ensures var (item, weight) := At(root, i).value;
            item in WeightsOf(root, idx) && WeightsOf(root, idx)[item] == weight
  {}

  lemma NoWeightNoItem(root: Node, idx: map<Item, nat>)
    requires Indexed(root, idx) && root.sumWeight == 0
    ensures WeightsOf(root, idx) == map[]
  {
    hide Ok, At;
    forall x | x in idx ensures false {
      HeldHasWeight(root, idx[x]);
    }
  }
}
