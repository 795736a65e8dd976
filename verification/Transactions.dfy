/** Values shared by the transaction pool, the transaction lists and the gas accounting. */
module Transactions {

  datatype Option<+T> = None | Some(value: T)

  const MAX_UINT64: nat := 0xFFFF_FFFF_FFFF_FFFF

  type uint64 = x: int | 0 <= x <= MAX_UINT64

  newtype byte = x: int | 0 <= x < 256

  /** Transaction data; its length is a machine integer. */
  type Data = s: seq<byte> | |s| <= MAX_UINT64

  type Address = nat

  /** A transaction.  `sender` is what signature recovery yields, `None` when it fails; `size` is the
      encoded size in bytes; `create` tells that there is no recipient.  A transaction hash is
      identified with the transaction it belongs to (the hash has no collisions). */
  datatype Tx = Tx(sender: Option<Address>, nonce: uint64, price: nat, gas: uint64, value: int,
                   data: Data, create: bool, size: nat, signature: nat)
  {
    function Cost(): int {
      value + price * gas
    }

    /** The sender as code that ignores the recovery error sees it: the zero address on failure. */
    function From(): Address {
      if sender.Some? then sender.value else 0
    }
  }
}

/** Finite sets and maps keyed by nonces: extrema, consecutive runs, and the cuts the lists make. */
module Nonces {
  import opened Transactions

  type Items = map<nat, Tx>

  /** Every transaction sits under its own nonce. */
  predicate WellKeyed(m: Items) {
    forall n | n in m :: m[n].nonce == n
  }

  /** The largest of a set. */
  ghost predicate IsMax(s: set<nat>, x: nat) {
    x in s && forall y | y in s :: y <= x
  }

  lemma {:induction false} MaxExists(s: set<nat>)
    requires s != {}
    ensures exists x :: IsMax(s, x)
  {
    var e :| e in s;
    var rest := s - {e};
    if rest == {} {
      OnlyMax(s, e);
    } else {
      MaxExists(rest);
      var hi :| IsMax(rest, hi);
      MaxWith(s, e, hi);
    }
  }

  lemma OnlyMax(s: set<nat>, e: nat)
    requires e in s && s - {e} == {}
    ensures IsMax(s, e)
  {
    forall y | y in s ensures y <= e {
      assert y != e ==> y in s - {e};
    }
  }

  lemma MaxWith(s: set<nat>, e: nat, hi: nat)
    requires e in s && IsMax(s - {e}, hi)
    ensures IsMax(s, if hi < e then e else hi)
  {
    forall y | y in s ensures y <= if hi < e then e else hi {
      assert y != e ==> y in s - {e};
    }
  }

  lemma {:induction false} MinExists(s: set<nat>, e: nat)
    requires e in s
    ensures exists x :: x in s && forall y | y in s :: x <= y
  {
    if y :| y in s && y < e {
      MinExists(s, y);
    }
  }

  function Max(s: set<nat>): (x: nat)
    requires s != {}
    ensures x in s && forall y | y in s :: y <= x
  {
    MaxExists(s);
    var x :| x in s && forall y | y in s :: y <= x;
    x
  }

  function Min(s: set<nat>): (x: nat)
    requires s != {}
    ensures x in s && forall y | y in s :: x <= y
  {
    var e :| e in s;
    MinExists(s, e);
    var x :| x in s && forall y | y in s :: x <= y;
    x
  }

  /** The first nonce from `n` on that is not in `s`. */
  function RunEnd(s: set<nat>, n: nat): (e: nat)
    ensures n <= e && e !in s && forall k | n <= k < e :: k in s
    decreases s
  {
    if n in s then
      var e := RunEnd(s - {n}, n + 1);
      assert forall k | n <= k < e :: k == n || k in s - {n};
      e
    else n
  }

  function Below(m: Items, t: nat): Items {
    map n | n in m && n < t :: m[n]
  }

  function AtLeast(m: Items, t: nat): Items {
    map n | n in m && t <= n :: m[n]
  }

  function Kept(m: Items, drop: Tx -> bool): Items {
    map n | n in m && !drop(m[n]) :: m[n]
  }

  function Dropped(m: Items, drop: Tx -> bool): Items {
    map n | n in m && drop(m[n]) :: m[n]
  }

  /** `r` is the part of `m` with the `k` lowest nonces (all of it when it is no larger). */
  ghost predicate IsLowest(r: Items, m: Items, k: int) {
    && r.Keys <= m.Keys
    && (forall n | n in r :: r[n] == m[n])
    && |r| == (if |m| <= k then |m| else k)
    && (forall n, d | n in r && d in m && d !in r :: n < d)
  }

  ghost predicate Increasing(s: seq<nat>) {
    forall i, j | 0 <= i < j < |s| :: s[i] < s[j]
  }

  /** What it means to list `m` in increasing nonce order. */
  ghost predicate SortedOf(s: seq<Tx>, m: Items) {
    && (forall i | 0 <= i < |s| :: s[i].nonce in m && m[s[i].nonce] == s[i])
    && (forall i, j | 0 <= i < j < |s| :: s[i].nonce < s[j].nonce)
    && (forall n | n in m :: m[n] in s)
  }

  /** An increasing sequence of the elements below `t` is the initial part of the whole. */
  lemma PrefixBelow(a: seq<nat>, b: seq<nat>, t: nat)
    requires Increasing(a) && Increasing(b)
    requires forall x | x in b :: x in a && x < t
    requires forall x | x in a && x < t :: x in b
    ensures |b| <= |a| && b == a[..|b|]
    ensures forall i | |b| <= i < |a| :: t <= a[i]
  {
    var i := 0;
    while i < |b|
      invariant i <= |b| && i <= |a| && b[..i] == a[..i]
    {
      NextAgrees(a, b, t, i);
      i := i + 1;
    }
    assert forall l | 0 <= l < |b| :: b[l] == b[..i][l] == a[..i][l] == a[l];
    forall k | |b| <= k < |a| ensures t <= a[k] {
      assert a[k] !in b;
    }
  }

  lemma NextAgrees(a: seq<nat>, b: seq<nat>, t: nat, i: nat)
    requires Increasing(a) && Increasing(b)
    requires forall x | x in b :: x in a && x < t
    requires forall x | x in a && x < t :: x in b
    requires i < |b| && i <= |a| && b[..i] == a[..i]
    ensures i < |a| && b[i] == a[i]
  {
    assert forall k | 0 <= k < i :: a[k] == a[..i][k] == b[..i][k] == b[k];
    assert b[i] in a;
    var j :| 0 <= j < |a| && a[j] == b[i];
    assert j >= i;
    assert a[i] in b;
    var l :| 0 <= l < |b| && b[l] == a[i];
    assert l >= i;
  }

  ghost function NoncesOf(s: seq<Tx>): (r: seq<nat>)
    ensures |r| == |s| && forall i | 0 <= i < |s| :: r[i] == s[i].nonce
  {
    seq(|s|, i requires 0 <= i < |s| => s[i].nonce)
  }

  lemma SortedNonces(s: seq<Tx>, m: Items)
    requires WellKeyed(m) && SortedOf(s, m)
    ensures Increasing(NoncesOf(s)) && forall n :: n in NoncesOf(s) <==> n in m
  {}

  lemma {:induction false} IncreasingSize(s: seq<nat>, keys: set<nat>)
    requires Increasing(s) && forall n :: n in s <==> n in keys
    ensures |s| == |keys|
  {
    if s == [] {
      assert keys == {};
    } else {
      var last := s[|s| - 1];
      var front := s[..|s| - 1];
      forall n ensures n in front <==> n in keys - {last} {
        if n in keys - {last} {
          var i :| 0 <= i < |s| && s[i] == n;
          assert front[i] == n;
        }
      }
      IncreasingSize(front, keys - {last});
    }
  }

  /** The listing of the low part is a prefix of the whole listing, and the rest lists the rest. */
  lemma SortedPrefix(c: seq<Tx>, m: Items, r: seq<Tx>, t: nat)
    requires WellKeyed(m) && SortedOf(c, m) && SortedOf(r, Below(m, t))
    ensures |r| <= |c| && SortedOf(c[|r|..], AtLeast(m, t))
  {
    hide SortedOf, Increasing;
    SortedNonces(c, m);
    SortedNonces(r, Below(m, t));
    PrefixBelow(NoncesOf(c), NoncesOf(r), t);
    LowFirst(c, r, t);
    SortedRest(c, m, |r|, t);
  }

  lemma LowFirst(c: seq<Tx>, r: seq<Tx>, t: nat)
    requires |r| <= |c| && NoncesOf(r) == NoncesOf(c)[..|r|] && forall x | x in NoncesOf(r) :: x < t
    ensures forall i | 0 <= i < |r| :: c[i].nonce < t
  {
    forall i | 0 <= i < |r| ensures c[i].nonce < t {
      assert NoncesOf(r)[i] in NoncesOf(r) && NoncesOf(r)[i] == NoncesOf(c)[..|r|][i] == c[i].nonce;
    }
  }

  lemma SortedRest(c: seq<Tx>, m: Items, k: nat, t: nat)
    requires WellKeyed(m) && SortedOf(c, m) && k <= |c| && |NoncesOf(c)| == |c|
    requires (forall i | 0 <= i < k :: c[i].nonce < t) && forall i | k <= i < |c| :: t <= NoncesOf(c)[i]
    ensures SortedOf(c[k..], AtLeast(m, t))
  {
    var rest := c[k..];
    forall i | 0 <= i < |rest| ensures t <= rest[i].nonce && rest[i] == c[i + k] {
      assert t <= NoncesOf(c)[i + k];
    }
    forall n | n in AtLeast(m, t) ensures AtLeast(m, t)[n] in rest {
      var i :| 0 <= i < |c| && c[i] == m[n];
      assert rest[i - k] == m[n];
    }
  }

  /** Order and content determine the listing. */
  lemma SortedUnique(c: seq<Tx>, d: seq<Tx>, m: Items)
    requires WellKeyed(m) && SortedOf(c, m) && SortedOf(d, m)
    ensures c == d
  {
    hide SortedOf, Increasing, NoncesOf;
    SortedNonces(c, m);
    SortedNonces(d, m);
    var t := if m.Keys == {} then 0 else Max(m.Keys) + 1;
    assert forall n | n in m :: n in m.Keys && n < t;
    PrefixBelow(NoncesOf(c), NoncesOf(d), t);
    PrefixBelow(NoncesOf(d), NoncesOf(c), t);
    SameNonces(c, d, m);
  }

  lemma SameNonces(c: seq<Tx>, d: seq<Tx>, m: Items)
    requires SortedOf(c, m) && SortedOf(d, m) && |c| == |d| && NoncesOf(c) == NoncesOf(d)[..|c|]
    ensures c == d
  {
    forall i | 0 <= i < |c| ensures c[i] == d[i] {
      assert NoncesOf(c)[i] == NoncesOf(d)[..|c|][i];
      assert c[i] == m[c[i].nonce] && d[i] == m[d[i].nonce];
    }
  }
}
