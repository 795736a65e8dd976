/** Binary Merkle tree hashing: the recursive reference hasher and the concurrent one, in which one
    goroutine per double segment climbs a shared tree and pairs meet at each node through an atomic
    toggle. */
module Bmt {
  import opened Transactions

  type Bytes = seq<byte>

  function Pow2(n: nat): (r: nat)
    ensures r >= 1
  {
    if n == 0 then 1 else 2 * Pow2(n - 1)
  }

  /** The base hash with its output size, and the chunk to hash: `2^(depth+1)` segments of the hash size. */
  datatype Env = Env(hash: Bytes -> Bytes, size: nat, depth: nat, chunk: Bytes)

  ghost predicate Full(env: Env) {
    && env.size > 0 && env.depth > 0
    && (forall x :: |env.hash(x)| == env.size)
    && |env.chunk| == Pow2(env.depth + 1) * env.size
  }

  /** The Merkle hash of a chunk of `2^k` double segments. */
  function Merkle(hash: Bytes -> Bytes, d: Bytes, k: nat): Bytes {
    if k == 0 then hash(d)
    else hash(Merkle(hash, d[..|d| / 2], k - 1) + Merkle(hash, d[|d| / 2..], k - 1))
  }

  // ---------- the reference hasher ----------

  /** The halving loop of the reference hasher: the first of `s`, `s/2`, ... below `l`. */
  function Halve(s: nat, l: nat): (r: nat)
    requires l > 0
    ensures r < l && r <= s && (s < l ==> r == s)
    ensures s > 0 && l > 1 ==> r > 0
  {
    if s >= l then Halve(s / 2, l) else s
  }

  function RefHash(hash: Bytes -> Bytes, section: nat, d: Bytes, s: nat): Bytes
    requires section > 1 && s > 0
    decreases |d|
  {
    if |d| > section then
      var s' := Halve(s, |d|);
      var left := RefHash(hash, section, d[..s'], s');
      var right := if |d| - s' > section / 2 then RefHash(hash, section, d[s'..], s') else d[s'..];
      hash(left + right)
    else hash(d)
  }

  datatype RefHasher = RefHasher(hash: Bytes -> Bytes, span: nat, section: nat, cap: nat)

  /** The span covers the largest power of two of segments below `count`, two at least. */
  method NewRefHasher(hash: Bytes -> Bytes, size: nat, count: nat) returns (rh: RefHasher, ghost e: nat)
    requires size > 0
    ensures rh.hash == hash && rh.section == 2 * size && rh.cap == size * count
    ensures rh.span == Pow2(e) * size && e > 0 && (e > 1 ==> Pow2(e) < count) && count <= 2 * Pow2(e)
  {
    var c := 2;
    e := 1;
    while c < count
      invariant c == Pow2(e) && e > 0 && (e > 1 ==> Pow2(e - 1) < count)
      decreases count - c
    {
      c, e := 2 * c, e + 1;
    }
    if c > 2 {
      c, e := c / 2, e - 1;
    }
    rh := RefHasher(hash, c * size, 2 * size, size * count);
  }

  lemma {:induction false} PowBetween(e: nat, k: nat)
    requires Pow2(e) < Pow2(k) <= 2 * Pow2(e)
    ensures k == e + 1
  {
    if e > 0 && k > 0 {
      PowBetween(e - 1, k - 1);
    }
  }

  /** The hash of up to the capacity's worth of bytes. */
  method Hash(rh: RefHasher, d: Bytes) returns (r: Bytes)
    requires rh.section > 1 && rh.span > 0
    ensures r == RefHash(rh.hash, rh.section, if |d| > rh.cap then d[..rh.cap] else d, rh.span)
  {
    r := HashFrom(rh, if |d| > rh.cap then d[..rh.cap] else d, rh.span);
  }

  method HashFrom(rh: RefHasher, d: Bytes, span: nat) returns (r: Bytes)
    requires rh.section > 1 && span > 0
    ensures r == RefHash(rh.hash, rh.section, d, span)
    decreases |d|
  {
    var s := span;
    var left, right := d, [];
    if |d| > rh.section {
      while s >= |d|
        invariant s > 0 && Halve(s, |d|) == Halve(span, |d|)
      {
        s := s / 2;
      }
      left := HashFrom(rh, d[..s], s);
      right := d[s..];
      if |d| - s > rh.section / 2 {
        right := HashFrom(rh, right, s);
      }
    } else {
      assert d + [] == d;
    }
    r := rh.hash(left + right);
  }

  lemma Halved(s: nat, half: nat)
    requires half > 0 && (s == 2 * half || s == half)
    ensures Halve(s, 2 * half) == half
  {
    assert Halve(half, 2 * half) == half;
  }

  /** Data of two halves that are at least two segments each is hashed half by half. */
  lemma RefHalves(hash: Bytes -> Bytes, size: nat, d: Bytes, half: nat, s: nat)
    requires size > 0 && |d| == 2 * half && half >= 2 * size && (s == |d| || s == half)
    ensures RefHash(hash, 2 * size, d, s) == hash(RefHash(hash, 2 * size, d[..half], half) + RefHash(hash, 2 * size,
            d[half..], half))
  {
    Halved(s, half);
  }

  /** On chunks of a power of two of segments the reference hash is the Merkle hash. */
  lemma {:induction false} RefIsMerkle(hash: Bytes -> Bytes, size: nat, d: Bytes, k: nat, s: nat)
    requires size > 0 && |d| == Pow2(k + 1) * size && (s == |d| || s == |d| / 2)
    ensures s > 0 && RefHash(hash, 2 * size, d, s) == Merkle(hash, d, k)
  {
    hide RefHash, Merkle, Pow2;
    var half := Pow2(k) * size;
    PowHalf(k, size);
    MerkleUnfolds(hash, d, k);
    if k > 0 {
      PowHalf(k - 1, size);
      RefHalves(hash, size, d, half, s);
      RefIsMerkle(hash, size, d[..half], k - 1, half);
      RefIsMerkle(hash, size, d[half..], k - 1, half);
    } else {
      RefShort(hash, size, d, s);
    }
  }

  lemma PowHalf(k: nat, size: nat)
    ensures Pow2(k + 1) * size == 2 * (Pow2(k) * size) && Pow2(k) * size >= size
    ensures k == 0 ==> Pow2(k) * size == size
  {}

  lemma RefShort(hash: Bytes -> Bytes, size: nat, d: Bytes, s: nat)
    requires size > 0 && |d| <= 2 * size && s > 0
    ensures RefHash(hash, 2 * size, d, s) == hash(d)
  {}

  lemma MerkleUnfolds(hash: Bytes -> Bytes, d: Bytes, k: nat)
    ensures Merkle(hash, d, k) == if k == 0 then hash(d) else hash(Merkle(hash, d[..|d| / 2], k - 1) + Merkle(hash,
            d[|d| / 2..], k - 1))
  {}

  /** The reference hash of the chunk. */
  function Reference(env: Env): Bytes
    requires env.size > 0
  {
    RefHash(env.hash, 2 * env.size, env.chunk, Pow2(env.depth) * env.size)
  }

  lemma ReferenceIsMerkle(env: Env)
    requires Full(env)
    ensures Reference(env) == Merkle(env.hash, env.chunk, env.depth)
  {
    assert Pow2(env.depth + 1) * env.size == 2 * (Pow2(env.depth) * env.size);
    RefIsMerkle(env.hash, env.size, env.chunk, env.depth, Pow2(env.depth) * env.size);
  }

  /** A reference hasher made for the chunk's number of segments computes the reference hash. */
  method HashChunk(env: Env) returns (r: Bytes)
    requires Full(env)
    ensures r == Reference(env)
  {
    hide Full, RefHash;
    FullSize(env);
    var rh, e := NewRefHasher(env.hash, env.size, Pow2(env.depth + 1));
    FullSpan(env, e);
    r := Hash(rh, env.chunk);
  }

  lemma FullSize(env: Env)
    requires Full(env)
    ensures env.size > 0 && |env.chunk| == env.size * Pow2(env.depth + 1)
  {}

  lemma FullSpan(env: Env, e: nat)
    requires Full(env) && e > 0 && (e > 1 ==> Pow2(e) < Pow2(env.depth + 1)) && Pow2(env.depth + 1) <= 2 * Pow2(e)
    ensures e == env.depth
  {
    assert Pow2(env.depth) == 2 * Pow2(env.depth - 1) && Pow2(1) == 2;
    PowBetween(e, env.depth + 1);
  }

  // ---------- the shape of the tree ----------

  lemma {:induction false} PowGrows(a: nat, b: nat)
    requires a <= b
    ensures Pow2(a) <= Pow2(b)
  {
    if a < b {
      PowGrows(a, b - 1);
    }
  }

  function Halvings(l: nat): nat {
    if l == 0 then 0 else 1 + Halvings(l / 2)
  }

  lemma {:induction false} HalvingsBound(l: nat)
    ensures l < Pow2(Halvings(l)) && (l > 0 ==> Pow2(Halvings(l) - 1) <= l)
  {
    if l > 0 {
      HalvingsBound(l / 2);
    }
  }

  /** The index of the last level for `n` segments. */
  method Depth(n: nat) returns (d: nat)
    requires n > 0
    ensures (n - 1) / 2 < Pow2(d) && (d > 0 ==> Pow2(d - 1) <= (n - 1) / 2)
  {
    d := 0;
    var l: nat := (n - 1) / 2;
    while l > 0
      invariant d + Halvings(l) == Halvings((n - 1) / 2)
    {
      l := l / 2;
      d := d + 1;
    }
    HalvingsBound((n - 1) / 2);
  }

  /** With `2^(depth+1)` segments the tree has `depth` levels above its leaves. */
  lemma DepthOfFull(depth: nat, d: nat)
    requires var n := Pow2(depth + 1); (n - 1) / 2 < Pow2(d) && (d > 0 ==> Pow2(d - 1) <= (n - 1) / 2)
    ensures d == depth
  {
    assert (Pow2(depth + 1) - 1) / 2 == Pow2(depth) - 1;
    if d < depth {
      PowGrows(d, depth - 1);
      PowStrict(depth);
    } else if d > depth {
      PowGrows(depth, d - 1);
    }
  }

  lemma PowStrict(n: nat)
    requires n > 0
    ensures Pow2(n - 1) < Pow2(n)
  {}
}
