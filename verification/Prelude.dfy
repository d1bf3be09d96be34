/** Machine integers, bytes, and sums over finite maps. */
module Prelude {

  datatype Option<+T> = None | Some(value: T)

  const U64_LIMIT: int := 0x1_0000_0000_0000_0000
  const U64_MAX: int := 0xFFFF_FFFF_FFFF_FFFF
  const U128_MAX: int := 0xFFFF_FFFF_FFFF_FFFF_FFFF_FFFF_FFFF_FFFF

  type u64 = x: int | 0 <= x < 0x1_0000_0000_0000_0000
  type byte = x: int | 0 <= x < 256
  type Bytes = seq<byte>

  function Min(a: int, b: int): int {
    if a <= b then a else b
  }

  function Max(a: int, b: int): int {
    if a <= b then b else a
  }

  // `+=` on a u64 in a release build.
  function WrapAdd(a: u64, b: u64): u64 {
    (a + b) % U64_LIMIT
  }

  function SatAdd(a: u64, b: u64): u64 {
    Min(a + b, U64_MAX)
  }

  function SatSub(a: u64, b: u64): u64 {
    Max(a - b, 0)
  }

  // `saturating_add` on a u128.
  function SatAdd128(a: nat, b: nat): nat {
    Min(a + b, U128_MAX)
  }

  function Pow2(n: nat): (r: nat)
    ensures r > 0
  {
    if n == 0 then 1 else 2 * Pow2(n - 1)
  }

  // `1u128.checked_shl(n).unwrap_or(u128::MAX)`
  function Shl128(n: nat): (r: nat)
    ensures r > 0
  {
    if n >= 128 then U128_MAX else Pow2(n)
  }

  lemma MulGap(lo: int, hi: int, p: nat)
    requires lo < hi
    ensures lo * p + p <= hi * p
  {
    var d: nat := hi - lo - 1;
    assert hi == lo + 1 + d;
    assert (lo + 1 + d) * p == lo * p + p + d * p;
    assert d * p >= 0;
  }

  // -------------------------------------------------------------------------
  // Maps of amounts
  // -------------------------------------------------------------------------

  function Get<K>(m: map<K, u64>, k: K): u64 {
    if k in m then m[k] else 0
  }

  // A missing entry stands for an empty list.
  function Lookup<T>(m: map<nat, seq<T>>, n: nat): seq<T> {
    if n in m then m[n] else []
  }

  ghost function Sum<K>(m: map<K, u64>): nat
    decreases |m|
  {
    if m == map[] then 0 else
      var k :| k in m;
      m[k] + Sum(m - {k})
  }

  lemma {:induction false} SumSplit<K>(m: map<K, u64>, k: K)
    requires k in m
    ensures Sum(m) == m[k] + Sum(m - {k})
    decreases |m|
  {
    var p :| p in m && Sum(m) == m[p] + Sum(m - {p});
    if p != k {
      SumSplit(m - {p}, k);
      SumSplit(m - {k}, p);
      assert m - {p} - {k} == m - {k} - {p};
    }
  }

  lemma {:induction false} SumUpdate<K>(m: map<K, u64>, k: K, v: u64)
    ensures Sum(m[k := v]) == Sum(m) - Get(m, k) + v
  {
    SumSplit(m[k := v], k);
    if k in m {
      SumSplit(m, k);
      assert m[k := v] - {k} == m - {k};
    } else {
      assert m[k := v] - {k} == m;
    }
  }

  lemma {:induction false} GetAtMostSum<K>(m: map<K, u64>, k: K)
    ensures Get(m, k) <= Sum(m)
  {
    if k in m {
      SumSplit(m, k);
    }
  }

  lemma UnionMoves<T>(a: set<T>, b: set<T>, c: set<T>)
    ensures (a + b) + c == a + (b + c)
  {
  }

  // -------------------------------------------------------------------------
  // Sequences
  // -------------------------------------------------------------------------

  function Last<T>(s: seq<T>): T
    requires |s| > 0
  {
    s[|s| - 1]
  }

  function Front<T>(s: seq<T>): (r: seq<T>)
    requires |s| > 0
    ensures |r| == |s| - 1
  {
    s[..|s| - 1]
  }

  lemma TakeDrop<T>(s: seq<T>, n: nat)
    requires n <= |s|
    ensures s[..n] + s[n..] == s
  {
  }

  lemma DropDrop<T>(s: seq<T>, m: nat, n: nat)
    requires m + n <= |s|
    ensures s[m..][n..] == s[m + n..]
  {
  }

  lemma Rejoin<T>(s: seq<T>, m: nat, n: nat)
    requires m <= n <= |s|
    ensures s[m..n] + s[n..] == s[m..]
  {
  }

  lemma SplitTake<T>(s: seq<T>, m: nat, n: nat, t: seq<T>)
    requires m <= n <= |s|
    ensures s[..m] + (s[m..][..n - m] + t) == s[..n] + t
  {
    assert s[..m] + s[m..][..n - m] == s[..n];
  }

  ghost predicate IsPrefix<T>(s: seq<T>, t: seq<T>) {
    s <= t
  }

  lemma PrefixStart<T>(s: seq<T>, t: seq<T>)
    requires |t| > 0 && s == [t[0]]
    ensures IsPrefix(s, t) && |s| == 1
  {
  }

  lemma PrefixNext<T>(s: seq<T>, t: seq<T>)
    requires IsPrefix(s, t) && |s| < |t|
    ensures IsPrefix(s + [t[|s|]], t)
  {
  }
}
