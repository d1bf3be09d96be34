/** The byte-by-byte test of a fractional difficulty, and the one comparison it amounts to. */
module Difficulty {
  import opened Prelude
  import opened ByteOrder

  const HASH_BYTES := 32

  // Whole zero bytes demanded by a positive difficulty.
  function WholeBytes(bits: real): nat
    requires bits >= 0.0
  {
    (bits / 8.0).Floor
  }

  function Remainder(bits: real): real
    requires bits >= 0.0
  {
    bits - WholeBytes(bits) as real * 8.0
  }

  ghost predicate IsWhole(x: real) {
    x.Floor as real == x
  }

  function Times(t: real, p: nat): real {
    t * p as real
  }

  // `t` is a whole number of 2^-k.
  ghost predicate Dyadic(t: real, k: nat) {
    IsWhole(Times(t, Pow2(k)))
  }

  function Fraction(t: real): real {
    t - t.Floor as real
  }

  lemma Pow2Eight(k: nat)
    requires k >= 8
    ensures Pow2(k) == 256 * Pow2(k - 8)
  {
    assert Pow2(k) == 2 * Pow2(k - 1) && Pow2(k - 1) == 2 * Pow2(k - 2);
    assert Pow2(k - 2) == 2 * Pow2(k - 3) && Pow2(k - 3) == 2 * Pow2(k - 4);
    assert Pow2(k - 4) == 2 * Pow2(k - 5) && Pow2(k - 5) == 2 * Pow2(k - 6);
    assert Pow2(k - 6) == 2 * Pow2(k - 7) && Pow2(k - 7) == 2 * Pow2(k - 8);
  }

  lemma ScaleUp(a: real, b: real, p: nat)
    requires a <= b
    ensures Times(a, p) <= Times(b, p)
  {
    assert (b - a) * p as real >= 0.0;
  }

  lemma TimesSplits(t: real, p: nat)
    ensures Times(t, p) == (t.Floor * p) as real + Times(Fraction(t), p)
  {
    var f := t.Floor;
    assert f as real * p as real == (f * p) as real;
    assert t * p as real == (t - f as real) * p as real + f as real * p as real;
  }

  lemma TimesScaled(t: real, q: nat)
    ensures Times(t * 256.0, q) == Times(t, 256 * q)
  {
    var r := q as real;
    assert (256 * q) as real == 256.0 * r;
    assert t * 256.0 * r == t * (256.0 * r);
  }

  // Each byte consumed uses up eight fractional bits.
  lemma FractionShrinks(t: real, k: nat)
    requires k >= 8 && Dyadic(t, k)
    ensures Dyadic(Fraction(t) * 256.0, k - 8)
  {
    hide Times, Fraction, Pow2;
    Pow2Eight(k);
    TimesScaled(Fraction(t), Pow2(k - 8));
    TimesSplits(t, Pow2(k));
    WholeRest(Times(t, Pow2(k)), t.Floor * Pow2(k), Times(Fraction(t), Pow2(k)));
  }

  lemma WholeRest(x: real, n: int, y: real)
    requires IsWhole(x) && x == n as real + y
    ensures IsWhole(y)
  {
    assert y == (x.Floor - n) as real;
  }

  lemma WholeHasNoFraction(t: real)
    requires Dyadic(t, 0)
    ensures Fraction(t) == 0.0
  {
  }

  // A number of |h| bytes as its first byte and the rest.
  lemma FirstByte(h: Bytes)
    requires |h| > 0
    ensures BigEndian(h) == h[0] * Power256(|h| - 1) + BigEndian(h[1..])
    ensures BigEndian(h[1..]) < Power256(|h| - 1)
  {
    BigEndianSplit(h);
    BigEndianBound(h[1..]);
  }

  // What one byte decides about the rest of the number.
  lemma ByteDecides(b: int, t: real, rest: nat, scale: nat)
    requires rest < scale
    ensures b < t.Floor ==> (b * scale + rest) as real < Times(t, scale)
    ensures b > t.Floor ==> (b * scale + rest) as real >= Times(t, scale)
    ensures b == t.Floor ==>
      ((b * scale + rest) as real < Times(t, scale) <==> rest as real < Times(Fraction(t), scale))
  {
    TimesSplits(t, scale);
    ScaleUp(0.0, Fraction(t), scale);
    ScaleUp(Fraction(t), 1.0, scale);
    Compare(b, t.Floor, scale);
    UnitScale(scale);
    hide *;
    var whole, here := t.Floor * scale, b * scale;
    assert (here + rest) as real == here as real + rest as real;
  }

  lemma UnitScale(p: nat)
    ensures Times(0.0, p) == 0.0 && Times(1.0, p) == p as real
  {
  }

  lemma Compare(b: int, f: int, p: nat)
    ensures b < f ==> b * p + p <= f * p
    ensures b > f ==> b * p >= f * p + p
  {
    if b < f {
      MulGap(b, f, p);
    } else if b > f {
      MulGap(f, b, p);
    }
  }

  // Leading zero bytes do not count, and a nonzero one among the first `n` makes the number large.
  lemma {:induction false} LeadingBytes(h: Bytes, n: nat)
    requires n <= |h|
    ensures (forall i :: 0 <= i < n ==> h[i] == 0) ==> BigEndian(h) == BigEndian(h[n..])
    ensures (exists i :: 0 <= i < n && h[i] != 0) ==> BigEndian(h) >= Power256(|h| - n)
  {
    if n == 0 {
      assert h[0..] == h;
    } else {
      BigEndianSplit(h);
      var rest := h[1..];
      LeadingBytes(rest, n - 1);
      assert rest[n - 1..] == h[n..];
      hide BigEndian;
      PowerGrows(|h| - n, |h| - 1);
      if h[0] == 0 {
        assert forall i :: 0 < i < n ==> h[i] == rest[i - 1];
        assert forall i :: 0 <= i < n - 1 ==> rest[i] == h[i + 1];
      } else {
        AtLeastOnce(h[0], Power256(|h| - 1));
      }
    }
  }

  lemma AtLeastOnce(b: nat, p: nat)
    requires b >= 1
    ensures b * p >= p
  {
  }

  lemma {:induction false} PowerGrows(m: nat, n: nat)
    requires m <= n
    ensures Power256(m) <= Power256(n)
  {
    if m < n {
      PowerGrows(m, n - 1);
    }
  }

  lemma FinerIsDyadic(t: real, k: nat)
    requires Dyadic(t, k)
    ensures Dyadic(t, k + 1)
  {
    var p := Pow2(k);
    assert Pow2(k + 1) == 2 * p;
    hide Pow2;
    assert (2 * p) as real == 2.0 * p as real;
    assert t * (2.0 * p as real) == 2.0 * (t * p as real);
    Doubled(Times(t, p), Times(t, 2 * p));
  }

  lemma Doubled(x: real, y: real)
    requires IsWhole(x) && y == 2.0 * x
    ensures IsWhole(y)
  {
    assert y == (2 * x.Floor) as real;
  }

  // The hash, as a number, against what is left of the target from byte `i` on.
  ghost predicate BelowFrom(hash: Bytes, i: nat, t: real)
    requires i < |hash|
  {
    BigEndian(hash[i..]) as real < Times(t, Power256(|hash| - 1 - i))
  }

  // One turn of the loop: decided by this byte, or handed on to the next.
  lemma Turn(hash: Bytes, i: nat, t: real)
    requires i < |hash|
    ensures hash[i] < t.Floor ==> BelowFrom(hash, i, t)
    ensures hash[i] > t.Floor ==> !BelowFrom(hash, i, t)
    ensures hash[i] == t.Floor && Fraction(t) == 0.0 ==> !BelowFrom(hash, i, t)
    ensures hash[i] == t.Floor && i + 1 < |hash| ==>
      (BelowFrom(hash, i, t) <==> BelowFrom(hash, i + 1, Fraction(t) * 256.0))
  {
    var tail := hash[i..];
    FirstByte(tail);
    assert tail[1..] == hash[i + 1..];
    var scale, rest := Power256(|tail| - 1), BigEndian(tail[1..]);
    ByteDecides(tail[0], t, rest, scale);
    UnitScale(scale);
    if i + 1 < |hash| {
      TimesScaled(Fraction(t), Power256(|tail| - 2));
      assert scale == 256 * Power256(|tail| - 2);
    }
    hide *;
    BelowIs(hash, i, t);
    if i + 1 < |hash| {
      BelowIs(hash, i + 1, Fraction(t) * 256.0);
    }
  }

  lemma BelowIs(hash: Bytes, i: nat, t: real)
    requires i < |hash|
    ensures BelowFrom(hash, i, t) <==> BigEndian(hash[i..]) as real < Times(t, Power256(|hash| - 1 - i))
  {
  }

  // Below the target: everything for a difficulty of zero or less, otherwise
  // `threshold` with its whole part lined up with byte n.
  ghost predicate BelowTarget(hash: Bytes, bits: real, threshold: real)
    requires bits > 0.0 ==> WholeBytes(bits) < |hash|
  {
    bits <= 0.0 || BigEndian(hash) as real < Times(threshold, Power256(|hash| - 1 - WholeBytes(bits)))
  }

  // What the target is. A difficulty of n bytes and r bits, and perhaps a fraction, lines
  // the threshold up with byte n; a threshold of 2^(8 - r), as without fraction, makes the
  // target 2^(256 - 8n - r), and any within a bit below that makes it lie between that and its half.
  lemma TargetIs(hash: Bytes, bits: real, threshold: real, n: nat, r: nat)
    requires |hash| == 32 && 0.0 < bits <= 127.0 && r < 8
    requires (8 * n + r) as real <= bits < (8 * n + r + 1) as real
    ensures n <= 15
    ensures var below := BelowTarget(hash, bits, threshold);
      && (below <==> BigEndian(hash) as real < threshold * Power256(31 - n) as real)
      && (threshold == Pow2(8 - r) as real ==> (below <==> BigEndian(hash) < Pow2(256 - 8 * n - r)))
      && (threshold >= Pow2(7 - r) as real && BigEndian(hash) < Pow2(255 - 8 * n - r) ==> below)
      && (threshold <= Pow2(8 - r) as real && below ==> BigEndian(hash) < Pow2(256 - 8 * n - r))
  {
    WholeBytesOf(bits, n, r);
    hide BigEndian, Power256, Pow2, WholeBytes;
    TargetAt(hash, bits, threshold, n);
    hide BelowTarget, Times;
    LinedUp(n, 8 - r);
    LinedUp(n, 7 - r);
    Squeezed(BigEndian(hash), threshold, Power256(31 - n), Pow2(8 - r), Pow2(256 - 8 * n - r));
    Squeezed(BigEndian(hash), threshold, Power256(31 - n), Pow2(7 - r), Pow2(255 - 8 * n - r));
  }

  lemma TargetAt(hash: Bytes, bits: real, threshold: real, n: nat)
    requires |hash| == 32 && bits > 0.0 && WholeBytes(bits) == n <= 15
    ensures BelowTarget(hash, bits, threshold) <==> BigEndian(hash) as real < Times(threshold, Power256(31 - n))
    ensures Times(threshold, Power256(31 - n)) == threshold * Power256(31 - n) as real
  {
    hide BigEndian, WholeBytes, Power256;
  }

  // Where a threshold stands to a power, the target stands to what that lines up with.
  lemma Squeezed(x: nat, t: real, p: nat, e: nat, total: nat)
    requires Times(e as real, p) == total as real
    ensures t == e as real ==> (x as real < Times(t, p) <==> x < total)
    ensures t >= e as real && x < total ==> x as real < Times(t, p)
    ensures t <= e as real && x as real < Times(t, p) ==> x < total
  {
    if t >= e as real {
      ScaleUp(e as real, t, p);
    }
    if t <= e as real {
      ScaleUp(t, e as real, p);
    }
  }

  lemma WholeBytesOf(bits: real, n: nat, r: nat)
    requires 0.0 < bits <= 127.0 && r < 8 && (8 * n + r) as real <= bits < (8 * n + r + 1) as real
    ensures WholeBytes(bits) == n <= 15
  {
    assert 8.0 * n as real <= bits < 8.0 * (n + 1) as real;
  }

  lemma LinedUp(n: nat, e: nat)
    requires n <= 15
    ensures Times(Pow2(e) as real, Power256(31 - n)) == Pow2(248 - 8 * n + e) as real
  {
    Power256IsPow2(31 - n);
    Pow2Add(e, 8 * (31 - n));
    hide Pow2, Power256;
    assert e + 8 * (31 - n) == 248 - 8 * n + e;
  }

  // Past the zero bytes the comparison is about the rest; a nonzero one among them settles it.
  lemma PastZeros(hash: Bytes, bits: real, n: nat, threshold: real)
    requires bits > 0.0 && n == WholeBytes(bits) < |hash| && threshold <= 256.0
    ensures (forall i :: 0 <= i < n ==> hash[i] == 0) ==>
      (BelowFrom(hash, n, threshold) <==> BelowTarget(hash, bits, threshold))
    ensures (exists i :: 0 <= i < n && hash[i] != 0) ==> !BelowTarget(hash, bits, threshold)
  {
    LeadingBytes(hash, n);
    ScaleUp(threshold, 256.0, Power256(|hash| - 1 - n));
    TimesScaled(1.0, Power256(|hash| - 1 - n));
    UnitScale(256 * Power256(|hash| - 1 - n));
    hide BigEndian, Times;
  }

  // `threshold` stands for pow(2.0, 8.0 - remainder), a double between 1 and 256
  // and so a whole number of 2^-52.
  method MeetsDifficulty(hash: Bytes, bits: real, threshold: real) returns (ok: bool)
    requires |hash| == HASH_BYTES && bits <= 127.0
    requires 1.0 <= threshold <= 256.0 && Dyadic(threshold, 52)
    requires bits > 0.0 && Remainder(bits) == 0.0 ==> threshold == 256.0
    ensures ok <==> BelowTarget(hash, bits, threshold)
    ensures bits <= 0.0 ==> ok
  {
    if bits <= 0.0 {
      return true;
    }
    var n := WholeBytes(bits);
    assert n <= 15;
    hide *;
    PastZeros(hash, bits, n, threshold);
    for i := 0 to n
      invariant forall j :: 0 <= j < i ==> hash[j] == 0
    {
      if hash[i] != 0 {
        return false;
      }
    }
    if Remainder(bits) == 0.0 {
      TailBelow(hash, n);
      return true;
    }
    var t := threshold;
    FinerIsDyadic(t, 52);
    FinerIsDyadic(t, 53);
    FinerIsDyadic(t, 54);
    FinerIsDyadic(t, 55);
    for i := n to HASH_BYTES
      invariant i <= n + 7 && Dyadic(t, 56 - 8 * (i - n))
      invariant i < HASH_BYTES && (BelowFrom(hash, i, t) <==> BelowFrom(hash, n, threshold))
    {
      Turn(hash, i, t);
      if hash[i] < t.Floor {
        return true;
      }
      if hash[i] > t.Floor {
        return false;
      }
      if Fraction(t) == 0.0 {
        return false;
      }
      if i == n + 7 {
        WholeHasNoFraction(t);
      } else {
        FractionShrinks(t, 56 - 8 * (i - n));
      }
      t := Fraction(t) * 256.0;
    }
    assert false;
  }

  lemma TailBelow(hash: Bytes, n: nat)
    requires n < |hash|
    ensures BelowFrom(hash, n, 256.0)
  {
    BigEndianBound(hash[n..]);
    TimesScaled(1.0, Power256(|hash| - 1 - n));
    UnitScale(256 * Power256(|hash| - 1 - n));
    hide BigEndian, Times;
  }
}
