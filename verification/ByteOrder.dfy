/** Byte strings as big-endian numbers and in the lexicographic order of a key-value store. */
module ByteOrder {
  import opened Prelude

  function BigEndian(s: Bytes): nat {
    if s == [] then 0 else BigEndian(Front(s)) * 256 + Last(s)
  }

  function Power256(n: nat): (r: nat)
    ensures r > 0
  {
    if n == 0 then 1 else 256 * Power256(n - 1)
  }

  lemma {:induction false} BigEndianSplit(s: Bytes)
    requires |s| > 0
    ensures BigEndian(s) == s[0] * Power256(|s| - 1) + BigEndian(s[1..])
  {
    if |s| == 1 {
      assert Front(s) == [] && s[1..] == [];
    } else {
      var f := Front(s);
      BigEndianSplit(f);
      assert Front(s[1..]) == f[1..];
      var p: nat := Power256(|f| - 1);
      assert (f[0] * p + BigEndian(f[1..])) * 256 + Last(s) == f[0] * (256 * p) + (BigEndian(f[1..]) * 256 + Last(s));
    }
  }

  lemma {:induction false} BigEndianBound(s: Bytes)
    ensures BigEndian(s) < Power256(|s|)
  {
    if s != [] {
      BigEndianBound(Front(s));
    }
  }

  lemma {:induction false} Pow2Add(m: nat, n: nat)
    ensures Pow2(m + n) == Pow2(m) * Pow2(n)
  {
    if m > 0 {
      Pow2Add(m - 1, n);
      assert Pow2(m + n) == 2 * Pow2(m + n - 1);
    }
  }

  lemma {:induction false} Power256IsPow2(n: nat)
    ensures Power256(n) == Pow2(8 * n)
  {
    if n > 0 {
      Power256IsPow2(n - 1);
      Pow2Add(8, 8 * (n - 1));
      assert Pow2(8) == 256 by {
        assert Pow2(4) == 16;
        Pow2Add(4, 4);
      }
    }
  }

  // The `width` low-order bytes of `n`, most significant first (to_be_bytes).
  function ToBytes(n: nat, width: nat): (s: Bytes)
    ensures |s| == width
  {
    if width == 0 then [] else ToBytes(n / 256, width - 1) + [n % 256]
  }

  lemma {:induction false} ToBytesInverts(n: nat, width: nat)
    requires n < Power256(width)
    ensures BigEndian(ToBytes(n, width)) == n
  {
    if width > 0 {
      ToBytesInverts(n / 256, width - 1);
      assert Front(ToBytes(n, width)) == ToBytes(n / 256, width - 1);
    }
  }

  // -------------------------------------------------------------------------
  // Lexicographic order
  // -------------------------------------------------------------------------

  predicate Less(a: Bytes, b: Bytes) {
    b != [] && (a == [] || a[0] < b[0] || (a[0] == b[0] && Less(a[1..], b[1..])))
  }

  lemma {:induction false} LessIrreflexive(a: Bytes)
    ensures !Less(a, a)
  {
    if a != [] {
      LessIrreflexive(a[1..]);
    }
  }

  lemma {:induction false} LessTransitive(a: Bytes, b: Bytes, c: Bytes)
    requires Less(a, b) && Less(b, c)
    ensures Less(a, c)
  {
    if a != [] && a[0] == b[0] == c[0] {
      LessTransitive(a[1..], b[1..], c[1..]);
    }
  }

  lemma {:induction false} LessTotal(a: Bytes, b: Bytes)
    ensures Less(a, b) || a == b || Less(b, a)
  {
    if a != [] && b != [] && a[0] == b[0] {
      LessTotal(a[1..], b[1..]);
      assert a == [a[0]] + a[1..] && b == [b[0]] + b[1..];
    }
  }

  lemma {:induction false} LessCommonPrefix(p: Bytes, a: Bytes, b: Bytes)
    ensures Less(p + a, p + b) <==> Less(a, b)
  {
    if p == [] {
      assert p + a == a && p + b == b;
    } else {
      LessCommonPrefix(p[1..], a, b);
      assert (p + a)[1..] == p[1..] + a && (p + b)[1..] == p[1..] + b;
    }
  }

  // On strings of one length, the leading parts decide unless they are equal.
  lemma {:induction false} LessBlocks(p: Bytes, q: Bytes, a: Bytes, b: Bytes)
    requires |p| == |q|
    ensures Less(p + a, q + b) <==> Less(p, q) || (p == q && Less(a, b))
  {
    if p == [] {
      assert p + a == a && q + b == b;
    } else {
      LessBlocks(p[1..], q[1..], a, b);
      assert (p + a)[1..] == p[1..] + a && (q + b)[1..] == q[1..] + b;
      assert p == [p[0]] + p[1..] && q == [q[0]] + q[1..];
    }
  }

  lemma {:induction false} ToBytesOrder(m: nat, n: nat, width: nat)
    requires m < Power256(width) && n < Power256(width)
    ensures Less(ToBytes(m, width), ToBytes(n, width)) <==> m < n
    ensures ToBytes(m, width) == ToBytes(n, width) <==> m == n
  {
    if width > 0 {
      ToBytesOrder(m / 256, n / 256, width - 1);
      LessBlocks(ToBytes(m / 256, width - 1), ToBytes(n / 256, width - 1), [m % 256], [n % 256]);
      ToBytesInverts(m, width);
      ToBytesInverts(n, width);
      assert Less([m % 256], [n % 256]) <==> m % 256 < n % 256;
    } else {
      LessIrreflexive([]);
    }
  }

  // -------------------------------------------------------------------------
  // Sorted listings of a set of keys
  // -------------------------------------------------------------------------

  ghost predicate Sorted(s: seq<Bytes>) {
    forall i, j :: 0 <= i < j < |s| ==> Less(s[i], s[j])
  }

  lemma {:induction false} LeastExists(keys: set<Bytes>) returns (m: Bytes)
    requires keys != {}
    ensures m in keys && forall k :: k in keys && k != m ==> Less(m, k)
    decreases |keys|
  {
    m :| m in keys;
    if keys - {m} != {} {
      var n := LeastExists(keys - {m});
      LessTotal(m, n);
      if Less(n, m) {
        m := n;
      } else {
        forall k | k in keys && k != m ensures Less(m, k) {
          if k != n {
            LessTransitive(m, n, k);
          }
        }
      }
    }
  }
}
