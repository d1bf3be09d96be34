/** Reading the payload bytes of a bech32 address with an accumulator that is never masked. */
module Wordcode {
  import opened Prelude
  import opened ByteOrder

  const CHARSET: string := "qpzry9x8gf2tvdw0s3jn54khce6mua7l"
  const CHECKSUM_CHARS := 6

  type Group = x: int | 0 <= x < 32

  // -------------------------------------------------------------------------
  // Strings
  // -------------------------------------------------------------------------

  // The first index of `ch` from `i` on, or -1.
  function IndexOf(s: string, ch: char, i: nat): int
    requires i <= |s|
    decreases |s| - i
  {
    if i == |s| then -1 else if s[i] == ch then i else IndexOf(s, ch, i + 1)
  }

  function LastIndexOf(s: string, ch: char): int {
    if s == "" then -1 else if Last(s) == ch then |s| - 1 else LastIndexOf(Front(s), ch)
  }

  // `s.slice(from, -drop)`
  function Slice(s: string, from: nat, drop: nat): string {
    if from + drop <= |s| then s[from..|s| - drop] else ""
  }

  function Value(ch: char): int {
    IndexOf(CHARSET, ch, 0)
  }

  ghost predicate InCharset(s: string) {
    forall i :: 0 <= i < |s| ==> Value(s[i]) != -1
  }

  lemma {:induction false} IndexOfFinds(s: string, ch: char, i: nat)
    requires i <= |s|
    ensures var k := IndexOf(s, ch, i);
      if k == -1 then ch !in s[i..] else i <= k < |s| && s[k] == ch && ch !in s[i..k]
    decreases |s| - i
  {
    if i < |s| {
      IndexOfFinds(s, ch, i + 1);
      assert s[i..] == [s[i]] + s[i + 1..];
      var k := IndexOf(s, ch, i + 1);
      if k != -1 {
        assert s[i..k] == [s[i]] + s[i + 1..k];
      }
    }
  }

  // The position of each character, by name.
  function Rank(ch: char): nat {
    match ch
    case 'q' => 0 case 'p' => 1 case 'z' => 2 case 'r' => 3 case 'y' => 4 case '9' => 5 case 'x' => 6 case '8' => 7
    case 'g' => 8 case 'f' => 9 case '2' => 10 case 't' => 11
    case 'v' => 12 case 'd' => 13 case 'w' => 14 case '0' => 15
    case 's' => 16 case '3' => 17 case 'j' => 18 case 'n' => 19
    case '5' => 20 case '4' => 21 case 'k' => 22 case 'h' => 23
    case 'c' => 24 case 'e' => 25 case '6' => 26 case 'm' => 27
    case 'u' => 28 case 'a' => 29 case '7' => 30 case 'l' => 31
    case _ => 32
  }

  lemma CharsetRanks(i: nat)
    requires i < 32
    ensures |CHARSET| == 32 && Rank(CHARSET[i]) == i
  {
  }

  // The character of value `v` is found at `v`.
  lemma ValueOfChar(v: Group)
    ensures Value(CHARSET[v]) == v
  {
    IndexOfFinds(CHARSET, CHARSET[v], 0);
    hide Rank, IndexOf;
    CharsetRanks(v);
    var k := IndexOf(CHARSET, CHARSET[v], 0);
    assert CHARSET[v] in CHARSET[0..];
    CharsetRanks(k);
  }

  // -------------------------------------------------------------------------
  // Groups of five bits
  // -------------------------------------------------------------------------

  // Groups read as one number, most significant first.
  function Base32(gs: seq<Group>): nat {
    if gs == [] then 0 else Base32(Front(gs)) * 32 + Last(gs)
  }

  // Bits of `m` groups that fill no whole byte.
  function Spare(m: nat): (k: nat)
    ensures k < 8
  {
    5 * m % 8
  }

  function WholeBytes(m: nat): nat {
    5 * m / 8
  }

  function DropBits(v: nat, k: nat): nat {
    DivIsNat(v, Pow2(k));
    v / Pow2(k)
  }

  lemma DivIsNat(v: nat, d: nat)
    requires d > 0
    ensures v / d >= 0
  {
    DivModIs(v, d);
    if v / d < 0 {
      MulGap(v / d, 0, d);
    }
  }

  // The whole bytes in a run of groups, spare low bits dropped.
  function Regrouped(gs: seq<Group>): Bytes {
    ToBytes(DropBits(Base32(gs), Spare(|gs|)), WholeBytes(|gs|))
  }

  function Digits(v: nat, m: nat): (gs: seq<Group>)
    ensures |gs| == m
  {
    if m == 0 then [] else Digits(v / 32, m - 1) + [v % 32]
  }

  // Enough groups for `n` bytes, and the zero bits that fill the last one.
  function GroupCount(n: nat): nat {
    (8 * n + 4) / 5
  }

  function Padding(n: nat): (p: nat)
    ensures p < 5
  {
    5 * GroupCount(n) - 8 * n
  }

  // 8-to-5 regrouping with zero padding.
  function Groups(s: Bytes): seq<Group> {
    Digits(BigEndian(s) * Pow2(Padding(|s|)), GroupCount(|s|))
  }

  lemma {:induction false} DigitsInvert(v: nat, m: nat)
    requires v < Pow2(5 * m)
    ensures Base32(Digits(v, m)) == v
  {
    if m > 0 {
      assert Pow2(5 * m) == 32 * Pow2(5 * (m - 1)) by {
        Pow2Five(5 * m);
      }
      DigitsInvert(v / 32, m - 1);
      assert Front(Digits(v, m)) == Digits(v / 32, m - 1);
    }
  }

  lemma Pow2Five(k: nat)
    requires k >= 5
    ensures Pow2(k) == 32 * Pow2(k - 5)
  {
    assert Pow2(k) == 2 * Pow2(k - 1) && Pow2(k - 1) == 2 * Pow2(k - 2) && Pow2(k - 2) == 2 * Pow2(k - 3);
    assert Pow2(k - 3) == 2 * Pow2(k - 4) && Pow2(k - 4) == 2 * Pow2(k - 5);
  }

  lemma {:induction false} BytesOfNumber(s: Bytes)
    ensures ToBytes(BigEndian(s), |s|) == s
  {
    if s != [] {
      BytesOfNumber(Front(s));
      assert BigEndian(s) / 256 == BigEndian(Front(s)) && BigEndian(s) % 256 == Last(s);
      assert s == Front(s) + [Last(s)];
    }
  }

  lemma QuotientIs(x: int, q: int, r: nat, d: nat)
    requires x == q * d + r && r < d
    ensures x / d == q
  {
    DivModIs(x, d);
    OneQuotient(q, r, x / d, x % d, d);
  }

  lemma DivModIs(x: int, d: nat)
    requires d > 0
    ensures x == x / d * d + x % d
  {
  }

  lemma OneQuotient(q: int, r: nat, q': int, r': nat, d: nat)
    requires r < d && r' < d && q * d + r == q' * d + r'
    ensures q == q'
  {
    if q < q' {
      MulGap(q, q', d);
    } else if q' < q {
      MulGap(q', q, d);
    }
  }

  lemma DivShift(v: int, m: int, d: nat)
    requires d > 0
    ensures (v + m * d) / d == v / d + m
  {
    DivModIs(v, d);
    assert (v / d + m) * d == v / d * d + m * d;
    QuotientIs(v + m * d, v / d + m, v % d, d);
  }

  lemma MulBelow(a: nat, b: nat, p: nat)
    requires a < b && p > 0
    ensures a * p < b * p
  {
  }

  lemma RegroupedIs(gs: seq<Group>)
    ensures Regrouped(gs) == ToBytes(DropBits(Base32(gs), Spare(|gs|)), WholeBytes(|gs|))
  {
  }

  lemma GroupsAre(s: Bytes)
    ensures Groups(s) == Digits(BigEndian(s) * Pow2(Padding(|s|)), GroupCount(|s|))
  {
  }

  lemma ShiftedOut(v: nat, k: nat)
    ensures Pow2(k) > 0 && v * Pow2(k) >= 0 && DropBits(v * Pow2(k), k) == v
  {
    DivShift(0, v, Pow2(k));
  }

  lemma GroupBits(n: nat)
    ensures 5 * GroupCount(n) == 8 * n + Padding(n)
    ensures Spare(GroupCount(n)) == Padding(n) && WholeBytes(GroupCount(n)) == n
  {
    WholeAndSpare(GroupCount(n), n, Padding(n));
  }

  lemma WholeAndSpare(m: nat, n: nat, p: nat)
    requires 5 * m == 8 * n + p && p < 8
    ensures Spare(m) == p && WholeBytes(m) == n
  {
  }

  // Regrouping into fives and back returns every byte string.
  lemma GroupsInvert(s: Bytes)
    ensures Regrouped(Groups(s)) == s
  {
    var n, m, p := |s|, GroupCount(|s|), Padding(|s|);
    GroupBits(n);
    hide *;
    BigEndianBound(s);
    Power256IsPow2(n);
    Pow2Add(8 * n, p);
    ShiftedOut(BigEndian(s), p);
    MulBelow(BigEndian(s), Pow2(8 * n), Pow2(p));
    DigitsInvert(BigEndian(s) * Pow2(p), m);
    BytesOfNumber(s);
    RegroupedIs(Groups(s));
    GroupsAre(s);
  }

  // -------------------------------------------------------------------------
  // The accumulator
  // -------------------------------------------------------------------------

  const INT32_SPAN: int := 0x1_0000_0000

  // What a JavaScript bit operation leaves of an integer.
  function ToInt32(x: int): int {
    var u := x % INT32_SPAN;
    if u >= 0x8000_0000 then u - INT32_SPAN else u
  }

  // `(bits << 5) | value`: the low five bits of the shifted word are clear.
  function Push(bits: int, value: Group): int {
    ToInt32(bits * 32 + value)
  }

  // `(bits >> k) & 0xff`
  function ByteAt(bits: int, k: nat): byte {
    bits / Pow2(k) % 256
  }

  // The wrapped accumulator and the number it stands for agree on the low 32 bits.
  ghost predicate Wraps(bits: int, value: nat) {
    (bits - value) % INT32_SPAN == 0
  }

  lemma PushWraps(bits: int, value: nat, g: Group)
    requires Wraps(bits, value)
    ensures Wraps(Push(bits, g), value * 32 + g)
  {
    var q := (bits - value) / INT32_SPAN;
    assert bits == value + q * INT32_SPAN;
    assert (bits * 32 + g) - (value * 32 + g) == (32 * q) * INT32_SPAN;
  }

  lemma KeepByte(v: int, n: int, d: nat)
    requires d > 0
    ensures (v + 256 * n * d) / d % 256 == v / d % 256
  {
    DivShift(v, 256 * n, d);
  }

  // Hence they agree on any byte that ends within them.
  lemma WrappedByte(bits: int, value: nat, k: nat)
    requires Wraps(bits, value) && k <= 4
    ensures ByteAt(bits, k) == DropBits(value, k) % 256
  {
    var q := (bits - value) / INT32_SPAN;
    assert bits == value + q * INT32_SPAN;
    SmallPowers(k);
    hide Pow2, Wraps;
    match k {
      case 0 => KeepByte(value, q * 0x100_0000, 1);
      case 1 => KeepByte(value, q * 0x80_0000, 2);
      case 2 => KeepByte(value, q * 0x40_0000, 4);
      case 3 => KeepByte(value, q * 0x20_0000, 8);
      case 4 => KeepByte(value, q * 0x10_0000, 16);
    }
  }

  lemma SmallPowers(k: nat)
    requires k <= 4
    ensures Pow2(k) == [1, 2, 4, 8, 16][k]
  {
    assert Pow2(1) == 2 && Pow2(2) == 4 && Pow2(3) == 8;
  }

  // -------------------------------------------------------------------------
  // Decoding
  // -------------------------------------------------------------------------

  function GroupOf(ch: char): Group
    requires Value(ch) != -1
  {
    ValueRange(ch);
    Value(ch)
  }

  function ValuesOf(data: string): (gs: seq<Group>)
    requires InCharset(data)
    ensures |gs| == |data|
  {
    seq(|data|, i requires 0 <= i < |data| => GroupOf(data[i]))
  }

  lemma ValueRange(ch: char)
    ensures Value(ch) == -1 || 0 <= Value(ch) < 32
  {
    IndexOfFinds(CHARSET, ch, 0);
  }

  // The characters between the last '1' and the checksum.
  function Payload(addr: string): string {
    LastIndexRange(addr, '1');
    Slice(addr, LastIndexOf(addr, '1') + 1, CHECKSUM_CHARS)
  }

  ghost function Decoded(addr: string): Option<Bytes> {
    if LastIndexOf(addr, '1') < 1 || !InCharset(Payload(addr)) then None else Some(Regrouped(ValuesOf(Payload(addr))))
  }

  lemma {:induction false} LastIndexRange(s: string, ch: char)
    ensures -1 <= LastIndexOf(s, ch) < |s|
  {
    if s != "" {
      LastIndexRange(Front(s), ch);
    }
  }

  // The loop's state after the groups `gs`: what is emitted and how many bits wait.
  ghost predicate Progress(gs: seq<Group>, bits: int, bitCount: nat, bytes: Bytes) {
    && bitCount == Spare(|gs|)
    && bytes == Regrouped(gs)
    && Wraps(bits, Base32(gs))
  }

  lemma NextValue(gs: seq<Group>, g: Group)
    ensures Base32(gs + [g]) == Base32(gs) * 32 + g
  {
    assert Front(gs + [g]) == gs;
  }

  // Shifting out a whole group.
  lemma ShiftGroupOut(v: nat, g: Group, k: nat)
    ensures DropBits(v * 32 + g, k + 5) == DropBits(v, k)
  {
    var p := Pow2(k);
    Pow2Five(k + 5);
    hide Pow2;
    var q, r := v / p, v % p;
    DivModIs(v, p);
    assert v * 32 + g == q * (32 * p) + (32 * r + g);
    QuotientIs(v * 32 + g, q, 32 * r + g, 32 * p);
  }

  lemma ShiftByte(v: nat, k: nat)
    ensures DropBits(v, k + 8) == DropBits(v, k) / 256
  {
    var p := Pow2(k);
    EightMore(k);
    hide Pow2;
    var q, r, y, z := v / p, v % p, v / p / 256, v / p % 256;
    DivModIs(v, p);
    assert q * p == (y * 256 + z) * p == y * (256 * p) + z * p;
    MulGap(z, 256, p);
    QuotientIs(v, y, z * p + r, 256 * p);
  }

  lemma EightMore(k: nat)
    ensures Pow2(k + 8) == 256 * Pow2(k)
  {
    Pow2Five(k + 8);
    assert Pow2(k + 3) == 2 * Pow2(k + 2) && Pow2(k + 2) == 2 * Pow2(k + 1);
  }

  lemma BitCounts(m: nat)
    ensures Spare(m) < 3 ==> Spare(m + 1) == Spare(m) + 5 && WholeBytes(m + 1) == WholeBytes(m)
    ensures Spare(m) >= 3 ==> Spare(m + 1) == Spare(m) - 3 && WholeBytes(m + 1) == WholeBytes(m) + 1
  {
  }

  lemma ProgressMeans(gs: seq<Group>, bits: int, bitCount: nat, bytes: Bytes)
    ensures Progress(gs, bits, bitCount, bytes) <==>
      && bitCount == Spare(|gs|)
      && bytes == ToBytes(DropBits(Base32(gs), bitCount), WholeBytes(|gs|))
      && Wraps(bits, Base32(gs))
  {
    hide Wraps, Pow2, Base32, ToBytes, Spare, WholeBytes, DropBits;
  }

  // One more group, when it completes no byte...
  lemma NoByteYet(gs: seq<Group>, g: Group, bits: int, bitCount: nat, bytes: Bytes)
    requires Progress(gs, bits, bitCount, bytes) && bitCount + 5 < 8
    ensures Progress(gs + [g], Push(bits, g), bitCount + 5, bytes)
  {
    hide *;
    ProgressMeans(gs, bits, bitCount, bytes);
    PushWraps(bits, Base32(gs), g);
    NextValue(gs, g);
    ShiftGroupOut(Base32(gs), g, bitCount);
    BitCounts(|gs|);
    ProgressMeans(gs + [g], Push(bits, g), bitCount + 5, bytes);
  }

  // ...and when it does.
  lemma OneByteMore(gs: seq<Group>, g: Group, bits: int, bitCount: nat, bytes: Bytes)
    requires Progress(gs, bits, bitCount, bytes) && 3 <= bitCount < 8
    ensures Progress(gs + [g], Push(bits, g), bitCount - 3, bytes + [ByteAt(Push(bits, g), bitCount - 3)])
  {
    hide *;
    ProgressMeans(gs, bits, bitCount, bytes);
    var value, k: nat := Base32(gs) * 32 + g, bitCount - 3;
    PushWraps(bits, Base32(gs), g);
    NextValue(gs, g);
    BitCounts(|gs|);
    WrappedByte(Push(bits, g), value, k);
    ToBytesStep(DropBits(value, k), WholeBytes(|gs|));
    ShiftGroupOut(Base32(gs), g, bitCount);
    ShiftByte(value, k);
    assert k + 8 == bitCount + 5;
    ProgressMeans(gs + [g], Push(bits, g), k, bytes + [ByteAt(Push(bits, g), k)]);
  }

  lemma ToBytesStep(x: nat, w: nat)
    ensures ToBytes(x, w + 1) == ToBytes(x / 256, w) + [x % 256]
  {
  }

  // bech32ToBytes
  method BechToBytes(addr: string) returns (r: Option<Bytes>)
    ensures r == Decoded(addr)
  {
    var sepIdx := LastIndexOf(addr, '1');
    if sepIdx < 1 {
      return None;
    }
    var data := Slice(addr, sepIdx + 1, CHECKSUM_CHARS);
    var bits: int, bitCount: nat := 0, 0;
    var bytes: Bytes := [];
    ghost var gs: seq<Group> := [];
    assert Progress(gs, bits, bitCount, bytes);
    hide Progress, Regrouped, Push, ByteAt, Value, Pow2, Base32, ToBytes;
    for i := 0 to |data|
      invariant InCharset(data[..i]) && gs == ValuesOf(data[..i])
      invariant bitCount < 8 && Progress(gs, bits, bitCount, bytes)
    {
      var val := Value(data[i]);
      ValueRange(data[i]);
      if val == -1 {
        return None;
      }
      if bitCount + 5 >= 8 {
        OneByteMore(gs, val, bits, bitCount, bytes);
        bits := Push(bits, val);
        bytes := bytes + [ByteAt(bits, bitCount - 3)];
        bitCount := bitCount + 5 - 8;
      } else {
        NoByteYet(gs, val, bits, bitCount, bytes);
        bits := Push(bits, val);
        bitCount := bitCount + 5;
      }
      gs := gs + [val];
      assert data[..i + 1] == data[..i] + [data[i]];
    }
    assert data[..|data|] == data;
    ProgressTells(gs, bits, bitCount, bytes);
    return Some(bytes);
  }

  lemma ProgressTells(gs: seq<Group>, bits: int, bitCount: nat, bytes: Bytes)
    requires Progress(gs, bits, bitCount, bytes)
    ensures bytes == Regrouped(gs)
  {
  }

  // -------------------------------------------------------------------------
  // Addresses
  // -------------------------------------------------------------------------

  function CharsOf(gs: seq<Group>): (s: string)
    ensures |s| == |gs|
  {
    seq(|gs|, i requires 0 <= i < |gs| => CharsetRanks(gs[i]); CHARSET[gs[i]])
  }

  lemma CharsBack(gs: seq<Group>)
    ensures InCharset(CharsOf(gs)) && ValuesOf(CharsOf(gs)) == gs
  {
    hide Value;
    forall i | 0 <= i < |gs| ensures Value(CharsOf(gs)[i]) == gs[i] {
      ValueOfChar(gs[i]);
    }
  }

  lemma NoSeparatorInside(s: string)
    requires InCharset(s)
    ensures '1' !in s
  {
    hide Value;
    assert Value('1') == -1 by {
      OneIsOutside();
    }
  }

  lemma OneIsOutside()
    ensures Value('1') == -1
  {
    IndexOfFinds(CHARSET, '1', 0);
    hide IndexOf, Rank;
    var k := Value('1');
    if k != -1 {
      CharsetRanks(k);
      OneHasNoRank();
    }
  }

  lemma OneHasNoRank()
    ensures Rank('1') == 32
  {
  }

  lemma {:induction false} LastSeparator(hrp: string, tail: string)
    requires '1' !in tail
    ensures LastIndexOf(hrp + "1" + tail, '1') == |hrp|
  {
    var s := hrp + "1" + tail;
    if tail == "" {
      assert s == hrp + "1";
    } else {
      assert Front(s) == hrp + "1" + Front(tail) && Last(s) == Last(tail);
      LastSeparator(hrp, Front(tail));
    }
  }

  // Every payload comes back out of every address that carries it, whatever the
  // prefix and the checksum.
  lemma AddressRoundTrip(hrp: string, payload: Bytes, checksum: seq<Group>)
    requires |hrp| >= 1 && |checksum| == CHECKSUM_CHARS
    ensures Decoded(hrp + "1" + CharsOf(Groups(payload)) + CharsOf(checksum)) == Some(payload)
  {
    var data, sum := CharsOf(Groups(payload)), CharsOf(checksum);
    var addr := hrp + "1" + data + sum;
    hide Value, Groups, Regrouped, CharsOf;
    CharsBack(Groups(payload));
    CharsBack(checksum);
    GroupsInvert(payload);
    NoSeparatorInside(data + sum);
    assert addr == hrp + "1" + (data + sum);
    LastSeparator(hrp, data + sum);
    assert Payload(addr) == data;
  }
}
