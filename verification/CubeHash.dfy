/**
 * CubeHash16+16/32+32-256: the specification, and the kernel that computes it on
 * a state whose words are reversed within each vector and whose last swap is
 * left pending.
 */
module CubeHash {

  type Word = bv32
  type State = x: seq<Word> | |x| == 32 witness seq(32, _ => 0)

  // -------------------------------------------------------------------------
  // The specification (D. J. Bernstein, "CubeHash specification (2.B.1)")
  // -------------------------------------------------------------------------

  function RotL(x: Word, n: nat): Word
    requires n <= 32
  {
    (x << n) | (x >> (32 - n))
  }

  // The index with the bit worth `bit` flipped.
  function Flip(i: nat, bit: nat): nat
    requires bit > 0
  {
    if bit == 1 then (if i % 2 == 0 then i + 1 else i - 1) else 2 * Flip(i / 2, bit / 2) + i % 2
  }

  lemma FlipHalves(i: nat, bit: nat)
    requires bit > 0
    ensures Flip(i, bit) / 2 == if bit == 1 then i / 2 else Flip(i / 2, bit / 2)
    ensures Flip(i, bit) % 2 == if bit == 1 then 1 - i % 2 else i % 2
  {
  }

  lemma FlipStays(i: nat, bit: nat)
    requires bit in {1, 2, 4, 8}
    ensures i < 16 ==> Flip(i, bit) < 16
    ensures 16 <= i < 32 ==> 16 <= Flip(i, bit) < 32
  {
    hide Flip;
    FlipHalves(i, bit);
    match bit {
      case 1 =>
      case 2 => FlipHalves(i / 2, 1);
      case 4 => FlipsQuarter(i);
      case 8 =>
        FlipHalves(i / 2, 4);
        FlipsQuarter(i / 2);
    }
  }

  lemma FlipsQuarter(i: nat)
    ensures Flip(i, 4) / 8 == i / 8
  {
    hide Flip;
    FlipHalves(i, 4);
    FlipHalves(i / 2, 2);
    FlipHalves(i / 4, 1);
  }

  // Add x[0jklm] into x[1jklm].
  function Add(x: State): State {
    seq(32, i requires 0 <= i < 32 => if i < 16 then x[i] else Plus(x[i - 16], x[i]))
  }

  // Rotate x[0jklm] upwards.
  function Rotate(x: State, n: nat): State
    requires n <= 32
  {
    seq(32, i requires 0 <= i < 32 => if i < 16 then RotL(x[i], n) else x[i])
  }

  // Swap pairs of the first sixteen words.
  function SwapLow(x: State, bit: nat): State
    requires bit in {4, 8}
  {
    seq(32, i requires 0 <= i < 32 => if i < 16 then FlipStays(i, bit); x[Flip(i, bit)] else x[i])
  }

  // Xor x[1jklm] into x[0jklm].
  function Xor(x: State): State {
    seq(32, i requires 0 <= i < 32 => if i < 16 then WordXor(x[i], x[i + 16]) else x[i])
  }

  // Swap pairs of the last sixteen words.
  function SwapHigh(x: State, bit: nat): State
    requires bit in {1, 2}
  {
    seq(32, i requires 0 <= i < 32 => if i < 16 then x[i] else FlipStays(i, bit); x[Flip(i, bit)])
  }

  // The ten steps of a round.
  function FirstFive(x: State): State {
    SwapHigh(Xor(SwapLow(Rotate(Add(x), 7), 8)), 2)
  }

  function LastFive(x: State): State {
    SwapHigh(Xor(SwapLow(Rotate(Add(x), 11), 4)), 1)
  }

  function Round(x: State): State {
    LastFive(FirstFive(x))
  }

  function Rounds(x: State, n: nat): State {
    if n == 0 then x else Round(Rounds(x, n - 1))
  }

  type Byte = bv8
  type Chunk = x: seq<Byte> | |x| == 32 witness seq(32, _ => 0)

  function LowByte(w: Word): Byte {
    (w & 0xFF) as Byte
  }

  // Byte `k` of a word in little-endian order.
  function ByteOf(w: Word, k: nat): Byte
    requires k < 4
  {
    match k
    case 0 => LowByte(w)
    case 1 => LowByte(w >> 8)
    case 2 => LowByte(w >> 16)
    case _ => LowByte(w >> 24)
  }

  function Le32(b0: Byte, b1: Byte, b2: Byte, b3: Byte): Word {
    (b0 as Word) | ((b1 as Word) << 8) | ((b2 as Word) << 16) | ((b3 as Word) << 24)
  }

  // The state as 128 bytes.
  function StateByte(x: State, n: nat): Byte
    requires n < 128
  {
    ByteOf(x[n / 4], n % 4)
  }

  function WordAt(bytes: Chunk, i: nat): Word
    requires i < 8
  {
    Le32(bytes[4 * i], bytes[4 * i + 1], bytes[4 * i + 2], bytes[4 * i + 3])
  }

  function WordXor(x: Word, y: Word): Word {
    x ^ y
  }

  function XorBlock(x: State, bytes: Chunk): State {
    seq(32, i requires 0 <= i < 32 => if i < 8 then WordXor(x[i], WordAt(bytes, i)) else x[i])
  }

  function Absorb(x: State, bytes: Chunk): State {
    Rounds(XorBlock(x, bytes), 16)
  }

  // h/8, b and r in the first three words.
  function InitialWords(): State {
    seq(32, i requires 0 <= i < 32 => if i == 0 then 32 else if i == 1 then 32 else if i == 2 then 16 else 0)
  }

  function Initial(): State {
    Rounds(InitialWords(), 16)
  }

  // A 1 bit, then zeros up to a multiple of the block length.
  function Pad(m: seq<Byte>): (r: seq<Byte>)
    ensures |r| % 32 == 0 && |m| < |r| <= |m| + 32
  {
    m + [0x80] + seq(31 - |m| % 32, _ => 0)
  }

  function AbsorbAll(x: State, m: seq<Byte>): State
    requires |m| % 32 == 0
  {
    if m == [] then x else Absorb(AbsorbAll(x, m[..|m| - 32]), m[|m| - 32..])
  }

  function Finish(x: State): State {
    Rounds(x[31 := WordXor(x[31], 1)], 32)
  }

  function Output(x: State): Chunk {
    seq(32, n requires 0 <= n < 32 => StateByte(x, n))
  }

  function Digest(m: seq<Byte>): Chunk {
    Output(Finish(AbsorbAll(Initial(), Pad(m))))
  }

  // The state whose words at these places are given, the others zero.
  function Sparse(words: map<nat, Word>): State {
    seq(32, i requires 0 <= i < 32 => if i in words then words[i] else 0)
  }

  // Where a single bit goes in one round.
  lemma OneBitSpreads()
    ensures Round(Sparse(map[0 := 1])) ==
      Sparse(map[0 := 1, 2 := 1, 4 := 0x800, 8 := 0x80, 12 := 0x4_0000, 17 := 1, 19 := 1, 25 := 0x80])
  {
    OneBitHalfway();
    OneBitToTheEnd();
    hide FirstFive, LastFive;
  }

  lemma OneBitHalfway()
    ensures FirstFive(Sparse(map[0 := 1])) == Sparse(map[0 := 1, 8 := 0x80, 18 := 1])
  {
    Add1();
    Turn1();
    Swap1();
    Mix1();
    Swap2();
    hide Add, Rotate, SwapLow, Xor, SwapHigh, Sparse;
  }

  lemma OneBitToTheEnd()
    ensures LastFive(Sparse(map[0 := 1, 8 := 0x80, 18 := 1])) ==
      Sparse(map[0 := 1, 2 := 1, 4 := 0x800, 8 := 0x80, 12 := 0x4_0000, 17 := 1, 19 := 1, 25 := 0x80])
  {
    Add2();
    Turn2();
    Swap3();
    Mix2();
    Swap4();
    hide Add, Rotate, SwapLow, Xor, SwapHigh, Sparse;
  }

  lemma Add1()
    ensures Add(Sparse(map[0 := 1])) ==
      Sparse(map[0 := 1, 16 := 1])
  {
    hide Flip, RotL, Plus, WordXor;
    SmallTurns();
    var x := Add(Sparse(map[0 := 1]));
    var y := Sparse(map[0 := 1, 16 := 1]);
    forall i | 0 <= i < 32 ensures x[i] == y[i] {
    }
  }

  lemma Turn1()
    ensures Rotate(Sparse(map[0 := 1, 16 := 1]), 7) ==
      Sparse(map[0 := 0x80, 16 := 1])
  {
    hide Flip, RotL, Plus, WordXor;
    SmallTurns();
    var x := Rotate(Sparse(map[0 := 1, 16 := 1]), 7);
    var y := Sparse(map[0 := 0x80, 16 := 1]);
    forall i | 0 <= i < 32 ensures x[i] == y[i] {
    }
  }

  lemma Swap1()
    ensures SwapLow(Sparse(map[0 := 0x80, 16 := 1]), 8) ==
      Sparse(map[8 := 0x80, 16 := 1])
  {
    hide Flip, RotL, Plus, WordXor;
    SmallTurns();
    var x := SwapLow(Sparse(map[0 := 0x80, 16 := 1]), 8);
    var y := Sparse(map[8 := 0x80, 16 := 1]);
    forall i | 0 <= i < 32 ensures x[i] == y[i] {
      FlipEight(i);
    }
  }

  lemma Mix1()
    ensures Xor(Sparse(map[8 := 0x80, 16 := 1])) ==
      Sparse(map[0 := 1, 8 := 0x80, 16 := 1])
  {
    hide Flip, RotL, Plus, WordXor;
    SmallTurns();
    var x := Xor(Sparse(map[8 := 0x80, 16 := 1]));
    var y := Sparse(map[0 := 1, 8 := 0x80, 16 := 1]);
    forall i | 0 <= i < 32 ensures x[i] == y[i] {
    }
  }

  lemma Swap2()
    ensures SwapHigh(Sparse(map[0 := 1, 8 := 0x80, 16 := 1]), 2) ==
      Sparse(map[0 := 1, 8 := 0x80, 18 := 1])
  {
    hide Flip, RotL, Plus, WordXor;
    SmallTurns();
    var x := SwapHigh(Sparse(map[0 := 1, 8 := 0x80, 16 := 1]), 2);
    var y := Sparse(map[0 := 1, 8 := 0x80, 18 := 1]);
    forall i | 0 <= i < 32 ensures x[i] == y[i] {
      FlipTwo(i);
    }
  }

  lemma Add2()
    ensures Add(Sparse(map[0 := 1, 8 := 0x80, 18 := 1])) ==
      Sparse(map[0 := 1, 8 := 0x80, 16 := 1, 18 := 1, 24 := 0x80])
  {
    hide Flip, RotL, Plus, WordXor;
    SmallTurns();
    var x := Add(Sparse(map[0 := 1, 8 := 0x80, 18 := 1]));
    var y := Sparse(map[0 := 1, 8 := 0x80, 16 := 1, 18 := 1, 24 := 0x80]);
    forall i | 0 <= i < 32 ensures x[i] == y[i] {
    }
  }

  lemma Turn2()
    ensures Rotate(Sparse(map[0 := 1, 8 := 0x80, 16 := 1, 18 := 1, 24 := 0x80]), 11) ==
      Sparse(map[0 := 0x800, 8 := 0x4_0000, 16 := 1, 18 := 1, 24 := 0x80])
  {
    hide Flip, RotL, Plus, WordXor;
    SmallTurns();
    var x := Rotate(Sparse(map[0 := 1, 8 := 0x80, 16 := 1, 18 := 1, 24 := 0x80]), 11);
    var y := Sparse(map[0 := 0x800, 8 := 0x4_0000, 16 := 1, 18 := 1, 24 := 0x80]);
    forall i | 0 <= i < 32 ensures x[i] == y[i] {
    }
  }

  lemma Swap3()
    ensures SwapLow(Sparse(map[0 := 0x800, 8 := 0x4_0000, 16 := 1, 18 := 1, 24 := 0x80]), 4) ==
      Sparse(map[4 := 0x800, 12 := 0x4_0000, 16 := 1, 18 := 1, 24 := 0x80])
  {
    hide Flip, RotL, Plus, WordXor;
    SmallTurns();
    var x := SwapLow(Sparse(map[0 := 0x800, 8 := 0x4_0000, 16 := 1, 18 := 1, 24 := 0x80]), 4);
    var y := Sparse(map[4 := 0x800, 12 := 0x4_0000, 16 := 1, 18 := 1, 24 := 0x80]);
    forall i | 0 <= i < 32 ensures x[i] == y[i] {
      FlipFour(i);
    }
  }

  lemma Mix2()
    ensures Xor(Sparse(map[4 := 0x800, 12 := 0x4_0000, 16 := 1, 18 := 1, 24 := 0x80])) ==
      Sparse(map[0 := 1, 2 := 1, 4 := 0x800, 8 := 0x80, 12 := 0x4_0000, 16 := 1, 18 := 1, 24 := 0x80])
  {
    hide Flip, RotL, Plus, WordXor;
    SmallTurns();
    var x := Xor(Sparse(map[4 := 0x800, 12 := 0x4_0000, 16 := 1, 18 := 1, 24 := 0x80]));
    var y := Sparse(map[0 := 1, 2 := 1, 4 := 0x800, 8 := 0x80, 12 := 0x4_0000, 16 := 1, 18 := 1, 24 := 0x80]);
    forall i | 0 <= i < 32 ensures x[i] == y[i] {
    }
  }

  lemma Swap4()
    ensures
      SwapHigh(Sparse(map[0 := 1, 2 := 1, 4 := 0x800, 8 := 0x80, 12 := 0x4_0000, 16 := 1, 18 := 1, 24 := 0x80]), 1) ==
      Sparse(map[0 := 1, 2 := 1, 4 := 0x800, 8 := 0x80, 12 := 0x4_0000, 17 := 1, 19 := 1, 25 := 0x80])
  {
    hide Flip, RotL, Plus, WordXor;
    SmallTurns();
    var x :=
      SwapHigh(Sparse(map[0 := 1, 2 := 1, 4 := 0x800, 8 := 0x80, 12 := 0x4_0000, 16 := 1, 18 := 1, 24 := 0x80]), 1);
    var y := Sparse(map[0 := 1, 2 := 1, 4 := 0x800, 8 := 0x80, 12 := 0x4_0000, 17 := 1, 19 := 1, 25 := 0x80]);
    forall i | 0 <= i < 32 ensures x[i] == y[i] {
      FlipOne(i);
    }
  }

  lemma SmallTurns()
    ensures RotL(0, 7) == 0 && RotL(1, 7) == 0x80 && RotL(0, 11) == 0 && RotL(1, 11) == 0x800
    ensures RotL(0x80, 11) == 0x4_0000
    ensures WordXor(0, 0) == 0 && WordXor(0, 1) == 1 && WordXor(0, 0x80) == 0x80
    ensures WordXor(0x800, 0) == 0x800 && WordXor(0x80, 0) == 0x80 && WordXor(0x4_0000, 0) == 0x4_0000
    ensures Plus(0, 0) == 0 && Plus(0, 1) == 1 && Plus(1, 0) == 1 && Plus(0x80, 0) == 0x80
  {
  }

  lemma FlipOne(i: nat)
    ensures Flip(i, 1) == if i % 2 == 0 then i + 1 else i - 1
  {
  }

  lemma FlipTwo(i: nat)
    ensures Flip(i, 2) == if i % 4 < 2 then i + 2 else i - 2
  {
    assert Flip(i, 2) == 2 * Flip(i / 2, 1) + i % 2;
    hide Flip;
    FlipOne(i / 2);
    HalfTurn(i, 1);
  }

  lemma FlipFour(i: nat)
    ensures Flip(i, 4) == if i % 8 < 4 then i + 4 else i - 4
  {
    assert Flip(i, 4) == 2 * Flip(i / 2, 2) + i % 2;
    hide Flip;
    FlipTwo(i / 2);
    HalfTurn(i, 2);
  }

  lemma FlipEight(i: nat)
    ensures Flip(i, 8) == if i % 16 < 8 then i + 8 else i - 8
  {
    assert Flip(i, 8) == 2 * Flip(i / 2, 4) + i % 2;
    hide Flip;
    FlipFour(i / 2);
    HalfTurn(i, 4);
  }

  // Twice the half and the rest, in the first half of the turn or in the second.
  lemma HalfTurn(i: nat, n: nat)
    requires n in {1, 2, 4}
    ensures i == 2 * (i / 2) + i % 2 && (i % (4 * n) < 2 * n <==> i / 2 % (2 * n) < n)
  {
    hide *;
    var j := i / 2;
    var q, u := j / (2 * n), j % (2 * n);
    match n {
      case 1 => RestOfFour(i, q, 2 * u + i % 2);
      case 2 => RestOfEight(i, q, 2 * u + i % 2);
      case 4 => RestOfSixteen(i, q, 2 * u + i % 2);
    }
  }

  lemma RestOfFour(i: nat, q: nat, r: nat)
    requires r < 4 && i == 4 * q + r
    ensures i % 4 == r
  {
  }

  lemma RestOfEight(i: nat, q: nat, r: nat)
    requires r < 8 && i == 8 * q + r
    ensures i % 8 == r
  {
  }

  lemma RestOfSixteen(i: nat, q: nat, r: nat)
    requires r < 16 && i == 16 * q + r
    ensures i % 16 == r
  {
  }

  // Loading a word and reading its bytes back.
  lemma Le32Bytes(b0: Byte, b1: Byte, b2: Byte, b3: Byte)
    ensures var w := Le32(b0, b1, b2, b3);
      ByteOf(w, 0) == b0 && ByteOf(w, 1) == b1 && ByteOf(w, 2) == b2 && ByteOf(w, 3) == b3
  {
  }

  // -------------------------------------------------------------------------
  // The kernel's half-rounds as functions
  // -------------------------------------------------------------------------

  // x4..x7 with the words before `n` done: the partner's word plus the word below.
  function HighUpTo(s: State, bit: nat, n: nat): State
    requires bit in {1, 2}
  {
    seq(32, i requires 0 <= i < 32 =>
      if i < 16 || n <= i then s[i] else FlipStays(i, bit); Plus(s[i - 16], s[Flip(i, bit)]))
  }

  function KernelHigh(s: State, bit: nat): State
    requires bit in {1, 2}
  {
    HighUpTo(s, bit, 32)
  }

  function Mix(low: Word, rot: nat, high: Word): Word
    requires rot <= 32
  {
    RotL(low, rot) ^ high
  }

  // x0..x3 with the words before `n` done: the partner's word rotated, xor the word above.
  function LowUpTo(s: State, rot: nat, bit: nat, n: nat): State
    requires rot <= 32 && bit in {4, 8} && n <= 16
  {
    seq(32, i requires 0 <= i < 32 => if i < n then FlipStays(i, bit); Mix(s[Flip(i, bit)], rot, s[i + 16]) else s[i])
  }

  function KernelLow(s: State, rot: nat, bit: nat): State
    requires rot <= 32 && bit in {4, 8}
  {
    LowUpTo(s, rot, bit, 16)
  }

  function KernelRound(s: State): State {
    KernelLow(KernelHigh(KernelLow(KernelHigh(s, 1), 7, 8), 2), 11, 4)
  }

  // Words reversed within each vector of four.
  function Mirror(n: nat): nat {
    Flip(Flip(n, 1), 2)
  }

  lemma MirrorStays(n: nat)
    requires n < 32
    ensures Mirror(n) < 32 && (n < 16 <==> Mirror(n) < 16)
    ensures n < 16 ==> Mirror(n + 16) == Mirror(n) + 16
  {
    hide Flip;
    FlipStays(n, 1);
    FlipStays(Flip(n, 1), 2);
    FlipHalves(n, 1);
    FlipHalves(Flip(n, 1), 2);
    FlipHalves(n / 2, 1);
    if n < 16 {
      MirrorShifts(n);
    }
  }

  lemma MirrorShifts(n: nat)
    ensures Mirror(n + 16) == Mirror(n) + 16
  {
    hide Flip;
    FlipHalves(n, 1);
    FlipHalves(Flip(n, 1), 2);
    FlipHalves(n + 16, 1);
    FlipHalves(Flip(n + 16, 1), 2);
    FlipPairs(n / 2);
  }

  lemma FlipPairs(m: nat)
    ensures Flip(m + 8, 1) == Flip(m, 1) + 8
  {
  }

  function Reversed(s: State): State {
    seq(32, i requires 0 <= i < 32 => MirrorStays(i); s[Mirror(i)])
  }

  // The specified state that the kernel's `s` stands for: words are reversed
  // within each vector, and x4..x7 still have the round's last swap to come.
  function Abs(s: State): State {
    SwapHigh(Reversed(s), 1)
  }

  lemma {:induction false} FlipsCommute(i: nat, b: nat, d: nat)
    requires b > 0 && d > 0
    ensures Flip(Flip(i, b), d) == Flip(Flip(i, d), b)
  {
    hide Flip;
    FlipHalves(i, b);
    FlipHalves(i, d);
    FlipHalves(Flip(i, b), d);
    FlipHalves(Flip(i, d), b);
    if b > 1 && d > 1 {
      FlipsCommute(i / 2, b / 2, d / 2);
    }
  }

  // Adding onto the pending swap is what the kernel's indexing does.
  lemma AddRefines(s: State, bit: nat)
    requires bit in {1, 2}
    ensures Add(SwapHigh(Reversed(s), bit)) == Reversed(KernelHigh(s, bit))
  {
    hide Flip, Mirror;
    forall i | 0 <= i < 32 ensures Add(SwapHigh(Reversed(s), bit))[i] == Reversed(KernelHigh(s, bit))[i] {
      if i < 16 {
        MirrorStays(i);
      } else {
        AddRefinesAt(s, bit, i);
      }
    }
  }

  function Plus(x: Word, y: Word): Word {
    x + y
  }

  lemma AddRefinesAt(s: State, bit: nat, i: nat)
    requires bit in {1, 2} && 16 <= i < 32
    ensures Add(SwapHigh(Reversed(s), bit))[i] == Reversed(KernelHigh(s, bit))[i]
  {
    hide Flip, Mirror, Plus;
    FlipStays(i, bit);
    MirrorStays(i);
    MirrorStays(i - 16);
    MirrorStays(Flip(i, bit));
    MirrorFlip(i, bit);
    FlipStays(Mirror(i), bit);
  }

  lemma MirrorFlip(i: nat, bit: nat)
    requires i < 32 && bit in {1, 2, 4, 8}
    ensures Mirror(Flip(i, bit)) == Flip(Mirror(i), bit)
  {
    FlipsCommute(i, bit, 1);
    FlipStays(i, 1);
    FlipsCommute(Flip(i, 1), bit, 2);
  }

  // Rotate, swap and xor act on reversed words as they do on plain ones.
  lemma MixRefines(s: State, n: nat, bit: nat)
    requires n <= 32 && bit in {4, 8}
    ensures Xor(SwapLow(Rotate(Reversed(s), n), bit)) == Reversed(KernelLow(s, n, bit))
  {
    hide Flip, Mirror, RotL;
    forall i | 0 <= i < 16 ensures Xor(SwapLow(Rotate(Reversed(s), n), bit))[i] == Reversed(KernelLow(s, n, bit))[i] {
      FlipStays(i, bit);
      MirrorStays(i);
      MirrorStays(i + 16);
      MirrorStays(Flip(i, bit));
      MirrorFlip(i, bit);
      FlipStays(Mirror(i), bit);
    }
    forall i | 16 <= i < 32 ensures Xor(SwapLow(Rotate(Reversed(s), n), bit))[i] == Reversed(KernelLow(s, n, bit))[i] {
      MirrorStays(i);
    }
  }

  // One kernel round is one specified round.
  lemma RoundRefines(s: State)
    ensures Abs(KernelRound(s)) == Round(Abs(s))
  {
    hide Add, Rotate, SwapLow, Xor, SwapHigh, KernelHigh, KernelLow, Reversed;
    var h := KernelHigh(s, 1);
    AddRefines(s, 1);
    MixRefines(h, 7, 8);
    var l := KernelLow(h, 7, 8);
    AddRefines(l, 2);
    MixRefines(KernelHigh(l, 2), 11, 4);
  }

  // -------------------------------------------------------------------------
  // The kernel
  // -------------------------------------------------------------------------

  // The two permutations, as flips of the index.
  lemma InVector(v: nat)
    requires v % 4 == 0
    ensures Flip(v, 1) == v + 1 && Flip(v + 1, 1) == v && Flip(v + 2, 1) == v + 3 && Flip(v + 3, 1) == v + 2
    ensures Flip(v, 2) == v + 2 && Flip(v + 1, 2) == v + 3 && Flip(v + 2, 2) == v && Flip(v + 3, 2) == v + 1
  {
  }

  lemma AddNext(x: State, bit: nat, v: nat, p: State, y: State)
    requires bit in {1, 2} && v in {16, 20, 24, 28} && p == HighUpTo(x, bit, v)
    requires forall i {:trigger y[i]} :: v <= i < v + 4 ==>
      v <= Flip(i, bit) < v + 4 && y[i] == Plus(x[i - 16], p[Flip(i, bit)])
    requires forall i :: 0 <= i < 32 && !(v <= i < v + 4) ==> y[i] == p[i]
    ensures y == HighUpTo(x, bit, v + 4)
  {
    hide Plus, Flip;
  }

  lemma AddBadcNext(x: State, v: nat, p: State, y: State)
    requires v in {16, 20, 24, 28} && p == HighUpTo(x, 1, v)
    requires y[v] == Plus(x[v - 16], p[v + 1]) && y[v + 1] == Plus(x[v - 15], p[v])
    requires y[v + 2] == Plus(x[v - 14], p[v + 3]) && y[v + 3] == Plus(x[v - 13], p[v + 2])
    requires forall i :: 0 <= i < 32 && !(v <= i < v + 4) ==> y[i] == p[i]
    ensures y == HighUpTo(x, 1, v + 4)
  {
    hide *;
    InVector(v);
    forall i | v <= i < v + 4 ensures v <= Flip(i, 1) < v + 4 && y[i] == Plus(x[i - 16], p[Flip(i, 1)]) {
      match i - v {
        case 0 =>
        case 1 =>
        case 2 =>
        case _ => assert i == v + 3;
      }
    }
    AddNext(x, 1, v, p, y);
  }

  lemma AddCdabNext(x: State, v: nat, p: State, y: State)
    requires v in {16, 20, 24, 28} && p == HighUpTo(x, 2, v)
    requires y[v] == Plus(x[v - 16], p[v + 2]) && y[v + 1] == Plus(x[v - 15], p[v + 3])
    requires y[v + 2] == Plus(x[v - 14], p[v]) && y[v + 3] == Plus(x[v - 13], p[v + 1])
    requires forall i :: 0 <= i < 32 && !(v <= i < v + 4) ==> y[i] == p[i]
    ensures y == HighUpTo(x, 2, v + 4)
  {
    hide *;
    InVector(v);
    forall i | v <= i < v + 4 ensures v <= Flip(i, 2) < v + 4 && y[i] == Plus(x[i - 16], p[Flip(i, 2)]) {
      match i - v {
        case 0 =>
        case 1 =>
        case 2 =>
        case _ => assert i == v + 3;
      }
    }
    AddNext(x, 2, v, p, y);
  }

  // One vector of x4..x7: x4 = x0 + permute_badc(x4), from a copy of x0.
  method AddBadc(s: array<Word>, v: nat, a0: Word, a1: Word, a2: Word, a3: Word, ghost x: State)
    requires s.Length == 32 && v in {16, 20, 24, 28} && s[..] == HighUpTo(x, 1, v)
    requires x[v - 16] == a0 && x[v - 15] == a1 && x[v - 14] == a2 && x[v - 13] == a3
    modifies s
    ensures s[..] == HighUpTo(x, 1, v + 4)
  {
    hide *;
    ghost var p: State := s[..];
    var t0, t1, t2, t3 := s[v], s[v + 1], s[v + 2], s[v + 3];
    s[v], s[v + 1], s[v + 2], s[v + 3] := Plus(a0, t1), Plus(a1, t0), Plus(a2, t3), Plus(a3, t2);
    AddBadcNext(x, v, p, s[..]);
  }

  // One vector of x4..x7: x4 = x0 + permute_cdab(x4), from a copy of x0.
  method AddCdab(s: array<Word>, v: nat, a0: Word, a1: Word, a2: Word, a3: Word, ghost x: State)
    requires s.Length == 32 && v in {16, 20, 24, 28} && s[..] == HighUpTo(x, 2, v)
    requires x[v - 16] == a0 && x[v - 15] == a1 && x[v - 14] == a2 && x[v - 13] == a3
    modifies s
    ensures s[..] == HighUpTo(x, 2, v + 4)
  {
    hide *;
    ghost var p: State := s[..];
    var t0, t1, t2, t3 := s[v], s[v + 1], s[v + 2], s[v + 3];
    s[v], s[v + 1], s[v + 2], s[v + 3] := Plus(a0, t2), Plus(a1, t3), Plus(a2, t0), Plus(a3, t1);
    AddCdabNext(x, v, p, s[..]);
  }

  // Flipping the bit worth 4 or 8 moves a whole vector.
  lemma PartnerVector(v: nat, bit: nat, i: nat)
    requires v % 4 == 0 && v <= i < v + 4 && bit in {4, 8}
    ensures Flip(i, bit) == Flip(v, bit) + (i - v)
  {
    QuarterFlip(i, bit);
    QuarterFlip(v, bit);
  }

  lemma QuarterFlip(i: nat, bit: nat)
    requires bit in {4, 8}
    ensures Flip(i, bit) == 4 * Flip(i / 4, bit / 4) + i % 4
  {
    hide Flip;
    FlipHalves(i, bit);
    FlipHalves(i / 2, bit / 2);
  }

  lemma MixInNext(x: State, rot: nat, bit: nat, v: nat, w: nat, p: State, y: State)
    requires rot <= 32 && bit in {4, 8} && v in {0, 4, 8, 12} && w == Flip(v, bit) && p == LowUpTo(x, rot, bit, v)
    requires w <= 12 && forall i :: v <= i < v + 4 ==> y[i] == Mix(x[w + i - v], rot, p[i + 16])
    requires forall i :: 0 <= i < 32 && !(v <= i < v + 4) ==> y[i] == p[i]
    ensures y == LowUpTo(x, rot, bit, v + 4)
  {
    hide Flip, Mix;
    forall i | v <= i < v + 4 ensures y[i] == LowUpTo(x, rot, bit, v + 4)[i] {
      PartnerVector(v, bit, i);
    }
  }

  // One vector of x0..x3: x0 = rotl(x2, n) ^ x4, from a copy of the old x2.
  method MixIn(s: array<Word>, v: nat, w: nat, a0: Word, a1: Word, a2: Word, a3: Word, n: nat,
               ghost x: State, ghost bit: nat)
    requires s.Length == 32 && v in {0, 4, 8, 12} && n <= 32
    requires bit in {4, 8} && w == Flip(v, bit) <= 12 && s[..] == LowUpTo(x, n, bit, v)
    requires x[w] == a0 && x[w + 1] == a1 && x[w + 2] == a2 && x[w + 3] == a3
    modifies s
    ensures s[..] == LowUpTo(x, n, bit, v + 4)
  {
    hide *;
    ghost var p: State := s[..];
    var m0, m1, m2, m3 := Mix(a0, n, s[v + 16]), Mix(a1, n, s[v + 17]), Mix(a2, n, s[v + 18]), Mix(a3, n, s[v + 19]);
    s[v], s[v + 1], s[v + 2], s[v + 3] := m0, m1, m2, m3;
    ghost var y: State := s[..];
    FourMixed(x, n, v, w, p, y);
    MixInNext(x, n, bit, v, w, p, y);
  }

  lemma FourMixed(x: State, n: nat, v: nat, w: nat, p: State, y: State)
    requires n <= 32 && v <= 12 && w <= 12
    requires y[v] == Mix(x[w], n, p[v + 16]) && y[v + 1] == Mix(x[w + 1], n, p[v + 17])
    requires y[v + 2] == Mix(x[w + 2], n, p[v + 18]) && y[v + 3] == Mix(x[w + 3], n, p[v + 19])
    ensures forall i :: v <= i < v + 4 ==> y[i] == Mix(x[w + i - v], n, p[i + 16])
  {
    hide *;
    forall i | v <= i < v + 4 ensures y[i] == Mix(x[w + i - v], n, p[i + 16]) {
      match i - v {
        case 0 =>
        case 1 =>
        case 2 =>
        case _ => assert i == v + 3;
      }
    }
  }

  lemma NothingDone(x: State, bit: nat, rot: nat, lowBit: nat)
    requires bit in {1, 2} && rot <= 32 && lowBit in {4, 8}
    ensures x == HighUpTo(x, bit, 16) && x == LowUpTo(x, rot, lowBit, 0)
  {
  }

  lemma Partners()
    ensures Flip(0, 8) == 8 && Flip(4, 8) == 12 && Flip(8, 8) == 0 && Flip(12, 8) == 4
    ensures Flip(0, 4) == 4 && Flip(4, 4) == 0 && Flip(8, 4) == 12 && Flip(12, 4) == 8
  {
  }

  lemma HalfIs(x: State, bit: nat, rot: nat, lowBit: nat)
    requires bit in {1, 2} && rot <= 32 && lowBit in {4, 8}
    ensures KernelLow(KernelHigh(x, bit), rot, lowBit) == LowUpTo(HighUpTo(x, bit, 32), rot, lowBit, 16)
  {
  }

  lemma LowUntouched(x: State, y: State, bit: nat)
    requires bit in {1, 2} && y == HighUpTo(x, bit, 32)
    ensures forall i :: 0 <= i < 16 ==> y[i] == x[i]
  {
  }

  method HalfRoundOne(s: array<Word>)
    requires s.Length == 32
    modifies s
    ensures s[..] == KernelLow(KernelHigh(old(s[..]), 1), 7, 8)
  {
    hide *;
    ghost var x: State := s[..];
    var a0, a1, a2, a3 := s[0], s[1], s[2], s[3];
    var b0, b1, b2, b3 := s[4], s[5], s[6], s[7];
    var c0, c1, c2, c3 := s[8], s[9], s[10], s[11];
    var d0, d1, d2, d3 := s[12], s[13], s[14], s[15];
    NothingDone(x, 1, 7, 8);
    AddBadc(s, 16, a0, a1, a2, a3, x);
    AddBadc(s, 20, b0, b1, b2, b3, x);
    AddBadc(s, 24, c0, c1, c2, c3, x);
    AddBadc(s, 28, d0, d1, d2, d3, x);
    ghost var y: State := s[..];
    LowUntouched(x, y, 1);
    NothingDone(y, 1, 7, 8);
    Partners();
    MixIn(s, 0, 8, c0, c1, c2, c3, 7, y, 8);
    MixIn(s, 4, 12, d0, d1, d2, d3, 7, y, 8);
    MixIn(s, 8, 0, a0, a1, a2, a3, 7, y, 8);
    MixIn(s, 12, 4, b0, b1, b2, b3, 7, y, 8);
    HalfIs(x, 1, 7, 8);
  }

  method HalfRoundTwo(s: array<Word>)
    requires s.Length == 32
    modifies s
    ensures s[..] == KernelLow(KernelHigh(old(s[..]), 2), 11, 4)
  {
    hide *;
    ghost var x: State := s[..];
    var e0, e1, e2, e3 := s[0], s[1], s[2], s[3];
    var f0, f1, f2, f3 := s[4], s[5], s[6], s[7];
    var g0, g1, g2, g3 := s[8], s[9], s[10], s[11];
    var h0, h1, h2, h3 := s[12], s[13], s[14], s[15];
    NothingDone(x, 2, 11, 4);
    AddCdab(s, 16, e0, e1, e2, e3, x);
    AddCdab(s, 20, f0, f1, f2, f3, x);
    AddCdab(s, 24, g0, g1, g2, g3, x);
    AddCdab(s, 28, h0, h1, h2, h3, x);
    ghost var y: State := s[..];
    LowUntouched(x, y, 2);
    NothingDone(y, 2, 11, 4);
    Partners();
    MixIn(s, 0, 4, f0, f1, f2, f3, 11, y, 4);
    MixIn(s, 4, 0, e0, e1, e2, e3, 11, y, 4);
    MixIn(s, 8, 12, h0, h1, h2, h3, 11, y, 4);
    MixIn(s, 12, 8, g0, g1, g2, g3, 11, y, 4);
    HalfIs(x, 2, 11, 4);
  }

  // One round in place.
  method CubehashRound(s: array<Word>)
    requires s.Length == 32
    modifies s
    ensures Abs(s[..]) == Round(old(Abs(s[..])))
  {
    hide KernelLow, KernelHigh, Abs, Round;
    RoundRefines(s[..]);
    HalfRoundOne(s);
    HalfRoundTwo(s);
  }

  // -------------------------------------------------------------------------
  // The sponge around the rounds
  // -------------------------------------------------------------------------

  lemma {:induction false} RoundsAdd(x: State, m: nat, n: nat)
    ensures Rounds(x, m + n) == Rounds(Rounds(x, m), n)
  {
    hide Round;
    if n > 0 {
      RoundsAdd(x, m, n - 1);
    }
  }

  method CubehashRounds(s: array<Word>)
    requires s.Length == 32
    modifies s
    ensures Abs(s[..]) == Rounds(old(Abs(s[..])), 16)
  {
    hide Abs, Round;
    ghost var x := Abs(s[..]);
    for i := 0 to 16
      invariant Abs(s[..]) == Rounds(x, i)
    {
      CubehashRound(s);
    }
  }

  lemma Mirrors()
    ensures Mirror(0) == 3 && Mirror(1) == 2 && Mirror(2) == 1 && Mirror(3) == 0
    ensures Mirror(4) == 7 && Mirror(5) == 6 && Mirror(6) == 5 && Mirror(7) == 4
  {
  }

  // Which kernel word a specified word is.
  function Place(i: nat): nat {
    if i < 16 then Mirror(i) else Mirror(Flip(i, 1))
  }

  lemma HalveTwice(n: nat)
    ensures n / 4 == n / 2 / 2
  {
  }

  lemma QuarterStays(i: nat, bit: nat)
    requires bit in {1, 2}
    ensures Flip(i, bit) / 4 == i / 4
  {
    hide Flip;
    HalveTwice(i);
    HalveTwice(Flip(i, bit));
    FlipHalves(i, bit);
    FlipHalves(i / 2, 1);
  }

  lemma AbsPlace(s: State, i: nat)
    requires i < 32
    ensures Place(i) / 4 == i / 4 && Abs(s)[i] == s[Place(i)]
  {
    hide Flip;
    FlipStays(i, 1);
    QuarterStays(i, 1);
    QuarterStays(Flip(i, 1), 1);
    QuarterStays(Flip(i, 1), 2);
    QuarterStays(Flip(Flip(i, 1), 1), 2);
  }

  lemma AbsorbPlaces(x: State, bytes: Chunk, y: State)
    requires y[0] == WordXor(x[0], WordAt(bytes, 3)) && y[1] == WordXor(x[1], WordAt(bytes, 2))
    requires y[2] == WordXor(x[2], WordAt(bytes, 1)) && y[3] == WordXor(x[3], WordAt(bytes, 0))
    requires y[4] == WordXor(x[4], WordAt(bytes, 7)) && y[5] == WordXor(x[5], WordAt(bytes, 6))
    requires y[6] == WordXor(x[6], WordAt(bytes, 5)) && y[7] == WordXor(x[7], WordAt(bytes, 4))
    requires forall i :: 8 <= i < 32 ==> y[i] == x[i]
    ensures Abs(y) == XorBlock(Abs(x), bytes)
  {
    hide WordXor, Le32, Flip, WordAt, Abs, Mirror;
    Mirrors();
    forall i | 0 <= i < 32 ensures Abs(y)[i] == XorBlock(Abs(x), bytes)[i] {
      AbsPlace(x, i);
      AbsPlace(y, i);
    }
  }

  method AbsorbBlock(s: array<Word>, bytes: Chunk)
    requires s.Length == 32
    modifies s
    ensures Abs(s[..]) == Absorb(old(Abs(s[..])), bytes)
  {
    hide *;
    ghost var x: State := s[..];
    s[0], s[1] := WordXor(s[0], WordAt(bytes, 3)), WordXor(s[1], WordAt(bytes, 2));
    s[2], s[3] := WordXor(s[2], WordAt(bytes, 1)), WordXor(s[3], WordAt(bytes, 0));
    s[4], s[5] := WordXor(s[4], WordAt(bytes, 7)), WordXor(s[5], WordAt(bytes, 6));
    s[6], s[7] := WordXor(s[6], WordAt(bytes, 5)), WordXor(s[7], WordAt(bytes, 4));
    AbsorbPlaces(x, bytes, s[..]);
    AbsorbIs(Abs(x), bytes);
    CubehashRounds(s);
  }

  lemma AbsorbIs(x: State, bytes: Chunk)
    ensures Absorb(x, bytes) == Rounds(XorBlock(x, bytes), 16)
  {
  }

  lemma InitPlaces(s: State)
    requires s[0] == 0 && s[1] == 16 && s[2] == 32 && s[3] == 32 && forall i :: 4 <= i < 32 ==> s[i] == 0
    ensures Abs(s) == InitialWords()
  {
    hide Flip, Abs, Mirror;
    Mirrors();
    forall i | 0 <= i < 32 ensures Abs(s)[i] == InitialWords()[i] {
      AbsPlace(s, i);
    }
  }

  method CubehashInit(s: array<Word>)
    requires s.Length == 32
    modifies s
    ensures Abs(s[..]) == Initial()
  {
    hide Abs, Rounds, InitialWords;
    s[0], s[1], s[2], s[3] := 0, 16, 32, 32;
    for i := 4 to 32
      invariant s[0] == 0 && s[1] == 16 && s[2] == 32 && s[3] == 32 && forall j :: 4 <= j < i ==> s[j] == 0
    {
      s[i] := 0;
    }
    InitPlaces(s[..]);
    CubehashRounds(s);
  }

  // EMIT_LE: the next four bytes of `out`.
  lemma EmitsBytes(w: Word)
    ensures LowByte(w) == ByteOf(w, 0) && LowByte(w >> 8) == ByteOf(w, 1)
    ensures LowByte(w >> 16) == ByteOf(w, 2) && LowByte(w >> 24) == ByteOf(w, 3)
  {
  }

  method EmitLe(hash: array<Byte>, at: nat, word: Word, ghost x: State, ghost i: nat)
    requires hash.Length == 32 && i < 8 && at == 4 * i && Mirror(i) < 32 && word == x[Mirror(i)]
    requires forall k :: 0 <= k < at ==> hash[k] == Output(Abs(x))[k]
    modifies hash
    ensures forall k :: 0 <= k < at + 4 ==> hash[k] == Output(Abs(x))[k]
  {
    hide LowByte, ByteOf, Output, Abs, Mirror;
    OutputWord(x, i);
    EmitsBytes(word);
    hash[at], hash[at + 1] := LowByte(word), LowByte(word >> 8);
    hash[at + 2], hash[at + 3] := LowByte(word >> 16), LowByte(word >> 24);
  }

  lemma OutputWord(s: State, i: nat)
    requires i < 8
    ensures Mirror(i) < 32
    ensures var w, out := s[Mirror(i)], Output(Abs(s));
      && out[4 * i] == ByteOf(w, 0) && out[4 * i + 1] == ByteOf(w, 1)
      && out[4 * i + 2] == ByteOf(w, 2) && out[4 * i + 3] == ByteOf(w, 3)
  {
    hide ByteOf, Flip, Abs, Mirror;
    AbsPlace(s, i);
    MirrorStays(i);
  }

  method ExtractHash(s: array<Word>, hash: array<Byte>)
    requires s.Length == 32 && hash.Length == 32
    modifies hash
    ensures hash[..] == Output(Abs(s[..]))
  {
    hide *;
    ghost var x: State := s[..];
    Mirrors();
    EmitLe(hash, 0, s[3], x, 0);
    EmitLe(hash, 4, s[2], x, 1);
    EmitLe(hash, 8, s[1], x, 2);
    EmitLe(hash, 12, s[0], x, 3);
    EmitLe(hash, 16, s[7], x, 4);
    EmitLe(hash, 20, s[6], x, 5);
    EmitLe(hash, 24, s[5], x, 6);
    EmitLe(hash, 28, s[4], x, 7);
  }

  method Cubehash256Header(header: seq<Byte>) returns (digest: Chunk)
    requires |header| == 104
    ensures digest == Digest(header)
  {
    hide *;
    var s := new Word[32];
    CubehashInit(s);
    AbsorbBlock(s, header[0..32]);
    AbsorbBlock(s, header[32..64]);
    AbsorbBlock(s, header[64..96]);
    ghost var w: State := s[..];
    var pad := new Byte[32];
    for i := 0 to 8
      invariant s[..] == w
      invariant forall j :: 0 <= j < i ==> pad[j] == header[96 + j]
    {
      pad[i] := header[96 + i];
    }
    pad[8] := 0x80;
    for i := 9 to 32
      invariant s[..] == w
      invariant forall j :: 0 <= j < 8 ==> pad[j] == header[96 + j]
      invariant pad[8] == 0x80 && forall j :: 9 <= j < i ==> pad[j] == 0
    {
      pad[i] := 0;
    }
    ghost var last: Chunk := pad[..];
    AbsorbBlock(s, pad[..]);
    FourBlocks(header, last);
    ghost var x: State := s[..];
    s[29] := WordXor(s[29], 1);
    FlagPlace(x, s[..]);
    ghost var y := Abs(s[..]);
    CubehashRounds(s);
    CubehashRounds(s);
    FinishIs(Abs(x), y);
    var hash := new Byte[32];
    ExtractHash(s, hash);
    digest := hash[..];
  }

  lemma FlagPlace(x: State, y: State)
    requires y == x[29 := WordXor(x[29], 1)]
    ensures Abs(y) == Abs(x)[31 := WordXor(Abs(x)[31], 1)]
  {
    hide WordXor, Flip, Abs;
    LastPlaces();
    forall i | 0 <= i < 32 ensures Abs(y)[i] == Abs(x)[31 := WordXor(Abs(x)[31], 1)][i] {
      AbsPlace(x, i);
      AbsPlace(y, i);
    }
  }

  lemma LastPlaces()
    ensures Place(28) == 30 && Place(29) == 31 && Place(30) == 28 && Place(31) == 29
  {
  }

  lemma FinishIs(x: State, y: State)
    requires y == x[31 := WordXor(x[31], 1)]
    ensures Finish(x) == Rounds(Rounds(y, 16), 16)
  {
    hide Rounds, WordXor;
    RoundsAdd(y, 16, 16);
  }

  // The padding rule turns 104 bytes into three blocks and a last one.
  lemma NothingAbsorbed()
    ensures AbsorbAll(Initial(), []) == Initial()
  {
    hide Absorb, Initial;
  }

  lemma PaddedIs(header: seq<Byte>, pad: Chunk)
    requires |header| == 104 && pad == header[96..] + [0x80] + seq(23, _ => 0)
    ensures Pad(header) == header[0..32] + header[32..64] + header[64..96] + pad
  {
  }

  lemma FourBlocks(header: seq<Byte>, pad: Chunk)
    requires |header| == 104 && pad == header[96..] + [0x80] + seq(23, _ => 0)
    ensures Digest(header) == Output(Finish(
      Absorb(Absorb(Absorb(Absorb(Initial(), header[0..32]), header[32..64]), header[64..96]), pad)))
  {
    hide Absorb, Output, Finish, Initial, Pad, AbsorbAll;
    NothingAbsorbed();
    PaddedIs(header, pad);
    OneMore(Initial(), [], header[0..32]);
    assert [] + header[0..32] == header[0..32];
    OneMore(Initial(), header[0..32], header[32..64]);
    OneMore(Initial(), header[0..32] + header[32..64], header[64..96]);
    OneMore(Initial(), header[0..32] + header[32..64] + header[64..96], pad);
  }

  lemma OneMore(x: State, m: seq<Byte>, last: Chunk)
    requires |m| % 32 == 0
    ensures AbsorbAll(x, m + last) == Absorb(AbsorbAll(x, m), last)
  {
    hide Absorb;
    assert (m + last)[..|m|] == m && (m + last)[|m|..] == last;
  }
}
