/** MurmurHash3_x64_128: what it computes, and that every stage of it can be undone. */
module Murmur64 {
  import opened Words
  import opened Blocks

  function Mul64(x: bv64, c: bv64): bv64 { x * c }

  const C1: bv64 := 0x87c37b91114253d5
  const C2: bv64 := 0x4cf5ad432745937f
  const FIVE: bv64 := 0x5
  const F1: bv64 := 0xff51afd7ed558ccd
  const F2: bv64 := 0xc4ceb9fe1a85ec53

  // their inverses modulo 2^64
  const C1_INVERSE: bv64 := 0xa98409e882ce4d7d
  const C2_INVERSE: bv64 := 0xa81e14edd9de2c7f
  const FIVE_INVERSE: bv64 := 0xcccccccccccccccd
  const F1_INVERSE: bv64 := 0x4f74430c22a54005
  const F2_INVERSE: bv64 := 0x9cb4b2f8129337db

  lemma UndoC1(x: bv64)
    ensures Mul64(Mul64(x, C1), C1_INVERSE) == x
    ensures Mul64(Mul64(x, C1_INVERSE), C1) == x
  {
    assert Mul64(x * 0x87c37b91114253d5, 0xa98409e882ce4d7d) == x;
    assert Mul64(x * 0xa98409e882ce4d7d, 0x87c37b91114253d5) == x;
  }

  lemma UndoC2(x: bv64)
    ensures Mul64(Mul64(x, C2), C2_INVERSE) == x
    ensures Mul64(Mul64(x, C2_INVERSE), C2) == x
  {
    assert Mul64(x * 0x4cf5ad432745937f, 0xa81e14edd9de2c7f) == x;
    assert Mul64(x * 0xa81e14edd9de2c7f, 0x4cf5ad432745937f) == x;
  }

  lemma UndoFIVE(x: bv64)
    ensures Mul64(Mul64(x, FIVE), FIVE_INVERSE) == x
    ensures Mul64(Mul64(x, FIVE_INVERSE), FIVE) == x
  {
    assert Mul64(x * 0x5, 0xcccccccccccccccd) == x;
    assert Mul64(x * 0xcccccccccccccccd, 0x5) == x;
  }

  lemma UndoF1(x: bv64)
    ensures Mul64(Mul64(x, F1), F1_INVERSE) == x
    ensures Mul64(Mul64(x, F1_INVERSE), F1) == x
  {
    assert Mul64(x * 0xff51afd7ed558ccd, 0x4f74430c22a54005) == x;
    assert Mul64(x * 0x4f74430c22a54005, 0xff51afd7ed558ccd) == x;
  }

  lemma UndoF2(x: bv64)
    ensures Mul64(Mul64(x, F2), F2_INVERSE) == x
    ensures Mul64(Mul64(x, F2_INVERSE), F2) == x
  {
    assert Mul64(x * 0xc4ceb9fe1a85ec53, 0x9cb4b2f8129337db) == x;
    assert Mul64(x * 0x9cb4b2f8129337db, 0xc4ceb9fe1a85ec53) == x;
  }

  // ---------------------------------------------------------------- fmix64

  function Shift33(x: bv64): bv64 { x ^ (x >> 33) }

  lemma Shift33Twice(x: bv64)
    ensures Shift33(Shift33(x)) == x
  {
    assert Shift33(x ^ (x >> 33)) == x;
  }

  function Fmix64(k: bv64): bv64 {
    Shift33(Mul64(Shift33(Mul64(Shift33(k), F1)), F2))
  }

  function Unfmix64(k: bv64): bv64 {
    Shift33(Mul64(Shift33(Mul64(Shift33(k), F2_INVERSE)), F1_INVERSE))
  }

  lemma FmixUnfmix(k: bv64)
    ensures Unfmix64(Fmix64(k)) == k
    ensures Fmix64(Unfmix64(k)) == k
  {
    hide Mul64, Shift33;
    var a, b := Shift33(k), Mul64(Shift33(k), F1);
    Shift33Twice(k);
    UndoF1(a);
    Shift33Twice(b);
    UndoF2(Shift33(b));
    Shift33Twice(Mul64(Shift33(b), F2));
    var c := Mul64(a, F2_INVERSE);
    UndoF2(a);
    Shift33Twice(c);
    UndoF1(Shift33(c));
    Shift33Twice(Mul64(Shift33(c), F1_INVERSE));
  }

  // ---------------------------------------------------------------- one key word

  function ScrambleK1(k: bv64): bv64 { Mul64(Rotl64(Mul64(k, C1), 31), C2) }

  function UnscrambleK1(k: bv64): bv64 { Mul64(Rotr64(Mul64(k, C2_INVERSE), 31), C1_INVERSE) }

  function ScrambleK2(k: bv64): bv64 { Mul64(Rotl64(Mul64(k, C2), 33), C1) }

  function UnscrambleK2(k: bv64): bv64 { Mul64(Rotr64(Mul64(k, C1_INVERSE), 33), C2_INVERSE) }

  lemma ScrambleUnscramble(k: bv64)
    ensures UnscrambleK1(ScrambleK1(k)) == k == ScrambleK1(UnscrambleK1(k))
    ensures UnscrambleK2(ScrambleK2(k)) == k == ScrambleK2(UnscrambleK2(k))
  {
    hide Mul64, Rotl64, Rotr64;
    UndoC1(k);
    UndoC2(k);
    RotlRotr64(Mul64(k, C1), 31);
    RotlRotr64(Mul64(k, C2), 33);
    UndoC2(Rotl64(Mul64(k, C1), 31));
    UndoC1(Rotl64(Mul64(k, C2), 33));
    RotlRotr64(Mul64(k, C2_INVERSE), 31);
    RotlRotr64(Mul64(k, C1_INVERSE), 33);
    UndoC1(Rotr64(Mul64(k, C2_INVERSE), 31));
    UndoC2(Rotr64(Mul64(k, C1_INVERSE), 33));
  }

  // ---------------------------------------------------------------- one block

  datatype Pair = Pair(h1: bv64, h2: bv64)

  const N1: bv64 := 0x52dce729
  const N2: bv64 := 0x38495ab5

  /** h = ROTL64(h ^ k, r); h += other; h = h * 5 + n */
  function Stir(h: bv64, k: bv64, r: nat, other: bv64, n: bv64): bv64
    requires 0 < r < 64
  {
    Add64(Mul64(Add64(Rotl64(Xor64(h, k), r), other), FIVE), n)
  }

  /** What was in h ^ k before the stirring. */
  function Unstir(g: bv64, r: nat, other: bv64, n: bv64): bv64
    requires 0 < r < 64
  {
    Rotr64(Sub64(Mul64(Sub64(g, n), FIVE_INVERSE), other), r)
  }

  lemma StirUnstir(h: bv64, k: bv64, r: nat, other: bv64, n: bv64)
    requires 0 < r < 64
    ensures Unstir(Stir(h, k, r, other, n), r, other, n) == Xor64(h, k)
    ensures Stir(Xor64(Unstir(h, r, other, n), k), k, r, other, n) == h
  {
    hide Add64, Sub64, Mul64, Xor64, Rotl64, Rotr64;
    var x := Xor64(h, k);
    RotlRotr64(x, r);
    AddSub64(Rotl64(x, r), other);
    UndoFIVE(Add64(Rotl64(x, r), other));
    AddSub64(Mul64(Add64(Rotl64(x, r), other), FIVE), n);
    AddSub64(h, n);
    var a := Sub64(h, n);
    UndoFIVE(a);
    AddSub64(Mul64(a, FIVE_INVERSE), other);
    RotlRotr64(Sub64(Mul64(a, FIVE_INVERSE), other), r);
    XorXor64(Unstir(h, r, other, n), k);
  }

  /** The loop body on the words k1 and k2 of a block. */
  function BlockStep(b: seq<Byte>, h: Pair): Pair
    requires |b| == 16
  {
    var g1 := Stir(h.h1, ScrambleK1(ReadLe64(b[..8])), 27, h.h2, N1);
    Pair(g1, Stir(h.h2, ScrambleK2(ReadLe64(b[8..])), 31, g1, N2))
  }

  /** The state before the block. */
  function UnstepState(b: seq<Byte>, g: Pair): Pair
    requires |b| == 16
  {
    var h2 := Xor64(Unstir(g.h2, 31, g.h1, N2), ScrambleK2(ReadLe64(b[8..])));
    Pair(Xor64(Unstir(g.h1, 27, h2, N1), ScrambleK1(ReadLe64(b[..8]))), h2)
  }

  /** The block that leads from state h to state g. */
  function UnstepBlock(h: Pair, g: Pair): (b: seq<Byte>)
    ensures |b| == 16
  {
    WriteLe64(UnscrambleK1(Xor64(Unstir(g.h1, 27, h.h2, N1), h.h1))) +
    WriteLe64(UnscrambleK2(Xor64(Unstir(g.h2, 31, g.h1, N2), h.h2)))
  }

  lemma XorCancels(x: bv64, y: bv64)
    ensures Xor64(Xor64(x, y), x) == y
    ensures Xor64(x, Xor64(y, x)) == y
  {
    assert Xor64(x ^ y, x) == y;
    assert Xor64(x, y ^ x) == y;
  }

  /** A block step is a permutation of the state for a fixed block. */
  lemma StepUnstepState(b: seq<Byte>, h: Pair)
    requires |b| == 16
    ensures UnstepState(b, BlockStep(b, h)) == h
    ensures BlockStep(b, UnstepState(b, h)) == h
  {
    hide Stir, Unstir, Xor64, ScrambleK1, ScrambleK2, ReadLe64;
    var k1, k2 := ScrambleK1(ReadLe64(b[..8])), ScrambleK2(ReadLe64(b[8..]));
    var g1 := Stir(h.h1, k1, 27, h.h2, N1);
    StirUnstir(h.h1, k1, 27, h.h2, N1);
    StirUnstir(h.h2, k2, 31, g1, N2);
    XorXor64(h.h1, k1);
    XorXor64(h.h2, k2);
    StirUnstir(h.h2, k2, 31, h.h1, N2);
    StirUnstir(h.h1, k1, 27, Xor64(Unstir(h.h2, 31, h.h1, N2), k2), N1);
  }

  /** A block step is a permutation from blocks to states for a fixed state. */
  lemma StepUnstepBlock(b: seq<Byte>, h: Pair, g: Pair)
    requires |b| == 16
    ensures UnstepBlock(h, BlockStep(b, h)) == b
    ensures BlockStep(UnstepBlock(h, g), h) == g
  {
    hide Stir, Unstir, Xor64, ScrambleK1, ScrambleK2, UnscrambleK1, UnscrambleK2, ReadLe64, WriteLe64;
    var w1, w2 := ReadLe64(b[..8]), ReadLe64(b[8..]);
    var k1, k2 := ScrambleK1(w1), ScrambleK2(w2);
    var g1 := Stir(h.h1, k1, 27, h.h2, N1);
    StirUnstir(h.h1, k1, 27, h.h2, N1);
    StirUnstir(h.h2, k2, 31, g1, N2);
    XorCancels(h.h1, k1);
    XorCancels(h.h2, k2);
    ScrambleUnscramble(w1);
    ScrambleUnscramble(w2);
    WriteReadLe64(b[..8]);
    WriteReadLe64(b[8..]);
    assert b[..8] + b[8..] == b;
    StepOfUnstepBlock(h, g);
  }

  lemma StepOfUnstepBlock(h: Pair, g: Pair)
    ensures BlockStep(UnstepBlock(h, g), h) == g
  {
    hide Stir, Unstir, Xor64, ScrambleK1, ScrambleK2, UnscrambleK1, UnscrambleK2, ReadLe64, WriteLe64;
    var a, b := Unstir(g.h1, 27, h.h2, N1), Unstir(g.h2, 31, g.h1, N2);
    var x1, x2 := Xor64(a, h.h1), Xor64(b, h.h2);
    ScrambleUnscramble(x1);
    ScrambleUnscramble(x2);
    ReadWriteLe64(UnscrambleK1(x1));
    ReadWriteLe64(UnscrambleK2(x2));
    var blk := UnstepBlock(h, g);
    assert blk[..8] == WriteLe64(UnscrambleK1(x1)) && blk[8..] == WriteLe64(UnscrambleK2(x2));
    StirAfterUnstir(h.h1, g.h1, 27, h.h2, N1);
    StirAfterUnstir(h.h2, g.h2, 31, g.h1, N2);
  }

  /** Feeding back what a stirring needs reaches the wanted word. */
  lemma StirAfterUnstir(h: bv64, g: bv64, r: nat, other: bv64, n: bv64)
    requires 0 < r < 64
    ensures Stir(h, Xor64(Unstir(g, r, other, n), h), r, other, n) == g
  {
    hide Add64, Sub64, Mul64, Xor64, Rotl64, Rotr64;
    var a := Sub64(g, n);
    XorCancels(h, Unstir(g, r, other, n));
    AddSub64(g, n);
    UndoFIVE(a);
    AddSub64(Mul64(a, FIVE_INVERSE), other);
    RotlRotr64(Sub64(Mul64(a, FIVE_INVERSE), other), r);
  }

  // ---------------------------------------------------------------- the whole hash

  /** The last 0 to 15 bytes, padded with zeros to two little-endian words; a word
      without any byte is left out. */
  function TailStep(t: seq<Byte>, h: Pair): Pair
    requires |t| < 16
  {
    var h2 := if |t| > 8 then Xor64(h.h2, ScrambleK2(ReadLe64(Padded(t[8..], 8)))) else h.h2;
    var low := if |t| > 8 then t[..8] else t;
    Pair(if |t| > 0 then Xor64(h.h1, ScrambleK1(ReadLe64(Padded(low, 8)))) else h.h1, h2)
  }

  /** Adds the second word to the first, and the sum to the second. */
  function Cross(h: Pair): Pair {
    var s := Add64(h.h1, h.h2);
    Pair(s, Add64(h.h2, s))
  }

  function Uncross(h: Pair): Pair {
    var h2 := Sub64(h.h2, h.h1);
    Pair(Sub64(h.h1, h2), h2)
  }

  lemma CrossUncross(h: Pair)
    ensures Uncross(Cross(h)) == h == Cross(Uncross(h))
  {
    hide Add64, Sub64;
    var s := Add64(h.h1, h.h2);
    AddSub64(h.h1, h.h2);
    AddSub64(h.h2, s);
    AddSub64(h.h2, h.h1);
    AddSub64(h.h1, Sub64(h.h2, h.h1));
  }

  /** The finalisation for a key of length len. */
  function Finish(len: bv64, h: Pair): Pair {
    var g := Cross(Pair(Xor64(h.h1, len), Xor64(h.h2, len)));
    Cross(Pair(Fmix64(g.h1), Fmix64(g.h2)))
  }

  function Unfinish(len: bv64, h: Pair): Pair {
    var g := Uncross(h);
    var f := Uncross(Pair(Unfmix64(g.h1), Unfmix64(g.h2)));
    Pair(Xor64(f.h1, len), Xor64(f.h2, len))
  }

  lemma FinishUnfinish(len: bv64, h: Pair)
    ensures Unfinish(len, Finish(len, h)) == h
    ensures Finish(len, Unfinish(len, h)) == h
  {
    hide Cross, Uncross, Xor64, Fmix64, Unfmix64;
    var x := Pair(Xor64(h.h1, len), Xor64(h.h2, len));
    XorXor64(h.h1, len);
    XorXor64(h.h2, len);
    CrossUncross(x);
    FmixUnfmix(Cross(x).h1);
    FmixUnfmix(Cross(x).h2);
    CrossUncross(Pair(Fmix64(Cross(x).h1), Fmix64(Cross(x).h2)));
    CrossUncross(h);
    var y := Pair(Unfmix64(Uncross(h).h1), Unfmix64(Uncross(h).h2));
    FmixUnfmix(Uncross(h).h1);
    FmixUnfmix(Uncross(h).h2);
    CrossUncross(y);
    XorXor64(Uncross(y).h1, len);
    XorXor64(Uncross(y).h2, len);
  }

  function LengthWord(len: nat): bv64
    requires len < MAX_LEN
  {
    len as bv64
  }

  function Start(seed: bv32): Pair { Pair(seed as bv64, seed as bv64) }

  lemma BlockStepLaws()
    ensures Steps(16, BlockStep) && InjectiveInState(16, BlockStep) && InjectiveInBlock(16, BlockStep)
  {
    hide BlockStep, UnstepState, UnstepBlock;
    forall b, h, g | |b| == 16 && BlockStep(b, h) == BlockStep(b, g) ensures h == g {
      StepUnstepState(b, h);
      StepUnstepState(b, g);
    }
    forall b, c, h | |b| == |c| == 16 && BlockStep(b, h) == BlockStep(c, h) ensures b == c {
      StepUnstepBlock(b, h, h);
      StepUnstepBlock(c, h, h);
    }
  }

  /** MurmurHash3_x64_128 of key: its whole blocks, its tail, its length. */
  ghost function Hash(key: seq<Byte>, seed: bv32): Pair
    requires |key| < MAX_LEN
  {
    BlockStepLaws();
    Finish(LengthWord(|key|), TailStep(key[|key| / 16 * 16..], Fold(key, 16, Start(seed), BlockStep)))
  }

  // ---------------------------------------------------------------- the C routine

  /** One case label of the switch: skipped when the tail has no byte k. */
  method XorByte(y: bv64, s: seq<Byte>, k: nat) returns (r: bv64)
    requires |s| <= 8 && k < 8
    requires y == XoredFrom64(s, k + 1)
    ensures r == XoredFrom64(s, k)
  {
    hide PlacedByte64, Xor64;
    r := y;
    if k < |s| {
      r := Xor64(y, PlacedByte64(s[k], k));
    }
  }

  /** The fall-through cases 8 to 1 (or 15 to 9) of the switch. */
  method XorBytes(s: seq<Byte>) returns (r: bv64)
    requires |s| <= 8
    ensures r == ReadLe64(Padded(s, 8))
  {
    hide Xor64, ReadLe64, PlacedByte64;
    r := XorByte(0, s, 7);
    r := XorByte(r, s, 6);
    r := XorByte(r, s, 5);
    r := XorByte(r, s, 4);
    r := XorByte(r, s, 3);
    r := XorByte(r, s, 2);
    r := XorByte(r, s, 1);
    r := XorByte(r, s, 0);
    XoredTailIsWord64(s);
  }

  /** The loop body. */
  method MixBlock(b: seq<Byte>, a1: bv64, a2: bv64) returns (h1: bv64, h2: bv64)
    requires |b| == 16
    ensures Pair(h1, h2) == BlockStep(b, Pair(a1, a2))
  {
    hide Mul64, Add64, Xor64, Rotl64, ReadLe64;
    h1, h2 := a1, a2;
    var k1, k2 := ReadLe64(b[..8]), ReadLe64(b[8..]);

    k1 := Mul64(k1, C1); k1 := Rotl64(k1, 31); k1 := Mul64(k1, C2); h1 := Xor64(h1, k1);

    h1 := Rotl64(h1, 27); h1 := Add64(h1, h2); h1 := Add64(Mul64(h1, 5), 0x52dce729);

    k2 := Mul64(k2, C2); k2 := Rotl64(k2, 33); k2 := Mul64(k2, C1); h2 := Xor64(h2, k2);

    h2 := Rotl64(h2, 31); h2 := Add64(h2, h1); h2 := Add64(Mul64(h2, 5), 0x38495ab5);
  }

  /** body */
  method MixBody(key: seq<Byte>, seed: bv32) returns (h1: bv64, h2: bv64)
    ensures Steps(16, BlockStep) && Pair(h1, h2) == Fold(key, 16, Start(seed), BlockStep)
  {
    hide BlockStep;
    BlockStepLaws();
    var nblocks := |key| / 16;
    h1, h2 := seed as bv64, seed as bv64;
    ghost var h0 := Start(seed);
    assert key[..0] == [] && Fold([], 16, h0, BlockStep) == h0;
    for i := 0 to nblocks
      invariant Pair(h1, h2) == Fold(key[..16 * i], 16, h0, BlockStep)
    {
      FoldNext(key, 16 * i, 16, h0, BlockStep);
      h1, h2 := MixBlock(key[16 * i..16 * i + 16], h1, h2);
    }
    FoldRemainder(key, 16 * nblocks, 16, h0, BlockStep);
  }

  /** tail */
  method MixTail(tail: seq<Byte>, a1: bv64, a2: bv64) returns (h1: bv64, h2: bv64)
    requires |tail| < 16
    ensures Pair(h1, h2) == TailStep(tail, Pair(a1, a2))
  {
    hide Mul64, Xor64, Rotl64, ReadLe64;
    h1, h2 := a1, a2;
    if |tail| >= 9 {
      var k2 := XorBytes(tail[8..]);
      k2 := Mul64(k2, C2); k2 := Rotl64(k2, 33); k2 := Mul64(k2, C1); h2 := Xor64(h2, k2);
    }
    if |tail| >= 1 {
      var k1 := XorBytes(if |tail| > 8 then tail[..8] else tail);
      k1 := Mul64(k1, C1); k1 := Rotl64(k1, 31); k1 := Mul64(k1, C2); h1 := Xor64(h1, k1);
    }
  }

  method MurmurHash3_x64_128(key: seq<Byte>, seed: bv32) returns (out: Pair)
    requires |key| < MAX_LEN
    ensures out == Hash(key, seed)
  {
    hide Add64, Xor64, Fmix64, TailStep, Start;
    var h1, h2 := MixBody(key, seed);
    h1, h2 := MixTail(key[|key| / 16 * 16..], h1, h2);

    h1 := Xor64(h1, LengthWord(|key|)); h2 := Xor64(h2, LengthWord(|key|));
    h1 := Add64(h1, h2);
    h2 := Add64(h2, h1);
    h1 := Fmix64(h1);
    h2 := Fmix64(h2);
    h1 := Add64(h1, h2);
    h2 := Add64(h2, h1);
    out := Pair(h1, h2);
  }

  // ---------------------------------------------------------------- no collisions

  lemma HashAt(key: seq<Byte>, k: nat, seed: bv32)
    requires |key| < MAX_LEN && k == |key| / 16 * 16
    ensures Steps(16, BlockStep)
    ensures Hash(key, seed) == Finish(LengthWord(|key|), TailStep(key[k..], Fold(key, 16, Start(seed), BlockStep)))
  {
    BlockStepLaws();
  }

  lemma HashSplit(pre: seq<Byte>, t: seq<Byte>, seed: bv32)
    requires |pre| % 16 == 0 && |t| < 16 && |pre| + |t| < MAX_LEN
    ensures Steps(16, BlockStep)
    ensures Hash(pre + t, seed) ==
            Finish(LengthWord(|pre| + |t|), TailStep(t, Fold(pre, 16, Start(seed), BlockStep)))
  {
    hide BlockStep, TailStep, Finish, Start, LengthWord, Hash;
    WholePart(|pre|, |t|);
    HashAt(pre + t, |pre|, seed);
    assert (pre + t)[|pre|..] == t;
    FoldConcat(pre, t, 16, Start(seed), BlockStep);
  }

  /** Keys that differ inside exactly one 16-byte block never collide. */
  lemma BlocksNeverCollide(pre: seq<Byte>, b: seq<Byte>, c: seq<Byte>, post: seq<Byte>, seed: bv32)
    requires |pre| % 16 == 0 && |b| == |c| == 16 && b != c && |pre| + 16 + |post| < MAX_LEN
    ensures Hash(pre + b + post, seed) != Hash(pre + c + post, seed)
  {
    hide BlockStep, TailStep, Finish, Unfinish, Start, LengthWord;
    BlockStepLaws();
    var key1, key2 := pre + b + post, pre + c + post;
    var k := |key1| / 16 * 16;
    SameFrom(pre, b, c, post, k);
    var t := key1[k..];
    OneBlockApart(pre, b, c, post, 16, Start(seed), BlockStep);
    var h, g := Fold(key1, 16, Start(seed), BlockStep), Fold(key2, 16, Start(seed), BlockStep);
    if TailStep(t, h) == TailStep(t, g) {
      TailStepInjectiveInState(t, h, g);
    }
    FinishUnfinish(LengthWord(|key1|), TailStep(t, h));
    FinishUnfinish(LengthWord(|key1|), TailStep(t, g));
  }

  /** Keys of one length that differ only in the last 1 to 15 bytes never collide. */
  lemma TailsNeverCollide(pre: seq<Byte>, t: seq<Byte>, u: seq<Byte>, seed: bv32)
    requires |pre| % 16 == 0 && |t| == |u| < 16 && t != u && |pre| + |t| < MAX_LEN
    ensures Hash(pre + t, seed) != Hash(pre + u, seed)
  {
    hide BlockStep, TailStep, Finish, Unfinish, Start, LengthWord, Hash;
    HashSplit(pre, t, seed);
    HashSplit(pre, u, seed);
    var len, h := LengthWord(|pre| + |t|), Fold(pre, 16, Start(seed), BlockStep);
    if TailStep(t, h) == TailStep(u, h) {
      TailStepInjectiveInTail(t, u, h);
    }
    FinishUnfinish(len, TailStep(t, h));
    FinishUnfinish(len, TailStep(u, h));
  }

  /** Of one key, no two seeds give the same hash. */
  lemma SeedsNeverCollide(key: seq<Byte>, seed: bv32, other: bv32)
    requires |key| < MAX_LEN && seed != other
    ensures Hash(key, seed) != Hash(key, other)
  {
    hide BlockStep, TailStep, Finish, Unfinish, Start, LengthWord;
    BlockStepLaws();
    if Start(seed) == Start(other) {
      SeedWord(seed, other);
    }
    var t := key[|key| / 16 * 16..];
    var h, g := Fold(key, 16, Start(seed), BlockStep), Fold(key, 16, Start(other), BlockStep);
    if h == g {
      FoldInjective(key, 16, Start(seed), Start(other), BlockStep);
    } else if TailStep(t, h) == TailStep(t, g) {
      TailStepInjectiveInState(t, h, g);
    }
    FinishUnfinish(LengthWord(|key|), TailStep(t, h));
    FinishUnfinish(LengthWord(|key|), TailStep(t, g));
  }

  lemma SeedWord(seed: bv32, other: bv32)
    requires Start(seed) == Start(other)
    ensures seed == other
  {
    assert Start(seed).h1 == Start(other).h1;
    assert (seed as bv64) as bv32 == seed && (other as bv64) as bv32 == other;
  }

  lemma TailStepInjectiveInState(t: seq<Byte>, h: Pair, g: Pair)
    requires |t| < 16 && TailStep(t, h) == TailStep(t, g)
    ensures h == g
  {
    hide Xor64, ScrambleK1, ScrambleK2, ReadLe64;
    if |t| > 8 {
      var k2 := ScrambleK2(ReadLe64(Padded(t[8..], 8)));
      XorXor64(h.h2, k2);
      XorXor64(g.h2, k2);
    }
    if |t| > 0 {
      var k1 := ScrambleK1(ReadLe64(Padded(if |t| > 8 then t[..8] else t, 8)));
      XorXor64(h.h1, k1);
      XorXor64(g.h1, k1);
    }
  }

  lemma TailStepInjectiveInTail(t: seq<Byte>, u: seq<Byte>, h: Pair)
    requires |t| == |u| < 16 && TailStep(t, h) == TailStep(u, h)
    ensures t == u
  {
    hide Xor64, ScrambleK1, ScrambleK2, UnscrambleK1, UnscrambleK2, ReadLe64;
    var t1, u1 := if |t| > 8 then t[..8] else t, if |u| > 8 then u[..8] else u;
    if |t| > 8 {
      var v, w := ReadLe64(Padded(t[8..], 8)), ReadLe64(Padded(u[8..], 8));
      XorCancels(h.h2, ScrambleK2(v));
      XorCancels(h.h2, ScrambleK2(w));
      ScrambleUnscramble(v);
      ScrambleUnscramble(w);
      PaddedWord64Injective(t[8..], u[8..]);
      assert t == t1 + t[8..] && u == u1 + u[8..];
    }
    if |t| > 0 {
      var v, w := ReadLe64(Padded(t1, 8)), ReadLe64(Padded(u1, 8));
      XorCancels(h.h1, ScrambleK1(v));
      XorCancels(h.h1, ScrambleK1(w));
      ScrambleUnscramble(v);
      ScrambleUnscramble(w);
      PaddedWord64Injective(t1, u1);
    }
  }

  /** The 16-byte key with the given hash. */
  function Unhash16(out: Pair, seed: bv32): (key: seq<Byte>)
    ensures |key| == 16
  {
    UnstepBlock(Start(seed), Unfinish(16, out))
  }

  /** On 16-byte keys the hash is a permutation: it hits every 128-bit value, and each once. */
  lemma Hash16IsPermutation(key: seq<Byte>, out: Pair, seed: bv32)
    requires |key| == 16
    ensures Unhash16(Hash(key, seed), seed) == key
    ensures Hash(Unhash16(out, seed), seed) == out
  {
    hide BlockStep, UnstepBlock, Finish, Unfinish, Start;
    BlockStepLaws();
    var h0 := Start(seed);
    Hash16(key, seed);
    Hash16(Unhash16(out, seed), seed);
    FinishUnfinish(16, BlockStep(key, h0));
    FinishUnfinish(16, out);
    StepUnstepBlock(key, h0, Unfinish(16, out));
  }

  lemma Hash16(key: seq<Byte>, seed: bv32)
    requires |key| == 16
    ensures Hash(key, seed) == Finish(16, BlockStep(key, Start(seed)))
  {
    hide BlockStep, Finish, Start;
    BlockStepLaws();
    assert key[..16] == key && key[16..] == [];
    var h := BlockStep(key, Start(seed));
    assert Fold(key[16..], 16, h, BlockStep) == h;
    assert TailStep([], h) == h;
  }

  // ---------------------------------------------------------------- five-tuples

  /** struct ipv4_5tuple as it lies in memory: three padding bytes after proto. */
  datatype FiveTuple = FiveTuple(proto: Byte, src: bv32, dst: bv32, sport: bv16, dport: bv16)

  function Le16(w: bv16): (s: seq<Byte>)
    ensures |s| == 2
  {
    [(w & 0xff) as Byte, ((w >> 8) & 0xff) as Byte]
  }

  function Bytes(t: FiveTuple, padding: seq<Byte>): (s: seq<Byte>)
    requires |padding| == 3
    ensures |s| == 16
  {
    [t.proto] + padding + WriteLe32(t.src) + WriteLe32(t.dst) + Le16(t.sport) + Le16(t.dport)
  }

  lemma Le16Injective(v: bv16, w: bv16)
    requires Le16(v) == Le16(w)
    ensures v == w
  {
    assert Le16(v)[0] == Le16(w)[0] && Le16(v)[1] == Le16(w)[1];
  }

  /** Two structs that differ, be it in a field or in the padding, never share a 128-bit hash. */
  lemma FiveTuplesNeverCollide(t: FiveTuple, p: seq<Byte>, u: FiveTuple, q: seq<Byte>, seed: bv32)
    requires |p| == |q| == 3 && (t != u || p != q)
    ensures Hash(Bytes(t, p), seed) != Hash(Bytes(u, q), seed)
  {
    hide Hash, WriteLe32, Le16;
    var a, b := Bytes(t, p), Bytes(u, q);
    if a == b {
      assert a[0] == t.proto && b[0] == u.proto;
      assert a[1..4] == p && b[1..4] == q;
      assert a[4..8] == WriteLe32(t.src) && b[4..8] == WriteLe32(u.src);
      assert a[8..12] == WriteLe32(t.dst) && b[8..12] == WriteLe32(u.dst);
      assert a[12..14] == Le16(t.sport) && b[12..14] == Le16(u.sport);
      assert a[14..] == Le16(t.dport) && b[14..] == Le16(u.dport);
      ReadWriteLe32(t.src);
      ReadWriteLe32(u.src);
      ReadWriteLe32(t.dst);
      ReadWriteLe32(u.dst);
      Le16Injective(t.sport, u.sport);
      Le16Injective(t.dport, u.dport);
    }
    Hash16IsPermutation(a, Pair(0, 0), seed);
    Hash16IsPermutation(b, Pair(0, 0), seed);
  }
}
