/** The 32-bit words of MurmurHash3_x86_32 and MurmurHash3_x86_128: multipliers,
    scrambling of key words, stirring of state words, fmix32, each with its inverse. */
module MurmurX86Words {
  import opened RawWords
  import opened Words
  import opened Blocks

  function Mul32(x: bv32, c: bv32): bv32 { x * c }

  const A1: bv32 := 0xcc9e2d51
  const A2: bv32 := 0x1b873593
  const C1: bv32 := 0x239b961b
  const C2: bv32 := 0xab0e9789
  const C3: bv32 := 0x38b34ae5
  const C4: bv32 := 0xa1e38b93
  const FIVE: bv32 := 0x5
  const F1: bv32 := 0x85ebca6b
  const F2: bv32 := 0xc2b2ae35

  // their inverses modulo 2^32
  const A1_INVERSE: bv32 := 0xdee13bb1
  const A2_INVERSE: bv32 := 0x56ed309b
  const C1_INVERSE: bv32 := 0x89c95413
  const C2_INVERSE: bv32 := 0xdf130eb9
  const C3_INVERSE: bv32 := 0x747862ed
  const C4_INVERSE: bv32 := 0x58d64a9b
  const FIVE_INVERSE: bv32 := 0xcccccccd
  const F1_INVERSE: bv32 := 0xa5cb9243
  const F2_INVERSE: bv32 := 0x7ed1b41d

  /** Multiplying by d undoes multiplying by c, and the other way round. */
  ghost predicate Inverses(c: bv32, d: bv32) {
    forall x :: Mul32(Mul32(x, c), d) == x && Mul32(Mul32(x, d), c) == x
  }

  lemma UndoA1(x: bv32)
    ensures Mul32(Mul32(x, A1), A1_INVERSE) == x
    ensures Mul32(Mul32(x, A1_INVERSE), A1) == x
  {
    assert Mul32(x * 0xcc9e2d51, 0xdee13bb1) == x;
    assert Mul32(x * 0xdee13bb1, 0xcc9e2d51) == x;
  }

  lemma UndoA2(x: bv32)
    ensures Mul32(Mul32(x, A2), A2_INVERSE) == x
    ensures Mul32(Mul32(x, A2_INVERSE), A2) == x
  {
    assert Mul32(x * 0x1b873593, 0x56ed309b) == x;
    assert Mul32(x * 0x56ed309b, 0x1b873593) == x;
  }

  lemma UndoC1(x: bv32)
    ensures Mul32(Mul32(x, C1), C1_INVERSE) == x
    ensures Mul32(Mul32(x, C1_INVERSE), C1) == x
  {
    assert Mul32(x * 0x239b961b, 0x89c95413) == x;
    assert Mul32(x * 0x89c95413, 0x239b961b) == x;
  }

  lemma UndoC2(x: bv32)
    ensures Mul32(Mul32(x, C2), C2_INVERSE) == x
    ensures Mul32(Mul32(x, C2_INVERSE), C2) == x
  {
    assert Mul32(x * 0xab0e9789, 0xdf130eb9) == x;
    assert Mul32(x * 0xdf130eb9, 0xab0e9789) == x;
  }

  lemma UndoC3(x: bv32)
    ensures Mul32(Mul32(x, C3), C3_INVERSE) == x
    ensures Mul32(Mul32(x, C3_INVERSE), C3) == x
  {
    assert Mul32(x * 0x38b34ae5, 0x747862ed) == x;
    assert Mul32(x * 0x747862ed, 0x38b34ae5) == x;
  }

  lemma UndoC4(x: bv32)
    ensures Mul32(Mul32(x, C4), C4_INVERSE) == x
    ensures Mul32(Mul32(x, C4_INVERSE), C4) == x
  {
    assert Mul32(x * 0xa1e38b93, 0x58d64a9b) == x;
    assert Mul32(x * 0x58d64a9b, 0xa1e38b93) == x;
  }

  lemma UndoFIVE(x: bv32)
    ensures Mul32(Mul32(x, FIVE), FIVE_INVERSE) == x
    ensures Mul32(Mul32(x, FIVE_INVERSE), FIVE) == x
  {
    assert Mul32(x * 0x5, 0xcccccccd) == x;
    assert Mul32(x * 0xcccccccd, 0x5) == x;
  }

  lemma UndoF1(x: bv32)
    ensures Mul32(Mul32(x, F1), F1_INVERSE) == x
    ensures Mul32(Mul32(x, F1_INVERSE), F1) == x
  {
    assert Mul32(x * 0x85ebca6b, 0xa5cb9243) == x;
    assert Mul32(x * 0xa5cb9243, 0x85ebca6b) == x;
  }

  lemma UndoF2(x: bv32)
    ensures Mul32(Mul32(x, F2), F2_INVERSE) == x
    ensures Mul32(Mul32(x, F2_INVERSE), F2) == x
  {
    assert Mul32(x * 0xc2b2ae35, 0x7ed1b41d) == x;
    assert Mul32(x * 0x7ed1b41d, 0xc2b2ae35) == x;
  }

  lemma MultipliersInvertible()
    ensures Inverses(A1, A1_INVERSE)
    ensures Inverses(A2, A2_INVERSE)
    ensures Inverses(C1, C1_INVERSE)
    ensures Inverses(C2, C2_INVERSE)
    ensures Inverses(C3, C3_INVERSE)
    ensures Inverses(C4, C4_INVERSE)
  {
    hide Mul32;
    forall x ensures Mul32(Mul32(x, A1), A1_INVERSE) == x && Mul32(Mul32(x, A1_INVERSE), A1) == x {
      UndoA1(x);
    }
    forall x ensures Mul32(Mul32(x, A2), A2_INVERSE) == x && Mul32(Mul32(x, A2_INVERSE), A2) == x {
      UndoA2(x);
    }
    forall x ensures Mul32(Mul32(x, C1), C1_INVERSE) == x && Mul32(Mul32(x, C1_INVERSE), C1) == x {
      UndoC1(x);
    }
    forall x ensures Mul32(Mul32(x, C2), C2_INVERSE) == x && Mul32(Mul32(x, C2_INVERSE), C2) == x {
      UndoC2(x);
    }
    forall x ensures Mul32(Mul32(x, C3), C3_INVERSE) == x && Mul32(Mul32(x, C3_INVERSE), C3) == x {
      UndoC3(x);
    }
    forall x ensures Mul32(Mul32(x, C4), C4_INVERSE) == x && Mul32(Mul32(x, C4_INVERSE), C4) == x {
      UndoC4(x);
    }
  }

  // ---------------------------------------------------------------- fmix32

  function Shift16(x: bv32): bv32 { x ^ (x >> 16) }

  function Shift13(x: bv32): bv32 { x ^ (x >> 13) }

  function Unshift13(x: bv32): bv32 { x ^ (x >> 13) ^ (x >> 26) }

  lemma UndoShifts(x: bv32)
    ensures Shift16(Shift16(x)) == x
    ensures Unshift13(Shift13(x)) == x
    ensures Shift13(Unshift13(x)) == x
  {
    assert Shift16(x ^ (x >> 16)) == x;
    assert Unshift13(x ^ (x >> 13)) == x;
    assert Shift13(x ^ (x >> 13) ^ (x >> 26)) == x;
  }

  function Fmix32(h: bv32): bv32 {
    Shift16(Mul32(Shift13(Mul32(Shift16(h), F1)), F2))
  }

  function Unfmix32(h: bv32): bv32 {
    Shift16(Mul32(Unshift13(Mul32(Shift16(h), F2_INVERSE)), F1_INVERSE))
  }

  lemma FmixUnfmix(h: bv32)
    ensures Unfmix32(Fmix32(h)) == h
    ensures Fmix32(Unfmix32(h)) == h
  {
    hide Mul32, Shift16, Shift13, Unshift13;
    var a, b := Shift16(h), Mul32(Shift16(h), F1);
    UndoShifts(h);
    UndoF1(a);
    UndoShifts(b);
    UndoF2(Shift13(b));
    UndoShifts(Mul32(Shift13(b), F2));
    var c := Mul32(a, F2_INVERSE);
    UndoF2(a);
    UndoShifts(c);
    UndoF1(Unshift13(c));
    UndoShifts(Mul32(Unshift13(c), F1_INVERSE));
  }

  // ---------------------------------------------------------------- key words

  /** k *= c; k = ROTL32(k, r); k *= d */
  function Scramble(k: bv32, c: bv32, r: nat, d: bv32): bv32
    requires 0 < r < 32
  {
    Mul32(Rotl32(Mul32(k, c), r), d)
  }

  /** Undoes a scrambling, given the inverses of its multipliers. */
  function Unscramble(k: bv32, c': bv32, r: nat, d': bv32): bv32
    requires 0 < r < 32
  {
    Mul32(Rotr32(Mul32(k, d'), r), c')
  }

  lemma ScrambleUnscramble(k: bv32, c: bv32, c': bv32, r: nat, d: bv32, d': bv32)
    requires 0 < r < 32 && Inverses(c, c') && Inverses(d, d')
    ensures Unscramble(Scramble(k, c, r, d), c', r, d') == k
    ensures Scramble(Unscramble(k, c', r, d'), c, r, d) == k
  {
    hide Mul32, Rotl32, Rotr32;
    RotlRotr32(Mul32(k, c), r);
    RotlRotr32(Mul32(k, d'), r);
  }

  // ---------------------------------------------------------------- state words

  /** h = ROTL32(h ^ k, r); h += other; h = h * 5 + n */
  function Stir(h: bv32, k: bv32, r: nat, other: bv32, n: bv32): bv32
    requires 0 < r < 32
  {
    Add32(Mul32(Add32(Rotl32(Xor32(h, k), r), other), FIVE), n)
  }

  /** What was in h ^ k before the stirring. */
  function Unstir(g: bv32, r: nat, other: bv32, n: bv32): bv32
    requires 0 < r < 32
  {
    Rotr32(Sub32(Mul32(Sub32(g, n), FIVE_INVERSE), other), r)
  }

  lemma StirUnstir(h: bv32, k: bv32, r: nat, other: bv32, n: bv32)
    requires 0 < r < 32
    ensures Unstir(Stir(h, k, r, other, n), r, other, n) == Xor32(h, k)
  {
    hide Add32, Sub32, Mul32, Xor32, Rotl32, Rotr32;
    var x := Xor32(h, k);
    RotlRotr32(x, r);
    AddSub32(Rotl32(x, r), other);
    UndoFIVE(Add32(Rotl32(x, r), other));
    AddSub32(Mul32(Add32(Rotl32(x, r), other), FIVE), n);
  }

  lemma XorCancels(x: bv32, y: bv32)
    ensures Xor32(Xor32(x, y), x) == y
    ensures Xor32(x, Xor32(y, x)) == y
  {
    assert Xor32(x ^ y, x) == y;
    assert Xor32(x, y ^ x) == y;
  }

  function LengthWord(len: nat): bv32
    requires len < MAX_LEN
  {
    len as bv32
  }

  lemma LengthWordInjective(m: nat, n: nat)
    requires m < MAX_LEN && n < MAX_LEN && LengthWord(m) == LengthWord(n)
    ensures m == n
  {
    WordValue(m);
    WordValue(n);
  }

  // ---------------------------------------------------------------- tails

  /** One case label of the switch: skipped when the tail has no byte k. */
  method XorByte(y: bv32, s: seq<Byte>, k: nat) returns (r: bv32)
    requires |s| <= 4 && k < 4
    requires y == XoredFrom32(s, k + 1)
    ensures r == XoredFrom32(s, k)
  {
    hide PlacedByte32, Xor32;
    r := y;
    if k < |s| {
      r := Xor32(y, PlacedByte32(s[k], k));
    }
  }

  /** Four fall-through cases of the switch. */
  method XorBytes(s: seq<Byte>) returns (r: bv32)
    requires |s| <= 4
    ensures r == ReadLe32(Padded(s, 4))
  {
    hide Xor32, ReadLe32, PlacedByte32;
    r := XorByte(0, s, 3);
    r := XorByte(r, s, 2);
    r := XorByte(r, s, 1);
    r := XorByte(r, s, 0);
    XoredTailIsWord32(s);
  }
}

/** MurmurHash3_x86_32 */
module Murmur32 {
  import opened Words
  import opened Blocks
  import opened MurmurX86Words

  const N: bv32 := 0xe6546b64

  function ScrambleK(b: seq<Byte>): bv32
    requires |b| == 4
  {
    Scramble(ReadLe32(b), A1, 15, A2)
  }

  function BlockStep(b: seq<Byte>, h: bv32): bv32
    requires |b| == 4
  {
    Add32(Mul32(Rotl32(Xor32(h, ScrambleK(b)), 13), FIVE), N)
  }

  /** What was in h ^ k before the multiplication. */
  function Unstep(g: bv32): bv32 {
    Rotr32(Mul32(Sub32(g, N), FIVE_INVERSE), 13)
  }

  lemma StepUnstep(b: seq<Byte>, h: bv32)
    requires |b| == 4
    ensures Unstep(BlockStep(b, h)) == Xor32(h, ScrambleK(b))
  {
    hide Add32, Sub32, Mul32, Xor32, Rotl32, Rotr32, ScrambleK;
    var x := Rotl32(Xor32(h, ScrambleK(b)), 13);
    RotlRotr32(Xor32(h, ScrambleK(b)), 13);
    UndoFIVE(x);
    AddSub32(Mul32(x, FIVE), N);
  }

  lemma ScrambleKInjective(b: seq<Byte>, c: seq<Byte>)
    requires |b| == |c| == 4 && ScrambleK(b) == ScrambleK(c)
    ensures b == c
  {
    hide Scramble, Unscramble, ReadLe32, Inverses;
    MultipliersInvertible();
    ScrambleUnscramble(ReadLe32(b), A1, A1_INVERSE, 15, A2, A2_INVERSE);
    ScrambleUnscramble(ReadLe32(c), A1, A1_INVERSE, 15, A2, A2_INVERSE);
    ReadLe32Injective(b, c);
  }

  lemma BlockStepLaws()
    ensures Steps(4, BlockStep) && InjectiveInState(4, BlockStep) && InjectiveInBlock(4, BlockStep)
  {
    hide BlockStep, ScrambleK, Xor32, Unstep;
    forall b, h, g | |b| == 4 && BlockStep(b, h) == BlockStep(b, g) ensures h == g {
      StepUnstep(b, h);
      StepUnstep(b, g);
      XorXor32(h, ScrambleK(b));
      XorXor32(g, ScrambleK(b));
    }
    forall b, c, h | |b| == |c| == 4 && BlockStep(b, h) == BlockStep(c, h) ensures b == c {
      StepUnstep(b, h);
      StepUnstep(c, h);
      XorCancels(h, ScrambleK(b));
      XorCancels(h, ScrambleK(c));
      ScrambleKInjective(b, c);
    }
  }

  /** The last 0 to 3 bytes, padded with zeros to a word. */
  function TailStep(t: seq<Byte>, h: bv32): bv32
    requires |t| < 4
  {
    if t == [] then h else Xor32(h, ScrambleK(Padded(t, 4)))
  }

  function Finish(len: bv32, h: bv32): bv32 { Fmix32(Xor32(h, len)) }

  lemma FinishInjective(len: bv32, h: bv32, g: bv32)
    requires Finish(len, h) == Finish(len, g)
    ensures h == g
  {
    hide Fmix32, Unfmix32, Xor32;
    FmixUnfmix(Xor32(h, len));
    FmixUnfmix(Xor32(g, len));
    XorXor32(h, len);
    XorXor32(g, len);
  }

  ghost function Hash(key: seq<Byte>, seed: bv32): bv32
    requires |key| < MAX_LEN
  {
    BlockStepLaws();
    Finish(LengthWord(|key|), TailStep(key[|key| / 4 * 4..], Fold(key, 4, seed, BlockStep)))
  }

  /** The loop body. */
  method MixBlock(b: seq<Byte>, h: bv32) returns (h1: bv32)
    requires |b| == 4
    ensures h1 == BlockStep(b, h)
  {
    hide Add32, Mul32, Xor32, Rotl32, ReadLe32;
    h1 := h;
    var k1 := ReadLe32(b);

    k1 := Mul32(k1, A1);
    k1 := Rotl32(k1, 15);
    k1 := Mul32(k1, A2);

    h1 := Xor32(h1, k1);
    h1 := Rotl32(h1, 13);
    h1 := Add32(Mul32(h1, 5), 0xe6546b64);
  }

  /** body; the blocks are read at negative word indices from their end */
  method MixBody(key: seq<Byte>, seed: bv32) returns (h1: bv32)
    ensures Steps(4, BlockStep) && h1 == Fold(key, 4, seed, BlockStep)
  {
    hide BlockStep;
    BlockStepLaws();
    var nblocks := |key| / 4;
    h1 := seed;
    assert key[..0] == [] && Fold([], 4, seed, BlockStep) == seed;
    var i := -nblocks;
    while i != 0
      invariant -nblocks <= i <= 0
      invariant h1 == Fold(key[..4 * (nblocks + i)], 4, seed, BlockStep)
    {
      var at := nblocks * 4 + 4 * i;
      FoldNext(key, at, 4, seed, BlockStep);
      h1 := MixBlock(key[at..at + 4], h1);
      i := i + 1;
    }
    FoldRemainder(key, 4 * nblocks, 4, seed, BlockStep);
  }

  method MurmurHash3_x86_32(key: seq<Byte>, seed: bv32) returns (out: bv32)
    requires |key| < MAX_LEN
    ensures out == Hash(key, seed)
  {
    hide Mul32, Xor32, Rotl32, ReadLe32, Fmix32, LengthWord;
    var h1 := MixBody(key, seed);

    var tail := key[|key| / 4 * 4..];
    if |tail| >= 1 {
      var k1 := XorBytes(tail);
      k1 := Mul32(k1, A1); k1 := Rotl32(k1, 15); k1 := Mul32(k1, A2); h1 := Xor32(h1, k1);
    }

    h1 := Xor32(h1, LengthWord(|key|));
    out := Fmix32(h1);
  }

  // ---------------------------------------------------------------- no collisions

  lemma HashAt(key: seq<Byte>, k: nat, seed: bv32)
    requires |key| < MAX_LEN && k == |key| / 4 * 4
    ensures Steps(4, BlockStep)
    ensures Hash(key, seed) == Finish(LengthWord(|key|), TailStep(key[k..], Fold(key, 4, seed, BlockStep)))
  {
    BlockStepLaws();
  }

  lemma HashSplit(pre: seq<Byte>, t: seq<Byte>, seed: bv32)
    requires |pre| % 4 == 0 && |t| < 4 && |pre| + |t| < MAX_LEN
    ensures Steps(4, BlockStep)
    ensures Hash(pre + t, seed) == Finish(LengthWord(|pre| + |t|), TailStep(t, Fold(pre, 4, seed, BlockStep)))
  {
    hide BlockStep, TailStep, Finish, LengthWord, Hash;
    WholePart(|pre|, |t|);
    HashAt(pre + t, |pre|, seed);
    assert (pre + t)[|pre|..] == t;
    FoldConcat(pre, t, 4, seed, BlockStep);
  }

  lemma TailStepInjectiveInState(t: seq<Byte>, h: bv32, g: bv32)
    requires |t| < 4 && TailStep(t, h) == TailStep(t, g)
    ensures h == g
  {
    hide Xor32, ScrambleK;
    if t != [] {
      XorXor32(h, ScrambleK(Padded(t, 4)));
      XorXor32(g, ScrambleK(Padded(t, 4)));
    }
  }

  lemma TailStepInjectiveInTail(t: seq<Byte>, u: seq<Byte>, h: bv32)
    requires |t| == |u| < 4 && TailStep(t, h) == TailStep(u, h)
    ensures t == u
  {
    hide Xor32, ScrambleK, ReadLe32;
    if t != [] {
      var a, b := Padded(t, 4), Padded(u, 4);
      XorCancels(h, ScrambleK(a));
      XorCancels(h, ScrambleK(b));
      ScrambleKInjective(a, b);
      PaddedWord32Injective(t, u);
    }
  }

  /** Of one key, no two seeds give the same hash. */
  lemma SeedsNeverCollide(key: seq<Byte>, seed: bv32, other: bv32)
    requires |key| < MAX_LEN && seed != other
    ensures Hash(key, seed) != Hash(key, other)
  {
    hide BlockStep, TailStep, Finish, LengthWord;
    BlockStepLaws();
    var t := key[|key| / 4 * 4..];
    var h, g := Fold(key, 4, seed, BlockStep), Fold(key, 4, other, BlockStep);
    if Hash(key, seed) == Hash(key, other) {
      FinishInjective(LengthWord(|key|), TailStep(t, h), TailStep(t, g));
      TailStepInjectiveInState(t, h, g);
      FoldInjective(key, 4, seed, other, BlockStep);
    }
  }

  /** Keys that differ inside exactly one 4-byte block never collide. */
  lemma BlocksNeverCollide(pre: seq<Byte>, b: seq<Byte>, c: seq<Byte>, post: seq<Byte>, seed: bv32)
    requires |pre| % 4 == 0 && |b| == |c| == 4 && b != c && |pre| + 4 + |post| < MAX_LEN
    ensures Hash(pre + b + post, seed) != Hash(pre + c + post, seed)
  {
    hide BlockStep, TailStep, Finish, LengthWord;
    BlockStepLaws();
    var key1, key2 := pre + b + post, pre + c + post;
    var k := |key1| / 4 * 4;
    SameFrom(pre, b, c, post, k);
    var t := key1[k..];
    OneBlockApart(pre, b, c, post, 4, seed, BlockStep);
    var h, g := Fold(key1, 4, seed, BlockStep), Fold(key2, 4, seed, BlockStep);
    if Hash(key1, seed) == Hash(key2, seed) {
      FinishInjective(LengthWord(|key1|), TailStep(t, h), TailStep(t, g));
      TailStepInjectiveInState(t, h, g);
    }
  }

  /** Keys of one length that differ only in the last 1 to 3 bytes never collide. */
  lemma TailsNeverCollide(pre: seq<Byte>, t: seq<Byte>, u: seq<Byte>, seed: bv32)
    requires |pre| % 4 == 0 && |t| == |u| < 4 && t != u && |pre| + |t| < MAX_LEN
    ensures Hash(pre + t, seed) != Hash(pre + u, seed)
  {
    hide BlockStep, TailStep, Finish, LengthWord, Hash;
    HashSplit(pre, t, seed);
    HashSplit(pre, u, seed);
    var h := Fold(pre, 4, seed, BlockStep);
    if Hash(pre + t, seed) == Hash(pre + u, seed) {
      FinishInjective(LengthWord(|pre| + |t|), TailStep(t, h), TailStep(u, h));
      TailStepInjectiveInTail(t, u, h);
    }
  }

  /** The 4-byte key with the given hash. */
  function Unhash4(out: bv32, seed: bv32): (key: seq<Byte>)
    ensures |key| == 4
  {
    var h := Xor32(Unfmix32(out), 4);
    WriteLe32(Unscramble(Xor32(Unstep(h), seed), A1_INVERSE, 15, A2_INVERSE))
  }

  /** On 4-byte keys every 32-bit value is hit; with BlocksNeverCollide, exactly once. */
  lemma Hash4IsOnto(out: bv32, seed: bv32)
    ensures Hash(Unhash4(out, seed), seed) == out
  {
    hide Add32, Sub32, Mul32, Xor32, Rotl32, Rotr32, Fmix32, Unfmix32;
    hide Scramble, Unscramble, ReadLe32, WriteLe32, Inverses;
    BlockStepLaws();
    MultipliersInvertible();
    var h := Xor32(Unfmix32(out), 4);
    var x := Xor32(Unstep(h), seed);
    var w := Unscramble(x, A1_INVERSE, 15, A2_INVERSE);
    var key := Unhash4(out, seed);
    ReadWriteLe32(w);
    ScrambleUnscramble(x, A1, A1_INVERSE, 15, A2, A2_INVERSE);
    XorCancels(seed, Unstep(h));
    AddSub32(h, N);
    UndoFIVE(Sub32(h, N));
    RotlRotr32(Mul32(Sub32(h, N), FIVE_INVERSE), 13);
    assert BlockStep(key, seed) == h;
    assert key[..4] == key && key[4..] == [];
    assert Fold([], 4, h, BlockStep) == h;
    assert Hash(key, seed) == Finish(LengthWord(4), h);
    assert LengthWord(4) == 4;
    XorXor32(Unfmix32(out), 4);
    FmixUnfmix(out);
  }
}

/** MurmurHash3_x86_128 */
module Murmur128 {
  import opened Words
  import opened Blocks
  import opened MurmurX86Words

  datatype Quad = Quad(h1: bv32, h2: bv32, h3: bv32, h4: bv32)

  const N1: bv32 := 0x561ccd1b
  const N2: bv32 := 0x0bcaa747
  const N3: bv32 := 0x96cd1c35
  const N4: bv32 := 0x32ac3b17

  // Each of the four words of a block is scrambled with its own constants.

  function K1(w: bv32): bv32 { Scramble(w, C1, 15, C2) }

  function K2(w: bv32): bv32 { Scramble(w, C2, 16, C3) }

  function K3(w: bv32): bv32 { Scramble(w, C3, 17, C4) }

  function K4(w: bv32): bv32 { Scramble(w, C4, 18, C1) }

  function Unk1(k: bv32): bv32 { Unscramble(k, C1_INVERSE, 15, C2_INVERSE) }

  function Unk2(k: bv32): bv32 { Unscramble(k, C2_INVERSE, 16, C3_INVERSE) }

  function Unk3(k: bv32): bv32 { Unscramble(k, C3_INVERSE, 17, C4_INVERSE) }

  function Unk4(k: bv32): bv32 { Unscramble(k, C4_INVERSE, 18, C1_INVERSE) }

  lemma KUnk(w: bv32)
    ensures Unk1(K1(w)) == w == K1(Unk1(w))
    ensures Unk2(K2(w)) == w == K2(Unk2(w))
    ensures Unk3(K3(w)) == w == K3(Unk3(w))
    ensures Unk4(K4(w)) == w == K4(Unk4(w))
  {
    hide Scramble, Unscramble, Inverses;
    MultipliersInvertible();
    ScrambleUnscramble(w, C1, C1_INVERSE, 15, C2, C2_INVERSE);
    ScrambleUnscramble(w, C2, C2_INVERSE, 16, C3, C3_INVERSE);
    ScrambleUnscramble(w, C3, C3_INVERSE, 17, C4, C4_INVERSE);
    ScrambleUnscramble(w, C4, C4_INVERSE, 18, C1, C1_INVERSE);
  }

  /** Scrambled key words stirred into the state, one after the other. */
  function Absorb(h: Quad, k1: bv32, k2: bv32, k3: bv32, k4: bv32): Quad {
    var g1 := Stir(h.h1, k1, 19, h.h2, N1);
    Quad(g1, Stir(h.h2, k2, 17, h.h3, N2), Stir(h.h3, k3, 15, h.h4, N3), Stir(h.h4, k4, 13, g1, N4))
  }

  function BlockStep(b: seq<Byte>, h: Quad): Quad
    requires |b| == 16
  {
    Absorb(h, K1(ReadLe32(b[..4])), K2(ReadLe32(b[4..8])), K3(ReadLe32(b[8..12])), K4(ReadLe32(b[12..])))
  }

  lemma StirInjective(h: bv32, g: bv32, k: bv32, l: bv32, r: nat, other: bv32, n: bv32)
    requires 0 < r < 32 && Stir(h, k, r, other, n) == Stir(g, l, r, other, n)
    ensures k == l ==> h == g
    ensures h == g ==> k == l
  {
    hide Stir, Unstir, Xor32;
    StirUnstir(h, k, r, other, n);
    StirUnstir(g, l, r, other, n);
    XorXor32(h, k);
    XorXor32(g, l);
    XorCancels(h, k);
    XorCancels(g, l);
  }

  lemma AbsorbInjective(h: Quad, g: Quad, k1: bv32, k2: bv32, k3: bv32, k4: bv32)
    requires Absorb(h, k1, k2, k3, k4) == Absorb(g, k1, k2, k3, k4)
    ensures h == g
  {
    hide Stir;
    StirInjective(h.h4, g.h4, k4, k4, 13, Absorb(h, k1, k2, k3, k4).h1, N4);
    StirInjective(h.h3, g.h3, k3, k3, 15, h.h4, N3);
    StirInjective(h.h2, g.h2, k2, k2, 17, h.h3, N2);
    StirInjective(h.h1, g.h1, k1, k1, 19, h.h2, N1);
  }

  lemma BlockStepLaws()
    ensures Steps(16, BlockStep) && InjectiveInState(16, BlockStep) && InjectiveInBlock(16, BlockStep)
  {
    forall b, h, g | |b| == 16 && BlockStep(b, h) == BlockStep(b, g) ensures h == g {
      hide Absorb, K1, K2, K3, K4, ReadLe32;
      AbsorbInjective(h, g, K1(ReadLe32(b[..4])), K2(ReadLe32(b[4..8])), K3(ReadLe32(b[8..12])), K4(ReadLe32(b[12..])));
    }
    forall b, c, h | |b| == |c| == 16 && BlockStep(b, h) == BlockStep(c, h) ensures b == c {
      hide BlockStep;
      BlockStepInjectiveInBlock(b, c, h);
    }
  }

  lemma BlockStepInjectiveInBlock(b: seq<Byte>, c: seq<Byte>, h: Quad)
    requires |b| == |c| == 16 && BlockStep(b, h) == BlockStep(c, h)
    ensures b == c
  {
    hide Stir, K1, K2, K3, K4, Unk1, Unk2, Unk3, Unk4, ReadLe32;
    var v1, v2, v3, v4 := ReadLe32(b[..4]), ReadLe32(b[4..8]), ReadLe32(b[8..12]), ReadLe32(b[12..]);
    var w1, w2, w3, w4 := ReadLe32(c[..4]), ReadLe32(c[4..8]), ReadLe32(c[8..12]), ReadLe32(c[12..]);
    StirInjective(h.h1, h.h1, K1(v1), K1(w1), 19, h.h2, N1);
    StirInjective(h.h2, h.h2, K2(v2), K2(w2), 17, h.h3, N2);
    StirInjective(h.h3, h.h3, K3(v3), K3(w3), 15, h.h4, N3);
    StirInjective(h.h4, h.h4, K4(v4), K4(w4), 13, BlockStep(b, h).h1, N4);
    KUnk(v1); KUnk(w1);
    KUnk(v2); KUnk(w2);
    KUnk(v3); KUnk(w3);
    KUnk(v4); KUnk(w4);
    ReadLe32Injective(b[..4], c[..4]);
    ReadLe32Injective(b[4..8], c[4..8]);
    ReadLe32Injective(b[8..12], c[8..12]);
    ReadLe32Injective(b[12..], c[12..]);
    assert b == b[..4] + b[4..8] + b[8..12] + b[12..];
    assert c == c[..4] + c[4..8] + c[8..12] + c[12..];
  }

  // ---------------------------------------------------------------- tail and finalisation

  /** Bytes 4 * j to 4 * j + 3 of the tail, as far as it goes. */
  function Chunk(t: seq<Byte>, j: nat): (c: seq<Byte>)
    ensures |c| <= 4
  {
    if |t| <= 4 * j then [] else if |t| < 4 * j + 4 then t[4 * j..] else t[4 * j..4 * j + 4]
  }

  function ChunkWord(t: seq<Byte>, j: nat): bv32 {
    ReadLe32(Padded(Chunk(t, j), 4))
  }

  /** Every word the tail has bytes of is scrambled and xored in. */
  function TailStep(t: seq<Byte>, h: Quad): Quad
    requires |t| < 16
  {
    Quad(if |t| > 0 then Xor32(h.h1, K1(ChunkWord(t, 0))) else h.h1,
         if |t| > 4 then Xor32(h.h2, K2(ChunkWord(t, 1))) else h.h2,
         if |t| > 8 then Xor32(h.h3, K3(ChunkWord(t, 2))) else h.h3,
         if |t| > 12 then Xor32(h.h4, K4(ChunkWord(t, 3))) else h.h4)
  }

  lemma TailStepInjectiveInState(t: seq<Byte>, h: Quad, g: Quad)
    requires |t| < 16 && TailStep(t, h) == TailStep(t, g)
    ensures h == g
  {
    hide Xor32, K1, K2, K3, K4, ChunkWord;
    var k1, k2, k3, k4 := K1(ChunkWord(t, 0)), K2(ChunkWord(t, 1)), K3(ChunkWord(t, 2)), K4(ChunkWord(t, 3));
    XorXor32(h.h1, k1); XorXor32(g.h1, k1);
    XorXor32(h.h2, k2); XorXor32(g.h2, k2);
    XorXor32(h.h3, k3); XorXor32(g.h3, k3);
    XorXor32(h.h4, k4); XorXor32(g.h4, k4);
  }

  lemma TailStepInjectiveInTail(t: seq<Byte>, u: seq<Byte>, h: Quad)
    requires |t| == |u| < 16 && TailStep(t, h) == TailStep(u, h)
    ensures t == u
  {
    hide Xor32, K1, K2, K3, K4, Unk1, Unk2, Unk3, Unk4, ChunkWord, Chunk;
    forall j: nat | j < 4 ensures Chunk(t, j) == Chunk(u, j) {
      var v, w := ChunkWord(t, j), ChunkWord(u, j);
      KUnk(v);
      KUnk(w);
      if |t| > 4 * j {
        match j {
          case 0 => XorCancels(h.h1, K1(v)); XorCancels(h.h1, K1(w));
          case 1 => XorCancels(h.h2, K2(v)); XorCancels(h.h2, K2(w));
          case 2 => XorCancels(h.h3, K3(v)); XorCancels(h.h3, K3(w));
          case _ => XorCancels(h.h4, K4(v)); XorCancels(h.h4, K4(w));
        }
      }
      ChunkInjective(t, u, j);
    }
    ChunksCover(t);
    ChunksCover(u);
  }

  lemma ChunkInjective(t: seq<Byte>, u: seq<Byte>, j: nat)
    requires |t| == |u| < 16 && j < 4 && (|t| > 4 * j ==> ChunkWord(t, j) == ChunkWord(u, j))
    ensures Chunk(t, j) == Chunk(u, j)
  {
    hide ReadLe32;
    if |t| > 4 * j {
      PaddedWord32Injective(Chunk(t, j), Chunk(u, j));
    }
  }

  lemma ChunksCover(t: seq<Byte>)
    requires |t| < 16
    ensures t == Chunk(t, 0) + Chunk(t, 1) + Chunk(t, 2) + Chunk(t, 3)
  {
  }

  /** Adds the other words to the first, and the sum to each of them. */
  function Cross(h: Quad): Quad {
    var s := Add32(Add32(Add32(h.h1, h.h2), h.h3), h.h4);
    Quad(s, Add32(h.h2, s), Add32(h.h3, s), Add32(h.h4, s))
  }

  function Uncross(g: Quad): Quad {
    var h2, h3, h4 := Sub32(g.h2, g.h1), Sub32(g.h3, g.h1), Sub32(g.h4, g.h1);
    Quad(Sub32(Sub32(Sub32(g.h1, h4), h3), h2), h2, h3, h4)
  }

  lemma CrossUncross(h: Quad)
    ensures Uncross(Cross(h)) == h
    ensures Cross(Uncross(h)) == h
  {
    hide Add32, Sub32;
    var a := Add32(h.h1, h.h2);
    var b := Add32(a, h.h3);
    var s := Add32(b, h.h4);
    AddSub32(h.h1, h.h2);
    AddSub32(a, h.h3);
    AddSub32(b, h.h4);
    AddSub32(h.h2, s); AddSub32(h.h3, s); AddSub32(h.h4, s);
    AddSub32(h.h2, h.h1); AddSub32(h.h3, h.h1); AddSub32(h.h4, h.h1);
    var g2, g3, g4 := Sub32(h.h2, h.h1), Sub32(h.h3, h.h1), Sub32(h.h4, h.h1);
    AddSub32(h.h1, g4);
    AddSub32(Sub32(h.h1, g4), g3);
    AddSub32(Sub32(Sub32(h.h1, g4), g3), g2);
  }

  function XorAll(h: Quad, x: bv32): Quad {
    Quad(Xor32(h.h1, x), Xor32(h.h2, x), Xor32(h.h3, x), Xor32(h.h4, x))
  }

  function FmixAll(h: Quad): Quad {
    Quad(Fmix32(h.h1), Fmix32(h.h2), Fmix32(h.h3), Fmix32(h.h4))
  }

  function UnfmixAll(h: Quad): Quad {
    Quad(Unfmix32(h.h1), Unfmix32(h.h2), Unfmix32(h.h3), Unfmix32(h.h4))
  }

  lemma UndoAll(h: Quad, x: bv32)
    ensures XorAll(XorAll(h, x), x) == h
    ensures UnfmixAll(FmixAll(h)) == h == FmixAll(UnfmixAll(h))
  {
    hide Xor32, Fmix32, Unfmix32;
    XorXor32(h.h1, x); XorXor32(h.h2, x); XorXor32(h.h3, x); XorXor32(h.h4, x);
    FmixUnfmix(h.h1); FmixUnfmix(h.h2); FmixUnfmix(h.h3); FmixUnfmix(h.h4);
  }

  function Finish(len: bv32, h: Quad): Quad { Cross(FmixAll(Cross(XorAll(h, len)))) }

  function Unfinish(len: bv32, h: Quad): Quad { XorAll(Uncross(UnfmixAll(Uncross(h))), len) }

  lemma FinishUnfinish(len: bv32, h: Quad)
    ensures Unfinish(len, Finish(len, h)) == h
    ensures Finish(len, Unfinish(len, h)) == h
  {
    hide Cross, Uncross, XorAll, FmixAll, UnfmixAll;
    var x := XorAll(h, len);
    UndoAll(h, len);
    CrossUncross(x);
    UndoAll(Cross(x), len);
    CrossUncross(FmixAll(Cross(x)));
    CrossUncross(h);
    UndoAll(Uncross(h), len);
    CrossUncross(UnfmixAll(Uncross(h)));
    UndoAll(Uncross(UnfmixAll(Uncross(h))), len);
  }

  function Start(seed: bv32): Quad { Quad(seed, seed, seed, seed) }

  ghost function Hash(key: seq<Byte>, seed: bv32): Quad
    requires |key| < MAX_LEN
  {
    BlockStepLaws();
    Finish(LengthWord(|key|), TailStep(key[|key| / 16 * 16..], Fold(key, 16, Start(seed), BlockStep)))
  }

  // ---------------------------------------------------------------- the C routine

  /** The loop body. */
  method MixBlock(b: seq<Byte>, h: Quad) returns (g: Quad)
    requires |b| == 16
    ensures g == BlockStep(b, h)
  {
    hide Mul32, Add32, Xor32, Rotl32, ReadLe32;
    var Quad(h1, h2, h3, h4) := h;
    var k1, k2, k3, k4 := ReadLe32(b[..4]), ReadLe32(b[4..8]), ReadLe32(b[8..12]), ReadLe32(b[12..]);

    k1 := Mul32(k1, C1); k1 := Rotl32(k1, 15); k1 := Mul32(k1, C2); h1 := Xor32(h1, k1);

    h1 := Rotl32(h1, 19); h1 := Add32(h1, h2); h1 := Add32(Mul32(h1, 5), 0x561ccd1b);

    k2 := Mul32(k2, C2); k2 := Rotl32(k2, 16); k2 := Mul32(k2, C3); h2 := Xor32(h2, k2);

    h2 := Rotl32(h2, 17); h2 := Add32(h2, h3); h2 := Add32(Mul32(h2, 5), 0x0bcaa747);

    k3 := Mul32(k3, C3); k3 := Rotl32(k3, 17); k3 := Mul32(k3, C4); h3 := Xor32(h3, k3);

    h3 := Rotl32(h3, 15); h3 := Add32(h3, h4); h3 := Add32(Mul32(h3, 5), 0x96cd1c35);

    k4 := Mul32(k4, C4); k4 := Rotl32(k4, 18); k4 := Mul32(k4, C1); h4 := Xor32(h4, k4);

    h4 := Rotl32(h4, 13); h4 := Add32(h4, h1); h4 := Add32(Mul32(h4, 5), 0x32ac3b17);
    g := Quad(h1, h2, h3, h4);
  }

  /** body; the blocks are read at negative word indices from their end */
  method MixBody(key: seq<Byte>, seed: bv32) returns (h: Quad)
    ensures Steps(16, BlockStep) && h == Fold(key, 16, Start(seed), BlockStep)
  {
    hide BlockStep;
    BlockStepLaws();
    var nblocks := |key| / 16;
    h := Start(seed);
    ghost var h0 := h;
    assert key[..0] == [] && Fold([], 16, h0, BlockStep) == h0;
    var i := -nblocks;
    while i != 0
      invariant -nblocks <= i <= 0
      invariant h == Fold(key[..16 * (nblocks + i)], 16, h0, BlockStep)
    {
      var at := nblocks * 16 + 4 * (i * 4 + 0);
      FoldNext(key, at, 16, h0, BlockStep);
      h := MixBlock(key[at..at + 16], h);
      i := i + 1;
    }
    FoldRemainder(key, 16 * nblocks, 16, h0, BlockStep);
  }

  /** tail */
  method MixTail(tail: seq<Byte>, h: Quad) returns (g: Quad)
    requires |tail| < 16
    ensures g == TailStep(tail, h)
  {
    hide Mul32, Xor32, Rotl32, ReadLe32, Chunk;
    var Quad(h1, h2, h3, h4) := h;
    if |tail| >= 13 {
      var k4 := XorBytes(Chunk(tail, 3));
      k4 := Mul32(k4, C4); k4 := Rotl32(k4, 18); k4 := Mul32(k4, C1); h4 := Xor32(h4, k4);
    }
    if |tail| >= 9 {
      var k3 := XorBytes(Chunk(tail, 2));
      k3 := Mul32(k3, C3); k3 := Rotl32(k3, 17); k3 := Mul32(k3, C4); h3 := Xor32(h3, k3);
    }
    if |tail| >= 5 {
      var k2 := XorBytes(Chunk(tail, 1));
      k2 := Mul32(k2, C2); k2 := Rotl32(k2, 16); k2 := Mul32(k2, C3); h2 := Xor32(h2, k2);
    }
    if |tail| >= 1 {
      var k1 := XorBytes(Chunk(tail, 0));
      k1 := Mul32(k1, C1); k1 := Rotl32(k1, 15); k1 := Mul32(k1, C2); h1 := Xor32(h1, k1);
    }
    g := Quad(h1, h2, h3, h4);
  }

  method MurmurHash3_x86_128(key: seq<Byte>, seed: bv32) returns (out: Quad)
    requires |key| < MAX_LEN
    ensures out == Hash(key, seed)
  {
    hide Add32, Xor32, Fmix32, TailStep, LengthWord, Start;
    var h := MixBody(key, seed);
    h := MixTail(key[|key| / 16 * 16..], h);
    var Quad(h1, h2, h3, h4) := h;

    var len := LengthWord(|key|);
    h1 := Xor32(h1, len); h2 := Xor32(h2, len); h3 := Xor32(h3, len); h4 := Xor32(h4, len);

    h1 := Add32(h1, h2); h1 := Add32(h1, h3); h1 := Add32(h1, h4);
    h2 := Add32(h2, h1); h3 := Add32(h3, h1); h4 := Add32(h4, h1);

    h1 := Fmix32(h1);
    h2 := Fmix32(h2);
    h3 := Fmix32(h3);
    h4 := Fmix32(h4);

    h1 := Add32(h1, h2); h1 := Add32(h1, h3); h1 := Add32(h1, h4);
    h2 := Add32(h2, h1); h3 := Add32(h3, h1); h4 := Add32(h4, h1);
    out := Quad(h1, h2, h3, h4);
  }

  // ---------------------------------------------------------------- no collisions

  lemma HashAt(key: seq<Byte>, k: nat, seed: bv32)
    requires |key| < MAX_LEN && k == |key| / 16 * 16
    ensures Steps(16, BlockStep)
    ensures Hash(key, seed) == Finish(LengthWord(|key|), TailStep(key[k..], Fold(key, 16, Start(seed), BlockStep)))
  {
    BlockStepLaws();
  }

  lemma HashSplit(pre: seq<Byte>, t: seq<Byte>, seed: bv32)
    requires |pre| % 16 == 0 && |t| < 16 && |pre| + |t| < MAX_LEN
    ensures Steps(16, BlockStep)
    ensures Hash(pre + t, seed) ==
            Finish(LengthWord(|pre| + |t|), TailStep(t, Fold(pre, 16, Start(seed), BlockStep)))
  {
    hide BlockStep, TailStep, Finish, Start, LengthWord, Hash;
    WholePart(|pre|, |t|);
    HashAt(pre + t, |pre|, seed);
    assert (pre + t)[|pre|..] == t;
    FoldConcat(pre, t, 16, Start(seed), BlockStep);
  }

  /** Of one key, no two seeds give the same hash. */
  lemma SeedsNeverCollide(key: seq<Byte>, seed: bv32, other: bv32)
    requires |key| < MAX_LEN && seed != other
    ensures Hash(key, seed) != Hash(key, other)
  {
    hide BlockStep, TailStep, Finish, Unfinish, LengthWord;
    BlockStepLaws();
    var t := key[|key| / 16 * 16..];
    var h, g := Fold(key, 16, Start(seed), BlockStep), Fold(key, 16, Start(other), BlockStep);
    if h == g {
      FoldInjective(key, 16, Start(seed), Start(other), BlockStep);
    } else if TailStep(t, h) == TailStep(t, g) {
      TailStepInjectiveInState(t, h, g);
    }
    FinishUnfinish(LengthWord(|key|), TailStep(t, h));
    FinishUnfinish(LengthWord(|key|), TailStep(t, g));
  }

  /** Keys that differ inside exactly one 16-byte block never collide. */
  lemma BlocksNeverCollide(pre: seq<Byte>, b: seq<Byte>, c: seq<Byte>, post: seq<Byte>, seed: bv32)
    requires |pre| % 16 == 0 && |b| == |c| == 16 && b != c && |pre| + 16 + |post| < MAX_LEN
    ensures Hash(pre + b + post, seed) != Hash(pre + c + post, seed)
  {
    hide BlockStep, TailStep, Finish, Unfinish, LengthWord, Start;
    BlockStepLaws();
    var key1, key2 := pre + b + post, pre + c + post;
    var k := |key1| / 16 * 16;
    SameFrom(pre, b, c, post, k);
    var t := key1[k..];
    OneBlockApart(pre, b, c, post, 16, Start(seed), BlockStep);
    var h, g := Fold(key1, 16, Start(seed), BlockStep), Fold(key2, 16, Start(seed), BlockStep);
    if TailStep(t, h) == TailStep(t, g) {
      TailStepInjectiveInState(t, h, g);
    }
    FinishUnfinish(LengthWord(|key1|), TailStep(t, h));
    FinishUnfinish(LengthWord(|key1|), TailStep(t, g));
  }

  /** Keys of one length that differ only in the last 1 to 15 bytes never collide. */
  lemma TailsNeverCollide(pre: seq<Byte>, t: seq<Byte>, u: seq<Byte>, seed: bv32)
    requires |pre| % 16 == 0 && |t| == |u| < 16 && t != u && |pre| + |t| < MAX_LEN
    ensures Hash(pre + t, seed) != Hash(pre + u, seed)
  {
    hide BlockStep, TailStep, Finish, Unfinish, Start, LengthWord, Hash;
    HashSplit(pre, t, seed);
    HashSplit(pre, u, seed);
    var len, h := LengthWord(|pre| + |t|), Fold(pre, 16, Start(seed), BlockStep);
    if TailStep(t, h) == TailStep(u, h) {
      TailStepInjectiveInTail(t, u, h);
    }
    FinishUnfinish(len, TailStep(t, h));
    FinishUnfinish(len, TailStep(u, h));
  }
}
