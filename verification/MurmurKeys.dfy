/** MurmurHash3_x64_128 of the empty key, and of keys with zeros added at the end. */
module Murmur64Keys {
  import opened RawWords
  import opened Words
  import opened Blocks
  import opened Murmur64

  // ---------------------------------------------------------------- the empty key

  lemma FinishNothing(w: bv64)
    ensures var a, b := Fmix64(Add64(w, w)), Fmix64(Add64(w, Add64(w, w)));
            Finish(0, Pair(w, w)) == Pair(Add64(a, b), Add64(b, Add64(a, b)))
  {
    hide Fmix64, Add64, Xor64;
    Xor64Zero(w);
  }

  lemma HashOfNothing(seed: bv32)
    ensures Hash([], seed) == Finish(0, Start(seed))
  {
    hide Finish, BlockStep, Hash, Start;
    HashAt([], 0, seed);
    assert Fold([], 16, Start(seed), BlockStep) == Start(seed);
    assert LengthWord(0) == 0;
  }

  /** The empty key: both words start as the seed s and go through the finalisation only, which
      mixes 2 s and 3 s. */
  lemma EmptyKey(seed: bv32)
    ensures var s := seed as bv64;
            var a, b := Fmix64(Add64(s, s)), Fmix64(Add64(s, Add64(s, s)));
            Hash([], seed) == Pair(Add64(a, b), Add64(b, Add64(a, b)))
  {
    hide Finish, Fmix64, Add64, Hash;
    HashOfNothing(seed);
    FinishNothing(seed as bv64);
  }

  // ---------------------------------------------------------------- zeros at the end

  lemma ScrambledZero()
    ensures ScrambleK1(0) == 0 == ScrambleK2(0)
  {
    assert Mul64(0, C1) == 0 && Mul64(0, C2) == 0;
    assert Rotl64(0, 31) == 0 && Rotl64(0, 33) == 0;
  }

  lemma ZeroWord()
    ensures ReadLe64(Zeros(8)) == 0
  {
  }

  /** A tail counts as its sixteen bytes when it is padded with zeros. */
  lemma TailIsPadded(t: seq<Byte>, h: Pair)
    requires |t| < 16
    ensures var p := Padded(t, 16);
            TailStep(t, h) == Pair(Xor64(h.h1, ScrambleK1(ReadLe64(p[..8]))), Xor64(h.h2, ScrambleK2(ReadLe64(p[8..]))))
  {
    hide ReadLe64, ScrambleK1, ScrambleK2, Xor64;
    var p := Padded(t, 16);
    ScrambledZero();
    ZeroWord();
    Xor64Zero(h.h1);
    Xor64Zero(h.h2);
    if |t| > 8 {
      assert p[..8] == Padded(t[..8], 8) && p[8..] == Padded(t[8..], 8);
    } else {
      assert p[..8] == Padded(t, 8) && p[8..] == Zeros(8);
      assert t == [] ==> p[..8] == Zeros(8);
    }
  }

  /** Zeros after the last whole block do not change the tail. */
  lemma ZerosKeepTail(t: seq<Byte>, n: nat, h: Pair)
    requires |t| + n < 16
    ensures TailStep(t + Zeros(n), h) == TailStep(t, h)
  {
    hide TailStep, ReadLe64, ScrambleK1, ScrambleK2, Xor64;
    TailIsPadded(t, h);
    TailIsPadded(t + Zeros(n), h);
    assert Padded(t + Zeros(n), 16) == Padded(t, 16);
  }

  lemma LengthWordInjective(m: nat, n: nat)
    requires m < MAX_LEN && n < MAX_LEN && LengthWord(m) == LengthWord(n)
    ensures m == n
  {
    WordValue(m);
    WordValue(n);
  }

  lemma FinishTellsLength(l: bv64, k: bv64, h: Pair)
    requires Finish(l, h) == Finish(k, h)
    ensures l == k
  {
    hide Cross, Uncross, Fmix64, Unfmix64, Xor64;
    FinishUnfinish(l, h);
    FinishUnfinish(k, h);
    var g := Uncross(Finish(l, h));
    var f := Uncross(Pair(Unfmix64(g.h1), Unfmix64(g.h2)));
    XorXor64(f.h1, l);
    XorXor64(f.h1, k);
    XorCancels(h.h1, l);
    XorCancels(h.h1, k);
    assert Xor64(f.h1, l) == h.h1 == Xor64(f.h1, k);
  }

  /** A key and the same key followed by zeros inside the same partial block never share a
      hash: the length tells them apart. */
  lemma ZerosNeverCollide(pre: seq<Byte>, t: seq<Byte>, n: nat, seed: bv32)
    requires |pre| % 16 == 0 && |t| + n < 16 && n > 0 && |pre| + |t| + n < MAX_LEN
    ensures Hash(pre + t + Zeros(n), seed) != Hash(pre + t, seed)
  {
    hide BlockStep, TailStep, Finish, Unfinish, Start, LengthWord;
    HashSplit(pre, t, seed);
    assert pre + t + Zeros(n) == pre + (t + Zeros(n));
    HashSplit(pre, t + Zeros(n), seed);
    BlockStepLaws();
    var h := Fold(pre, 16, Start(seed), BlockStep);
    ZerosKeepTail(t, n, h);
    if Hash(pre + t + Zeros(n), seed) == Hash(pre + t, seed) {
      FinishTellsLength(LengthWord(|pre| + |t| + n), LengthWord(|pre| + |t|), TailStep(t, h));
      LengthWordInjective(|pre| + |t| + n, |pre| + |t|);
    }
  }

}

/** MurmurHash3_x86_32 of the empty key, and of keys with zeros added at the end. */
module Murmur32Keys {
  import opened Words
  import opened Blocks
  import opened MurmurX86Words
  import opened Murmur32

  /** The empty key: the seed goes through fmix32 only. */
  lemma EmptyKey(seed: bv32)
    ensures Hash([], seed) == Fmix32(seed)
  {
    hide Fmix32, Xor32, BlockStep, Hash;
    HashAt([], 0, seed);
    assert Fold([], 4, seed, BlockStep) == seed;
    assert LengthWord(0) == 0;
    Xor32Zero(seed);
  }

  lemma ScrambledZero(b: seq<Byte>)
    requires b == Zeros(4)
    ensures ScrambleK(b) == 0
  {
    assert ReadLe32(b) == 0;
    assert Mul32(0, A1) == 0 && Mul32(0, A2) == 0;
    assert Rotl32(0, 15) == 0;
  }

  /** Zeros after the last whole block do not change the tail. */
  lemma ZerosKeepTail(t: seq<Byte>, n: nat, h: bv32)
    requires |t| + n < 4
    ensures TailStep(t + Zeros(n), h) == TailStep(t, h)
  {
    hide ScrambleK, Xor32;
    assert Padded(t + Zeros(n), 4) == Padded(t, 4);
    if t == [] {
      ScrambledZero(Padded(t, 4));
      Xor32Zero(h);
    }
  }

  lemma FinishTellsLength(l: bv32, k: bv32, h: bv32)
    requires Finish(l, h) == Finish(k, h)
    ensures l == k
  {
    hide Fmix32, Unfmix32, Xor32;
    FmixUnfmix(Xor32(h, l));
    FmixUnfmix(Xor32(h, k));
    XorCancels(h, l);
    XorCancels(h, k);
  }

  /** A key and the same key followed by zeros inside the same partial block never share a
      hash. */
  lemma ZerosNeverCollide(pre: seq<Byte>, t: seq<Byte>, n: nat, seed: bv32)
    requires |pre| % 4 == 0 && |t| + n < 4 && n > 0 && |pre| + |t| + n < MAX_LEN
    ensures Hash(pre + t + Zeros(n), seed) != Hash(pre + t, seed)
  {
    hide BlockStep, TailStep, Finish, LengthWord;
    HashSplit(pre, t, seed);
    assert pre + t + Zeros(n) == pre + (t + Zeros(n));
    HashSplit(pre, t + Zeros(n), seed);
    var h := Fold(pre, 4, seed, BlockStep);
    ZerosKeepTail(t, n, h);
    if Hash(pre + t + Zeros(n), seed) == Hash(pre + t, seed) {
      FinishTellsLength(LengthWord(|pre| + |t| + n), LengthWord(|pre| + |t|), TailStep(t, h));
      LengthWordInjective(|pre| + |t| + n, |pre| + |t|);
    }
  }
}

/** MurmurHash3_x86_128 of the empty key, and of keys with zeros added at the end. */
module Murmur128Keys {
  import opened Words
  import opened Blocks
  import opened MurmurX86Words
  import opened Murmur128

  lemma HashOfNothing(seed: bv32)
    ensures Hash([], seed) == Finish(0, Start(seed))
  {
    hide Finish, BlockStep, Hash, Start;
    HashAt([], 0, seed);
    assert Fold([], 16, Start(seed), BlockStep) == Start(seed);
    assert LengthWord(0) == 0;
  }

  /** The empty key: all four words start as the seed s and go through the finalisation only,
      which mixes 4 s and three times 5 s. */
  lemma EmptyKey(seed: bv32)
    ensures var s4 := Add32(Add32(Add32(seed, seed), seed), seed);
            var a, b := Fmix32(s4), Fmix32(Add32(seed, s4));
            var t := Add32(Add32(Add32(a, b), b), b);
            Hash([], seed) == Quad(t, Add32(b, t), Add32(b, t), Add32(b, t))
  {
    hide Fmix32, Add32, Xor32, Hash;
    HashOfNothing(seed);
    Xor32Zero(seed);
  }

  lemma ScrambledZero()
    ensures K1(0) == K2(0) == K3(0) == K4(0) == 0
  {
    assert Mul32(0, C1) == 0 && Mul32(0, C2) == 0 && Mul32(0, C3) == 0 && Mul32(0, C4) == 0;
    assert Rotl32(0, 15) == 0 && Rotl32(0, 16) == 0 && Rotl32(0, 17) == 0 && Rotl32(0, 18) == 0;
  }

  lemma NoChunk(t: seq<Byte>, j: nat)
    requires |t| <= 4 * j
    ensures ChunkWord(t, j) == 0
  {
  }

  /** A tail counts as its sixteen bytes when it is padded with zeros. */
  lemma TailIsPadded(t: seq<Byte>, h: Quad)
    requires |t| < 16
    ensures TailStep(t, h) == Quad(Xor32(h.h1, K1(ChunkWord(t, 0))), Xor32(h.h2, K2(ChunkWord(t, 1))),
                                   Xor32(h.h3, K3(ChunkWord(t, 2))), Xor32(h.h4, K4(ChunkWord(t, 3))))
  {
    hide K1, K2, K3, K4, Xor32, ChunkWord;
    ScrambledZero();
    Xor32Zero(h.h1);
    Xor32Zero(h.h2);
    Xor32Zero(h.h3);
    Xor32Zero(h.h4);
    forall j: nat | |t| <= 4 * j ensures ChunkWord(t, j) == 0 {
      NoChunk(t, j);
    }
  }

  lemma ZerosKeepChunk(t: seq<Byte>, n: nat, j: nat)
    ensures ChunkWord(t + Zeros(n), j) == ChunkWord(t, j)
  {
    hide ReadLe32;
    assert Padded(Chunk(t + Zeros(n), j), 4) == Padded(Chunk(t, j), 4);
  }

  /** Zeros after the last whole block do not change the tail. */
  lemma ZerosKeepTail(t: seq<Byte>, n: nat, h: Quad)
    requires |t| + n < 16
    ensures TailStep(t + Zeros(n), h) == TailStep(t, h)
  {
    hide TailStep, ChunkWord, K1, K2, K3, K4, Xor32;
    TailIsPadded(t, h);
    TailIsPadded(t + Zeros(n), h);
    ZerosKeepChunk(t, n, 0);
    ZerosKeepChunk(t, n, 1);
    ZerosKeepChunk(t, n, 2);
    ZerosKeepChunk(t, n, 3);
  }

  lemma FinishTellsLength(l: bv32, k: bv32, h: Quad)
    requires Finish(l, h) == Finish(k, h)
    ensures l == k
  {
    hide Cross, Uncross, FmixAll, UnfmixAll, Xor32;
    var x, y := XorAll(h, l), XorAll(h, k);
    CrossUncross(FmixAll(Cross(x)));
    CrossUncross(FmixAll(Cross(y)));
    UndoAll(Cross(x), l);
    UndoAll(Cross(y), k);
    CrossUncross(x);
    CrossUncross(y);
    XorCancels(h.h1, l);
    XorCancels(h.h1, k);
  }

  /** A key and the same key followed by zeros inside the same partial block never share a
      hash. */
  lemma ZerosNeverCollide(pre: seq<Byte>, t: seq<Byte>, n: nat, seed: bv32)
    requires |pre| % 16 == 0 && |t| + n < 16 && n > 0 && |pre| + |t| + n < MAX_LEN
    ensures Hash(pre + t + Zeros(n), seed) != Hash(pre + t, seed)
  {
    hide BlockStep, TailStep, Finish, Start, LengthWord;
    HashSplit(pre, t, seed);
    assert pre + t + Zeros(n) == pre + (t + Zeros(n));
    HashSplit(pre, t + Zeros(n), seed);
    var h := Fold(pre, 16, Start(seed), BlockStep);
    ZerosKeepTail(t, n, h);
    if Hash(pre + t + Zeros(n), seed) == Hash(pre + t, seed) {
      FinishTellsLength(LengthWord(|pre| + |t| + n), LengthWord(|pre| + |t|), TailStep(t, h));
      LengthWordInjective(|pre| + |t| + n, |pre| + |t|);
    }
  }
}
