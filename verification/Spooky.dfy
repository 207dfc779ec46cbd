/** SpookyHash V2 in one call: what the hash of a message is, and the C routines
    spooky_short and spooky_hash128 that compute it. */
module Spooky {
  import opened Words
  import opened Mixer
  import opened SpookyMixing

  const SC_CONST: bv64 := 0xDEADBEEFDEADBEEF
  const SC_NUMVARS := 12
  const SC_BLOCKSIZE := 96
  const SC_BUFSIZE := 192

  datatype Hash128 = Hash128(hash1: bv64, hash2: bv64)

  /** The twelve little-endian words of a block. */
  function ReadBlock(s: seq<Byte>): (w: seq<bv64>)
    requires |s| == SC_BLOCKSIZE
    ensures |w| == SC_NUMVARS
  {
    seq(SC_NUMVARS, i requires 0 <= i < SC_NUMVARS => ReadLe64(s[8 * i..8 * i + 8]))
  }

  function AddTo(h: seq<bv64>, d: nat, w: bv64): (r: seq<bv64>)
    requires d < |h|
    ensures |r| == |h|
  {
    h[d := Add64(h[d], w)]
  }

  // ---------------------------------------------------------------- short messages

  /** Absorbs 16 bytes into h[2] and h[3] and mixes. */
  function ShortHalf(m: seq<Byte>, h: seq<bv64>): (r: seq<bv64>)
    requires |m| == 16 && |h| == 4
    ensures |r| == 4
  {
    ShortMix(AddTo(AddTo(h, 2, ReadLe64(m[..8])), 3, ReadLe64(m[8..])))
  }

  /** Absorbs 32 bytes: one mixed half, then two words into h[0] and h[1]. */
  function ShortBlock(m: seq<Byte>, h: seq<bv64>): (r: seq<bv64>)
    requires |m| == 32 && |h| == 4
    ensures |r| == 4
  {
    AddTo(AddTo(ShortHalf(m[..16], h), 0, ReadLe64(m[16..24])), 1, ReadLe64(m[24..]))
  }

  /** All whole 32-byte blocks of m, then a remaining half block. */
  function ShortBody(m: seq<Byte>, h: seq<bv64>): (r: seq<bv64>)
    requires |h| == 4
    ensures |r| == 4
  {
    if |m| >= 32 then ShortBody(m[32..], ShortBlock(m[..32], h))
    else if |m| >= 16 then ShortHalf(m[..16], h)
    else h
  }

  /** The sum of the bytes k, k + 1, ... of s, each shifted to its place. */
  function PlacedSum(s: seq<Byte>, k: nat): bv64
    requires k <= |s| < 8
    decreases |s| - k
  {
    if k == |s| then 0 else Add64(PlacedSum(s, k + 1), PlacedByte64(s[k], k))
  }

  /** The last 0 to 15 bytes as two words, a full one read and the rest summed up byte by
      byte; an empty tail stands for two constants. */
  function TailWords(tail: seq<Byte>): (bv64, bv64)
    requires |tail| < 16
  {
    if tail == [] then (SC_CONST, SC_CONST)
    else if |tail| < 8 then (PlacedSum(tail, 0), 0)
    else (ReadLe64(tail[..8]), PlacedSum(tail[8..], 0))
  }

  function LengthByte(length: nat): bv64
    requires length < 0x1_0000_0000_0000_0000
  {
    (length as bv64) << 56
  }

  function ShortTail(tail: seq<Byte>, length: nat, h: seq<bv64>): (r: seq<bv64>)
    requires |tail| < 16 && length < 0x1_0000_0000_0000_0000 && |h| == 4
    ensures |r| == 4
  {
    var (w2, w3) := TailWords(tail);
    AddTo(AddTo(AddTo(h, 3, LengthByte(length)), 2, w2), 3, w3)
  }

  function ShortInit(seed1: bv64, seed2: bv64): (r: seq<bv64>)
    ensures |r| == 4
  {
    [seed1, seed2, SC_CONST, SC_CONST]
  }

  /** The four words spooky_short ends with. */
  function ShortState(m: seq<Byte>, seed1: bv64, seed2: bv64): (r: seq<bv64>)
    requires |m| < 0x1_0000_0000_0000_0000
    ensures |r| == 4
  {
    var k := |m| / 16 * 16;
    ShortEnd(ShortTail(m[k..], |m|, ShortBody(m, ShortInit(seed1, seed2))))
  }

  // ---------------------------------------------------------------- long messages

  function InThrees<T>(a: T, b: T, c: T): (r: seq<T>)
    ensures |r| == SC_NUMVARS
  {
    seq(SC_NUMVARS, i => if i % 3 == 0 then a else if i % 3 == 1 then b else c)
  }

  function LongInit(seed1: bv64, seed2: bv64): (r: seq<bv64>)
    ensures |r| == 12
  {
    InThrees(seed1, seed2, SC_CONST)
  }

  /** Mixes in the whole 96-byte blocks of m one after the other. */
  function MixBlocks(m: seq<Byte>, h: seq<bv64>): (r: seq<bv64>)
    requires |h| == 12
    ensures |r| == 12
  {
    if |m| < SC_BLOCKSIZE then h else MixBlocks(m[SC_BLOCKSIZE..], Mix(ReadBlock(m[..SC_BLOCKSIZE]), h))
  }

  function LengthMark(n: nat): Byte
    requires n < SC_BLOCKSIZE
  {
    n as Byte
  }

  /** The last block: what is left of the message, zeros, and the number of bytes left. */
  function LastBlock(tail: seq<Byte>): (b: seq<Byte>)
    requires |tail| < SC_BLOCKSIZE
    ensures |b| == SC_BLOCKSIZE
  {
    tail + Zeros(SC_BLOCKSIZE - 1 - |tail|) + [LengthMark(|tail|)]
  }

  /** The twelve words spooky_hash128 ends with on a message of at least 192 bytes. */
  function LongState(m: seq<Byte>, seed1: bv64, seed2: bv64): (r: seq<bv64>)
    ensures |r| == 12
  {
    var k := |m| / SC_BLOCKSIZE * SC_BLOCKSIZE;
    End(ReadBlock(LastBlock(m[k..])), MixBlocks(m[..k], LongInit(seed1, seed2)))
  }

  /** The 128-bit SpookyHash of m. */
  function Hash(m: seq<Byte>, seed1: bv64, seed2: bv64): Hash128
    requires |m| < 0x1_0000_0000_0000_0000
  {
    var h := if |m| < SC_BUFSIZE then ShortState(m, seed1, seed2) else LongState(m, seed1, seed2);
    Hash128(h[0], h[1])
  }

  // ---------------------------------------------------------------- lemmas

  lemma {:induction false} MixBlocksConcat(a: seq<Byte>, b: seq<Byte>, h: seq<bv64>)
    requires |a| % SC_BLOCKSIZE == 0 && |h| == 12
    ensures MixBlocks(a + b, h) == MixBlocks(b, MixBlocks(a, h))
  {
    hide Mix, ReadBlock;
    if |a| < SC_BLOCKSIZE {
      assert a + b == b;
    } else {
      assert (a + b)[..SC_BLOCKSIZE] == a[..SC_BLOCKSIZE];
      assert (a + b)[SC_BLOCKSIZE..] == a[SC_BLOCKSIZE..] + b;
      MixBlocksConcat(a[SC_BLOCKSIZE..], b, Mix(ReadBlock(a[..SC_BLOCKSIZE]), h));
    }
  }

  /** One more block at the end of m. */
  lemma MixBlocksNext(m: seq<Byte>, from: nat, h: seq<bv64>)
    requires from % SC_BLOCKSIZE == 0 && from + SC_BLOCKSIZE <= |m| && |h| == 12
    ensures MixBlocks(m[..from + SC_BLOCKSIZE], h) ==
            Mix(ReadBlock(m[from..from + SC_BLOCKSIZE]), MixBlocks(m[..from], h))
  {
    hide Mix, ReadBlock;
    var b := m[from..from + SC_BLOCKSIZE];
    assert m[..from + SC_BLOCKSIZE] == m[..from] + b;
    MixBlocksConcat(m[..from], b, h);
    var g := MixBlocks(m[..from], h);
    assert b[..SC_BLOCKSIZE] == b && b[SC_BLOCKSIZE..] == [];
    assert MixBlocks(b, g) == MixBlocks([], Mix(ReadBlock(b), g));
  }

  /** ShortBody, read from the other end: whole halves m[..k] first, then the rest. */
  lemma {:induction false} ShortBodyNext(m: seq<Byte>, from: nat, h: seq<bv64>)
    requires from % 32 == 0 && from + 32 <= |m| && |h| == 4
    ensures ShortBody(m[..from + 32], h) == ShortBlock(m[from..from + 32], ShortBody(m[..from], h))
  {
    hide ShortBlock, ShortHalf;
    var a := m[..from + 32];
    if from == 0 {
      assert a[..32] == m[from..from + 32] && a[32..] == [];
    } else {
      assert a[32..] == m[32..][..from - 32 + 32];
      assert m[..from][32..] == m[32..][..from - 32];
      assert a[..32] == m[..from][..32];
      assert m[from..from + 32] == m[32..][from - 32..from - 32 + 32];
      ShortBodyNext(m[32..], from - 32, ShortBlock(a[..32], h));
    }
  }

  lemma {:induction false} ShortBodyLast(m: seq<Byte>, from: nat, h: seq<bv64>)
    requires from % 32 == 0 && from <= |m| < from + 32 && |h| == 4
    ensures ShortBody(m, h) ==
            if |m| >= from + 16 then ShortHalf(m[from..from + 16], ShortBody(m[..from], h)) else ShortBody(m[..from], h)
  {
    hide ShortBlock, ShortHalf;
    if from > 0 {
      assert m[..from][..32] == m[..32] && m[..from][32..] == m[32..][..from - 32];
      ShortBodyLast(m[32..], from - 32, ShortBlock(m[..32], h));
      if |m| >= from + 16 {
        assert m[32..] == m[32..|m|];
        SliceOfSlice(m, 32, |m|, from - 32, from - 32 + 16);
      }
    } else {
      assert m[..from] == [];
      assert |m| >= 16 ==> m[..16] == m[from..from + 16];
    }
  }

  // ---------------------------------------------------------------- the C routines

  /** h[2] += word 0, h[3] += word 1, spooky_short_mix. */
  method AbsorbHalf(m: seq<Byte>, h: array<bv64>)
    requires |m| == 16 && h.Length == 4
    modifies h
    ensures h[..] == ShortHalf(m, old(h[..]))
  {
    hide Add64, ReadLe64, Flatten, Run, Fits;
    ghost var h0 := h[..];
    h[2] := Add64(h[2], ReadLe64(m[..8]));
    h[3] := Add64(h[3], ReadLe64(m[8..]));
    assert h[..] == AddTo(AddTo(h0, 2, ReadLe64(m[..8])), 3, ReadLe64(m[8..]));
    ProgramsFit();
    Exec(Flatten(SHORT_MIX), [], h);
  }

  /** The loop body of spooky_short. */
  method AbsorbBlock(m: seq<Byte>, h: array<bv64>)
    requires |m| == 32 && h.Length == 4
    modifies h
    ensures h[..] == ShortBlock(m, old(h[..]))
  {
    hide Add64, ReadLe64, ShortHalf;
    ghost var h0 := h[..];
    AbsorbHalf(m[..16], h);
    h[0] := Add64(h[0], ReadLe64(m[16..24]));
    h[1] := Add64(h[1], ReadLe64(m[24..]));
    assert h[..] == ShortBlock(m, h0);
  }

  lemma AddAssoc(x: bv64, y: bv64, z: bv64)
    ensures Add64(Add64(x, y), z) == Add64(x, Add64(y, z))
  {
    assert Add64(x + y, z) == Add64(x, y + z);
  }

  lemma AddZero(x: bv64)
    ensures Add64(x, 0) == x
  {
  }

  /** One case label of the switch: skipped when the tail has no byte k. */
  method AddByte(x: bv64, y: bv64, s: seq<Byte>, k: nat) returns (r: bv64)
    requires |s| < 8 && k < 7
    requires y == Add64(x, PlacedSum(s, if k + 1 <= |s| then k + 1 else |s|))
    ensures r == Add64(x, PlacedSum(s, if k <= |s| then k else |s|))
  {
    hide PlacedByte64, Add64;
    r := y;
    if k < |s| {
      r := Add64(y, PlacedByte64(s[k], k));
      AddAssoc(x, PlacedSum(s, k + 1), PlacedByte64(s[k], k));
    }
  }

  /** The fall-through cases 7 to 1 (or 15 to 9) of the switch. */
  method AddBytes(x: bv64, s: seq<Byte>) returns (r: bv64)
    requires |s| < 8
    ensures r == Add64(x, PlacedSum(s, 0))
  {
    hide PlacedByte64, Add64;
    AddZero(x);
    r := AddByte(x, x, s, 6);
    r := AddByte(x, r, s, 5);
    r := AddByte(x, r, s, 4);
    r := AddByte(x, r, s, 3);
    r := AddByte(x, r, s, 2);
    r := AddByte(x, r, s, 1);
    r := AddByte(x, r, s, 0);
  }

  /** The last 0 to 15 bytes and the message length. */
  method AddTail(tail: seq<Byte>, length: nat, h: array<bv64>)
    requires |tail| < 16 && length < 0x1_0000_0000_0000_0000 && h.Length == 4
    modifies h
    ensures h[..] == ShortTail(tail, length, old(h[..]))
  {
    hide PlacedSum, Add64, LengthByte, ReadLe64;
    ghost var h0 := h[..];
    h[3] := Add64(h[3], LengthByte(length));
    if |tail| >= 8 {
      h[3] := AddBytes(h[3], tail[8..]);
      h[2] := Add64(h[2], ReadLe64(tail[..8]));
    } else if |tail| >= 1 {
      AddZero(h[3]);
      h[2] := AddBytes(h[2], tail);
    } else {
      h[2] := Add64(h[2], SC_CONST);
      h[3] := Add64(h[3], SC_CONST);
    }
    assert h[..] == ShortTail(tail, length, h0);
  }

  /** The whole 32-byte blocks and then the half block, if there is one. */
  method AbsorbBody(message: seq<Byte>, h: array<bv64>)
    requires h.Length == 4
    modifies h
    ensures h[..] == ShortBody(message, old(h[..]))
  {
    hide ShortHalf, ShortBlock;
    ghost var h0 := h[..];
    assert message[..0] == [] && ShortBody([], h0) == h0;
    hide ShortBody;
    var left := |message| % 32;
    var p := 0;
    if |message| > 15 {
      var end := |message| / 32 * 32;
      while p < end
        invariant 0 <= p <= end && p % 32 == 0
        invariant h[..] == ShortBody(message[..p], h0)
      {
        ShortBodyNext(message, p, h0);
        AbsorbBlock(message[p..p + 32], h);
        p := p + 32;
      }
      if left >= 16 {
        AbsorbHalf(message[p..p + 16], h);
      }
    }
    ShortBodyLast(message, p, h0);
  }

  /** spooky_short */
  method SpookyShort(message: seq<Byte>, seed1: bv64, seed2: bv64) returns (hash1: bv64, hash2: bv64)
    requires |message| < 0x1_0000_0000_0000_0000
    ensures [hash1, hash2] == ShortState(message, seed1, seed2)[..2]
  {
    hide Flatten, Run, Fits, ShortBody, ShortTail;
    var h := new bv64[4];
    h[0], h[1], h[2], h[3] := seed1, seed2, SC_CONST, SC_CONST;
    assert h[..] == ShortInit(seed1, seed2);
    AbsorbBody(message, h);
    AddTail(message[|message| / 16 * 16..], |message|, h);
    ProgramsFit();
    Exec(Flatten(SHORT_END), [], h);
    hash1, hash2 := h[0], h[1];
  }

  /** spooky_mix on a block of bytes */
  method MixInPlace(block: seq<Byte>, h: array<bv64>)
    requires |block| == SC_BLOCKSIZE && h.Length == 12
    modifies h
    ensures h[..] == Mix(ReadBlock(block), old(h[..]))
  {
    hide Flatten, Run, Fits, ReadBlock;
    ProgramsFit();
    Exec(Flatten(MIX), ReadBlock(block), h);
  }

  /** The block loop of spooky_hash128 and of spooky_update: mixes in the whole blocks
      of message[from..] and returns the first byte it leaves over. */
  method MixWholeBlocks(message: seq<Byte>, from: nat, h: array<bv64>) returns (end: nat)
    requires from <= |message| && h.Length == 12
    modifies h
    ensures end == from + (|message| - from) / SC_BLOCKSIZE * SC_BLOCKSIZE
    ensures h[..] == MixBlocks(message[from..end], old(h[..]))
  {
    hide Mix, ReadBlock;
    ghost var h0 := h[..];
    end := from + (|message| - from) / SC_BLOCKSIZE * SC_BLOCKSIZE;
    ghost var m := message[from..end];
    var u := from;
    assert m[..0] == [] && MixBlocks([], h0) == h0;
    hide MixBlocks;
    while u < end
      invariant from <= u <= end && (u - from) % SC_BLOCKSIZE == 0
      invariant h[..] == MixBlocks(m[..u - from], h0)
    {
      MixBlocksNext(m, u - from, h0);
      assert u + SC_BLOCKSIZE <= end;
      SliceOfSlice(message, from, end, u - from, u - from + SC_BLOCKSIZE);
      MixInPlace(message[u..u + SC_BLOCKSIZE], h);
      u := u + SC_BLOCKSIZE;
    }
    assert m[..u - from] == m;
  }

  /** Every third word is a, the ones behind them b, and the rest c. */
  method Spread<T>(a: T, b: T, c: T, h: array<T>)
    requires h.Length == SC_NUMVARS
    modifies h
    ensures h[..] == InThrees(a, b, c)
  {
    forall k | 0 <= k < SC_NUMVARS && k % 3 == 0 {
      h[k] := a;
    }
    forall k | 0 <= k < SC_NUMVARS && k % 3 == 1 {
      h[k] := b;
    }
    forall k | 0 <= k < SC_NUMVARS && k % 3 == 2 {
      h[k] := c;
    }
  }

  /** spooky_end on the padded last block. */
  method Finish(block: seq<Byte>, h: array<bv64>)
    requires |block| == SC_BLOCKSIZE && h.Length == 12
    modifies h
    ensures h[..] == End(ReadBlock(block), old(h[..]))
  {
    hide Flatten, Run, Fits, ReadBlock;
    ProgramsFit();
    var data := ReadBlock(block);
    Exec(ABSORB, data, h);
    Exec(Flatten(END_PARTIAL), data, h);
    Exec(Flatten(END_PARTIAL), data, h);
    Exec(Flatten(END_PARTIAL), data, h);
  }

  /** spooky_hash128 */
  method SpookyHash128(message: seq<Byte>, seed1: bv64, seed2: bv64) returns (hash1: bv64, hash2: bv64)
    requires |message| < 0x1_0000_0000_0000_0000
    ensures Hash128(hash1, hash2) == Hash(message, seed1, seed2)
  {
    hide ReadBlock, ShortState, LastBlock, End, MixBlocks;
    if |message| < SC_BUFSIZE {
      hash1, hash2 := SpookyShort(message, seed1, seed2);
      assert [hash1, hash2][0] == hash1 && [hash1, hash2][1] == hash2;
      return;
    }
    var h := new bv64[12];
    Spread(seed1, seed2, SC_CONST, h);
    var end := MixWholeBlocks(message, 0, h);
    assert message[0..end] == message[..end];
    Finish(LastBlock(message[end..]), h);
    hash1, hash2 := h[0], h[1];
  }
}
