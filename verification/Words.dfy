/** Machine words and the little-endian byte layout the hash functions read.
    Words are bit-vectors, so arithmetic wraps around as it does in C. The named
    operations come with the lemmas that undo them. */
module Words {

  type Byte = bv8

  /** The 64-bit word with the given bytes, least significant first. */
  function Le64(b0: Byte, b1: Byte, b2: Byte, b3: Byte, b4: Byte, b5: Byte, b6: Byte, b7: Byte): bv64 {
    (b0 as bv64) | ((b1 as bv64) << 8) | ((b2 as bv64) << 16) | ((b3 as bv64) << 24) |
    ((b4 as bv64) << 32) | ((b5 as bv64) << 40) | ((b6 as bv64) << 48) | ((b7 as bv64) << 56)
  }

  function ReadLe64(s: seq<Byte>): bv64
    requires |s| == 8
  {
    Le64(s[0], s[1], s[2], s[3], s[4], s[5], s[6], s[7])
  }

  function WriteLe64(w: bv64): (s: seq<Byte>)
    ensures |s| == 8
  {
    [(w & 0xff) as Byte, ((w >> 8) & 0xff) as Byte, ((w >> 16) & 0xff) as Byte, ((w >> 24) & 0xff) as Byte,
     ((w >> 32) & 0xff) as Byte, ((w >> 40) & 0xff) as Byte, ((w >> 48) & 0xff) as Byte, ((w >> 56) & 0xff) as Byte]
  }

  lemma WriteReadLe64(s: seq<Byte>)
    requires |s| == 8
    ensures WriteLe64(ReadLe64(s)) == s
  {
  }

  lemma ReadWriteLe64(w: bv64)
    ensures ReadLe64(WriteLe64(w)) == w
  {
  }

  lemma ReadLe64Injective(s: seq<Byte>, t: seq<Byte>)
    requires |s| == |t| == 8 && ReadLe64(s) == ReadLe64(t)
    ensures s == t
  {
    WriteReadLe64(s);
    WriteReadLe64(t);
  }

  function Add64(x: bv64, y: bv64): bv64 { x + y }

  function Sub64(x: bv64, y: bv64): bv64 { x - y }

  function Xor64(x: bv64, y: bv64): bv64 { x ^ y }

  function Rotl64(x: bv64, k: nat): bv64
    requires 0 < k < 64
  {
    x.RotateLeft(k)
  }

  function Rotr64(x: bv64, k: nat): bv64
    requires 0 < k < 64
  {
    x.RotateRight(k)
  }

  lemma AddSub64(x: bv64, y: bv64)
    ensures Sub64(Add64(x, y), y) == x
    ensures Add64(Sub64(x, y), y) == x
  {
    assert Sub64(x + y, y) == x;
    assert Add64(x - y, y) == x;
  }

  lemma XorXor64(x: bv64, y: bv64)
    ensures Xor64(Xor64(x, y), y) == x
  {
    assert Xor64(x ^ y, y) == x;
  }

  lemma RotlRotr64(x: bv64, k: nat)
    requires 0 < k < 64
    ensures Rotr64(Rotl64(x, k), k) == x
    ensures Rotl64(Rotr64(x, k), k) == x
  {
    assert Rotr64(x.RotateLeft(k), k) == x;
    assert Rotl64(x.RotateRight(k), k) == x;
  }

  /** The 32-bit word with the given bytes, least significant first. */
  function Le32(b0: Byte, b1: Byte, b2: Byte, b3: Byte): bv32 {
    (b0 as bv32) | ((b1 as bv32) << 8) | ((b2 as bv32) << 16) | ((b3 as bv32) << 24)
  }

  function ReadLe32(s: seq<Byte>): bv32
    requires |s| == 4
  {
    Le32(s[0], s[1], s[2], s[3])
  }

  function WriteLe32(w: bv32): (s: seq<Byte>)
    ensures |s| == 4
  {
    [(w & 0xff) as Byte, ((w >> 8) & 0xff) as Byte, ((w >> 16) & 0xff) as Byte, ((w >> 24) & 0xff) as Byte]
  }

  lemma WriteReadLe32(s: seq<Byte>)
    requires |s| == 4
    ensures WriteLe32(ReadLe32(s)) == s
  {
  }

  lemma ReadWriteLe32(w: bv32)
    ensures ReadLe32(WriteLe32(w)) == w
  {
  }

  lemma ReadLe32Injective(s: seq<Byte>, t: seq<Byte>)
    requires |s| == |t| == 4 && ReadLe32(s) == ReadLe32(t)
    ensures s == t
  {
    WriteReadLe32(s);
    WriteReadLe32(t);
  }

  function Add32(x: bv32, y: bv32): bv32 { x + y }

  function Sub32(x: bv32, y: bv32): bv32 { x - y }

  function Xor32(x: bv32, y: bv32): bv32 { x ^ y }

  function Rotl32(x: bv32, k: nat): bv32
    requires 0 < k < 32
  {
    x.RotateLeft(k)
  }

  function Rotr32(x: bv32, k: nat): bv32
    requires 0 < k < 32
  {
    x.RotateRight(k)
  }

  lemma AddSub32(x: bv32, y: bv32)
    ensures Sub32(Add32(x, y), y) == x
    ensures Add32(Sub32(x, y), y) == x
  {
    assert Sub32(x + y, y) == x;
    assert Add32(x - y, y) == x;
  }

  lemma XorXor32(x: bv32, y: bv32)
    ensures Xor32(Xor32(x, y), y) == x
  {
    assert Xor32(x ^ y, y) == x;
  }

  lemma RotlRotr32(x: bv32, k: nat)
    requires 0 < k < 32
    ensures Rotr32(Rotl32(x, k), k) == x
    ensures Rotl32(Rotr32(x, k), k) == x
  {
    assert Rotr32(x.RotateLeft(k), k) == x;
    assert Rotl32(x.RotateRight(k), k) == x;
  }

  /** The source spells a rotation as two shifts and an or; for every count it uses
      that expression is the rotation. */
  lemma RotationIsShiftOr64(x: bv64)
    ensures x.RotateLeft(5) == (x << 5) | (x >> 59)
    ensures x.RotateLeft(9) == (x << 9) | (x >> 55)
    ensures x.RotateLeft(10) == (x << 10) | (x >> 54)
    ensures x.RotateLeft(11) == (x << 11) | (x >> 53)
    ensures x.RotateLeft(13) == (x << 13) | (x >> 51)
    ensures x.RotateLeft(15) == (x << 15) | (x >> 49)
    ensures x.RotateLeft(17) == (x << 17) | (x >> 47)
    ensures x.RotateLeft(21) == (x << 21) | (x >> 43)
    ensures x.RotateLeft(22) == (x << 22) | (x >> 42)
    ensures x.RotateLeft(25) == (x << 25) | (x >> 39)
    ensures x.RotateLeft(26) == (x << 26) | (x >> 38)
    ensures x.RotateLeft(27) == (x << 27) | (x >> 37)
    ensures x.RotateLeft(28) == (x << 28) | (x >> 36)
    ensures x.RotateLeft(30) == (x << 30) | (x >> 34)
    ensures x.RotateLeft(31) == (x << 31) | (x >> 33)
    ensures x.RotateLeft(32) == (x << 32) | (x >> 32)
    ensures x.RotateLeft(33) == (x << 33) | (x >> 31)
    ensures x.RotateLeft(34) == (x << 34) | (x >> 30)
    ensures x.RotateLeft(36) == (x << 36) | (x >> 28)
    ensures x.RotateLeft(37) == (x << 37) | (x >> 27)
    ensures x.RotateLeft(38) == (x << 38) | (x >> 26)
    ensures x.RotateLeft(39) == (x << 39) | (x >> 25)
    ensures x.RotateLeft(41) == (x << 41) | (x >> 23)
    ensures x.RotateLeft(42) == (x << 42) | (x >> 22)
    ensures x.RotateLeft(43) == (x << 43) | (x >> 21)
    ensures x.RotateLeft(44) == (x << 44) | (x >> 20)
    ensures x.RotateLeft(46) == (x << 46) | (x >> 18)
    ensures x.RotateLeft(47) == (x << 47) | (x >> 17)
    ensures x.RotateLeft(48) == (x << 48) | (x >> 16)
    ensures x.RotateLeft(50) == (x << 50) | (x >> 14)
    ensures x.RotateLeft(51) == (x << 51) | (x >> 13)
    ensures x.RotateLeft(52) == (x << 52) | (x >> 12)
    ensures x.RotateLeft(53) == (x << 53) | (x >> 11)
    ensures x.RotateLeft(54) == (x << 54) | (x >> 10)
    ensures x.RotateLeft(55) == (x << 55) | (x >> 9)
    ensures x.RotateLeft(57) == (x << 57) | (x >> 7)
    ensures x.RotateLeft(62) == (x << 62) | (x >> 2)
    ensures x.RotateLeft(63) == (x << 63) | (x >> 1)
  {
  }

  lemma RotationIsShiftOr32(x: bv32)
    ensures x.RotateLeft(13) == (x << 13) | (x >> 19)
    ensures x.RotateLeft(15) == (x << 15) | (x >> 17)
    ensures x.RotateLeft(16) == (x << 16) | (x >> 16)
    ensures x.RotateLeft(17) == (x << 17) | (x >> 15)
    ensures x.RotateLeft(18) == (x << 18) | (x >> 14)
    ensures x.RotateLeft(19) == (x << 19) | (x >> 13)
  {
  }

  function Zeros(n: nat): (s: seq<Byte>)
    ensures |s| == n && forall i :: 0 <= i < n ==> s[i] == 0
  {
    seq(n, i => 0)
  }

  /** s followed by zeros, n bytes in all. */
  function Padded(s: seq<Byte>, n: nat): (p: seq<Byte>)
    requires |s| <= n
    ensures |p| == n
  {
    seq(n, i => if 0 <= i < |s| then s[i] else 0)
  }

  /** By how many bits the case labels shift byte k. */
  function Bits(k: nat): (n: bv6)
    requires k < 8
    ensures n as nat == 8 * k
  {
    match k
    case 0 => 0
    case 1 => 8
    case 2 => 16
    case 3 => 24
    case 4 => 32
    case 5 => 40
    case 6 => 48
    case _ => 56
  }

  /** Byte k of a 64-bit word, shifted to its place. */
  function PlacedByte64(b: Byte, k: nat): bv64
    requires k < 8
  {
    (b as bv64) << Bits(k)
  }

  /** The bytes k, k + 1, ... of s, shifted to their places and xored, the last one first:
      what the fall-through cases of a tail have computed when they come to byte k. */
  function XoredFrom64(s: seq<Byte>, k: nat): bv64
    requires |s| <= 8
    decreases |s| - k
  {
    if k >= |s| then 0 else Xor64(XoredFrom64(s, k + 1), PlacedByte64(s[k], k))
  }

  lemma Xor64Zero(x: bv64)
    ensures Xor64(x, 0) == x
  {
  }

  lemma PlacedZero64(k: nat)
    requires k < 8
    ensures PlacedByte64(0, k) == 0
  {
  }

  lemma {:induction false} PaddingXorsNothing64(s: seq<Byte>, k: nat)
    requires |s| <= 8 && k <= 8
    ensures XoredFrom64(Padded(s, 8), k) == XoredFrom64(s, k)
    decreases 8 - k
  {
    hide Xor64, PlacedByte64;
    if k < 8 {
      PaddingXorsNothing64(s, k + 1);
      if k >= |s| {
        PlacedZero64(k);
        Xor64Zero(0);
      }
    }
  }

  function Xored64(w7: bv64, w6: bv64, w5: bv64, w4: bv64, w3: bv64, w2: bv64, w1: bv64, w0: bv64): bv64 {
    Xor64(Xor64(Xor64(Xor64(Xor64(Xor64(Xor64(Xor64(0, w7), w6), w5), w4), w3), w2), w1), w0)
  }

  lemma OrIsXor64(b0: Byte, b1: Byte, b2: Byte, b3: Byte, b4: Byte, b5: Byte, b6: Byte, b7: Byte)
    ensures Le64(b0, b1, b2, b3, b4, b5, b6, b7) ==
            Xored64((b7 as bv64) << 56, (b6 as bv64) << 48, (b5 as bv64) << 40, (b4 as bv64) << 32,
                    (b3 as bv64) << 24, (b2 as bv64) << 16, (b1 as bv64) << 8, b0 as bv64)
  {
  }

  lemma PlacedByteAt64(b: Byte, k: nat)
    requires k < 8
    ensures k == 0 ==> PlacedByte64(b, k) == (b as bv64)
    ensures k == 1 ==> PlacedByte64(b, k) == (b as bv64) << 8
    ensures k == 2 ==> PlacedByte64(b, k) == (b as bv64) << 16
    ensures k == 3 ==> PlacedByte64(b, k) == (b as bv64) << 24
    ensures k == 4 ==> PlacedByte64(b, k) == (b as bv64) << 32
    ensures k == 5 ==> PlacedByte64(b, k) == (b as bv64) << 40
    ensures k == 6 ==> PlacedByte64(b, k) == (b as bv64) << 48
    ensures k == 7 ==> PlacedByte64(b, k) == (b as bv64) << 56
  {
  }

  /** The fall-through xors read the tail as a zero-padded little-endian word. */
  lemma XoredTailIsWord64(s: seq<Byte>)
    requires |s| <= 8
    ensures XoredFrom64(s, 0) == ReadLe64(Padded(s, 8))
  {
    var p := Padded(s, 8);
    PaddingXorsNothing64(s, 0);
    UnrollXored64(p);
    PlacedByteAt64(p[0], 0); PlacedByteAt64(p[1], 1); PlacedByteAt64(p[2], 2); PlacedByteAt64(p[3], 3);
    PlacedByteAt64(p[4], 4); PlacedByteAt64(p[5], 5); PlacedByteAt64(p[6], 6); PlacedByteAt64(p[7], 7);
    OrIsXor64(p[0], p[1], p[2], p[3], p[4], p[5], p[6], p[7]);
    hide PlacedByte64, Le64, XoredFrom64, Padded, Xored64;
  }

  lemma UnrollXored64(p: seq<Byte>)
    requires |p| == 8
    ensures XoredFrom64(p, 0) == Xored64(
              PlacedByte64(p[7], 7), PlacedByte64(p[6], 6), PlacedByte64(p[5], 5), PlacedByte64(p[4], 4),
              PlacedByte64(p[3], 3), PlacedByte64(p[2], 2), PlacedByte64(p[1], 1), PlacedByte64(p[0], 0))
  {
    hide PlacedByte64, Xor64;
    assert XoredFrom64(p, 8) == 0;
    assert XoredFrom64(p, 7) == Xor64(0, PlacedByte64(p[7], 7));
    assert XoredFrom64(p, 6) == Xor64(XoredFrom64(p, 7), PlacedByte64(p[6], 6));
    assert XoredFrom64(p, 5) == Xor64(XoredFrom64(p, 6), PlacedByte64(p[5], 5));
    assert XoredFrom64(p, 4) == Xor64(XoredFrom64(p, 5), PlacedByte64(p[4], 4));
    assert XoredFrom64(p, 3) == Xor64(XoredFrom64(p, 4), PlacedByte64(p[3], 3));
    assert XoredFrom64(p, 2) == Xor64(XoredFrom64(p, 3), PlacedByte64(p[2], 2));
    assert XoredFrom64(p, 1) == Xor64(XoredFrom64(p, 2), PlacedByte64(p[1], 1));
  }

  /** The zero-padded little-endian word determines the bytes. */
  lemma PaddedWord64Injective(s: seq<Byte>, t: seq<Byte>)
    requires |s| == |t| <= 8 && ReadLe64(Padded(s, 8)) == ReadLe64(Padded(t, 8))
    ensures s == t
  {
    hide ReadLe64;
    ReadLe64Injective(Padded(s, 8), Padded(t, 8));
    forall i | 0 <= i < |s| ensures s[i] == t[i] {
      assert Padded(s, 8)[i] == Padded(t, 8)[i];
    }
  }

  /** Byte k of a 32-bit word, shifted to its place. */
  function PlacedByte32(b: Byte, k: nat): bv32
    requires k < 4
  {
    (b as bv32) << Bits(k)
  }

  function XoredFrom32(s: seq<Byte>, k: nat): bv32
    requires |s| <= 4
    decreases |s| - k
  {
    if k >= |s| then 0 else Xor32(XoredFrom32(s, k + 1), PlacedByte32(s[k], k))
  }

  lemma Xor32Zero(x: bv32)
    ensures Xor32(x, 0) == x
  {
  }

  lemma PlacedZero32(k: nat)
    requires k < 4
    ensures PlacedByte32(0, k) == 0
  {
  }

  lemma {:induction false} PaddingXorsNothing32(s: seq<Byte>, k: nat)
    requires |s| <= 4 && k <= 4
    ensures XoredFrom32(Padded(s, 4), k) == XoredFrom32(s, k)
    decreases 4 - k
  {
    hide Xor32, PlacedByte32;
    if k < 4 {
      PaddingXorsNothing32(s, k + 1);
      if k >= |s| {
        PlacedZero32(k);
        Xor32Zero(0);
      }
    }
  }

  function Xored32(w3: bv32, w2: bv32, w1: bv32, w0: bv32): bv32 {
    Xor32(Xor32(Xor32(Xor32(0, w3), w2), w1), w0)
  }

  lemma OrIsXor32(b0: Byte, b1: Byte, b2: Byte, b3: Byte)
    ensures Le32(b0, b1, b2, b3) ==
            Xored32((b3 as bv32) << 24, (b2 as bv32) << 16, (b1 as bv32) << 8, b0 as bv32)
  {
  }

  lemma PlacedByteAt32(b: Byte, k: nat)
    requires k < 4
    ensures k == 0 ==> PlacedByte32(b, k) == (b as bv32)
    ensures k == 1 ==> PlacedByte32(b, k) == (b as bv32) << 8
    ensures k == 2 ==> PlacedByte32(b, k) == (b as bv32) << 16
    ensures k == 3 ==> PlacedByte32(b, k) == (b as bv32) << 24
  {
  }

  /** The same for the words of the 32-bit variants. */
  lemma XoredTailIsWord32(s: seq<Byte>)
    requires |s| <= 4
    ensures XoredFrom32(s, 0) == ReadLe32(Padded(s, 4))
  {
    var p := Padded(s, 4);
    PaddingXorsNothing32(s, 0);
    UnrollXored32(p);
    PlacedByteAt32(p[0], 0); PlacedByteAt32(p[1], 1); PlacedByteAt32(p[2], 2); PlacedByteAt32(p[3], 3);
    OrIsXor32(p[0], p[1], p[2], p[3]);
    hide PlacedByte32, Le32, XoredFrom32, Padded, Xored32;
  }

  lemma UnrollXored32(p: seq<Byte>)
    requires |p| == 4
    ensures XoredFrom32(p, 0) ==
            Xored32(PlacedByte32(p[3], 3), PlacedByte32(p[2], 2), PlacedByte32(p[1], 1), PlacedByte32(p[0], 0))
  {
    hide PlacedByte32, Xor32;
    assert XoredFrom32(p, 4) == 0;
    assert XoredFrom32(p, 3) == Xor32(0, PlacedByte32(p[3], 3));
    assert XoredFrom32(p, 2) == Xor32(XoredFrom32(p, 3), PlacedByte32(p[2], 2));
    assert XoredFrom32(p, 1) == Xor32(XoredFrom32(p, 2), PlacedByte32(p[1], 1));
  }

  /** The zero-padded little-endian word determines the bytes. */
  lemma PaddedWord32Injective(s: seq<Byte>, t: seq<Byte>)
    requires |s| == |t| <= 4 && ReadLe32(Padded(s, 4)) == ReadLe32(Padded(t, 4))
    ensures s == t
  {
    hide ReadLe32;
    ReadLe32Injective(Padded(s, 4), Padded(t, 4));
    forall i | 0 <= i < |s| ensures s[i] == t[i] {
      assert Padded(s, 4)[i] == Padded(t, 4)[i];
    }
  }

  lemma SliceOfSlice<T>(m: seq<T>, a: nat, b: nat, c: nat, d: nat)
    requires a <= b <= |m| && c <= d <= b - a
    ensures m[a..b][c..d] == m[a + c..a + d]
  {
    forall i | 0 <= i < d - c ensures m[a..b][c..d][i] == m[a + c..a + d][i] {
      assert m[a..b][c..d][i] == m[a..b][c + i];
    }
  }
}
