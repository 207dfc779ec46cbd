/** Facts about bare bit-vectors and the numbers they stand for, away from all other
    definitions: next to those they are costly to prove. */
module RawWords {

  // ---------------------------------------------------------------- numbers as bytes and words

  lemma NextByte(x: bv8)
    requires x as nat < 255
    ensures (x + 1) as nat == x as nat + 1
  {
  }

  /** Every number below 256 is the value of a byte. */
  lemma {:induction false} ByteOf(n: nat) returns (x: bv8)
    requires n < 256
    ensures x as nat == n
  {
    if n == 0 {
      x := 0;
    } else {
      var y := ByteOf(n - 1);
      NextByte(y);
      x := y + 1;
    }
  }

  lemma BackAgain(x: bv8, y: bv32, z: bv64)
    ensures (x as nat) as bv8 == x && (y as nat) as bv32 == y && (z as nat) as bv64 == z
  {
  }

  /** Conversions to a byte keep small numbers. */
  lemma ByteValue(n: nat)
    requires n < 256
    ensures (n as bv8) as nat == n
  {
    var x := ByteOf(n);
    BackAgain(x, 0, 0);
  }

  lemma JoinedBytes(a: bv8, b: bv8, c: bv8, d: bv8)
    ensures ((a as bv64) | ((b as bv64) << 8) | ((c as bv64) << 16) | ((d as bv64) << 24)) as nat ==
            a as nat + 256 * b as nat + 65536 * c as nat + 16777216 * d as nat
    ensures ((a as bv32) | ((b as bv32) << 8) | ((c as bv32) << 16) | ((d as bv32) << 24)) as nat ==
            a as nat + 256 * b as nat + 65536 * c as nat + 16777216 * d as nat
  {
  }

  /** Every number below 2^32 is the value of a word. */
  lemma WordOf(n: nat) returns (x: bv64, y: bv32)
    requires n < 0x1_0000_0000
    ensures x as nat == n == y as nat
  {
    var n1 := n / 256;
    var n2 := n1 / 256;
    var a := ByteOf(n % 256);
    var b := ByteOf(n1 % 256);
    var c := ByteOf(n2 % 256);
    var d := ByteOf(n2 / 256);
    JoinedBytes(a, b, c, d);
    x := (a as bv64) | ((b as bv64) << 8) | ((c as bv64) << 16) | ((d as bv64) << 24);
    y := (a as bv32) | ((b as bv32) << 8) | ((c as bv32) << 16) | ((d as bv32) << 24);
  }

  /** So do conversions to a word. */
  lemma WordValue(n: nat)
    requires n < 0x1_0000_0000
    ensures (n as bv64) as nat == n == (n as bv32) as nat
  {
    var x, y := WordOf(n);
    BackAgain(0, y, x);
  }

  lemma ByteOrder(x: bv8, y: bv8)
    ensures x <= y ==> x as nat <= y as nat
    ensures x < y ==> (x as bv64) < (y as bv64)
  {
  }

  lemma SmallWord(n: nat)
    requires n < 192
    ensures n as bv64 == (n as bv8) as bv64 && (n as bv64) < 192
  {
  }

  lemma WordOrder(m: nat, n: nat)
    requires m < n < 192
    ensures (m as bv64) < (n as bv64) < 192
  {
    ByteValue(m);
    ByteValue(n);
    SmallWord(m);
    SmallWord(n);
    ByteOrder(n as bv8, m as bv8);
    ByteOrder(m as bv8, n as bv8);
  }

  // ---------------------------------------------------------------- sums of shifted bytes

  lemma DisjointBytesAdd(b0: bv8, b1: bv8, b2: bv8, b3: bv8, b4: bv8, b5: bv8, b6: bv8)
    ensures var w := (b0 as bv64) | ((b1 as bv64) << 8) | ((b2 as bv64) << 16) | ((b3 as bv64) << 24) |
                     ((b4 as bv64) << 32) | ((b5 as bv64) << 40) | ((b6 as bv64) << 48) | ((0 as bv64) << 56);
            w < 0x100_0000_0000_0000 &&
            w == ((((((((0 as bv64) + ((b6 as bv64) << 48)) + ((b5 as bv64) << 40)) + ((b4 as bv64) << 32)) +
                    ((b3 as bv64) << 24)) + ((b2 as bv64) << 16)) + ((b1 as bv64) << 8)) + (b0 as bv64))
  {
  }

  lemma TopBytesApart(x: bv64, y: bv64, v: bv64, w: bv64)
    requires x < y < 192 && w < 0x100_0000_0000_0000
    ensures v < 0x100_0000_0000_0000 ==> (x << 56) + v != (y << 56) + w
    ensures (x << 56) + 0xDEADBEEFDEADBEEF != (y << 56) + w
  {
  }
}
