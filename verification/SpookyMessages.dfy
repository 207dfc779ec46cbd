/** Messages that SpookyHash cannot confuse: short ones that differ inside one half of a 32-byte
    group or in the bytes after the last whole half, long ones that differ in one word of a block. */
module SpookyMessages {
  import opened RawWords
  import opened Words
  import opened Mixer
  import opened SpookyMixing
  import opened Spooky
  import opened SpookyDistinct

  // ---------------------------------------------------------------- one half apart

  /** What is added to a word can be read off the sum. */
  lemma AddToTells(h: seq<bv64>, d: nat, v: bv64, w: bv64)
    requires d < |h| && AddTo(h, d, v)[d] == AddTo(h, d, w)[d]
    ensures v == w
  {
    hide Add64, Sub64;
    AddCommutes(h[d], v);
    AddCommutes(h[d], w);
    AddSub64(v, h[d]);
    AddSub64(w, h[d]);
  }

  /** Words added at two places of h. */
  lemma TwoWordsTell(h: seq<bv64>, d: nat, e: nat, a: (bv64, bv64), b: (bv64, bv64))
    requires d < |h| && e < |h| && d != e
    requires AddTo(AddTo(h, d, a.0), e, a.1) == AddTo(AddTo(h, d, b.0), e, b.1)
    ensures a == b
  {
    hide Add64;
    var r, s := AddTo(AddTo(h, d, a.0), e, a.1), AddTo(AddTo(h, d, b.0), e, b.1);
    assert r[d] == AddTo(h, d, a.0)[d] && s[d] == AddTo(h, d, b.0)[d];
    AddToTells(h, d, a.0, b.0);
    AddToTells(AddTo(h, d, a.0), e, a.1, b.1);
  }

  lemma TwoWordsInjective(a: seq<Byte>, b: seq<Byte>)
    requires |a| == |b| == 16 && ReadLe64(a[..8]) == ReadLe64(b[..8]) && ReadLe64(a[8..]) == ReadLe64(b[8..])
    ensures a == b
  {
    hide ReadLe64;
    ReadLe64Injective(a[..8], b[..8]);
    ReadLe64Injective(a[8..], b[8..]);
    assert a == a[..8] + a[8..] && b == b[..8] + b[8..];
  }

  lemma ShortHalfTells(a: seq<Byte>, b: seq<Byte>, h: seq<bv64>)
    requires |a| == |b| == 16 && |h| == 4 && a != b
    ensures ShortHalf(a, h) != ShortHalf(b, h)
  {
    hide ShortMix, AddTo, ReadLe64;
    if ShortHalf(a, h) == ShortHalf(b, h) {
      var a1, a2, b1, b2 := ReadLe64(a[..8]), ReadLe64(a[8..]), ReadLe64(b[..8]), ReadLe64(b[8..]);
      ShortMixInjective(AddTo(AddTo(h, 2, a1), 3, a2), AddTo(AddTo(h, 2, b1), 3, b2));
      TwoWordsTell(h, 2, 3, (a1, a2), (b1, b2));
      TwoWordsInjective(a, b);
    }
  }

  /** A difference in the first half of a group, and one in the second. */
  lemma ShortBlockTells(a: seq<Byte>, b: seq<Byte>, c: seq<Byte>, h: seq<bv64>)
    requires |a| == |b| == |c| == 16 && |h| == 4 && a != b
    ensures ShortBlock(a + c, h) != ShortBlock(b + c, h)
    ensures ShortBlock(c + a, h) != ShortBlock(c + b, h)
  {
    hide ShortHalf, AddTo, ReadLe64;
    ShortBlockWords(a, c, h);
    ShortBlockWords(b, c, h);
    ShortBlockWords(c, a, h);
    ShortBlockWords(c, b, h);
    var g1, g2, g := ShortHalf(a, h), ShortHalf(b, h), ShortHalf(c, h);
    var c1, c2 := ReadLe64(c[..8]), ReadLe64(c[8..]);
    ShortHalfTells(a, b, h);
    if ShortBlock(a + c, h) == ShortBlock(b + c, h) {
      AddToInjective(AddTo(g1, 0, c1), AddTo(g2, 0, c1), 1, c2);
      AddToInjective(g1, g2, 0, c1);
    }
    if ShortBlock(c + a, h) == ShortBlock(c + b, h) {
      TwoWordsTell(g, 0, 1, (ReadLe64(a[..8]), ReadLe64(a[8..])), (ReadLe64(b[..8]), ReadLe64(b[8..])));
      TwoWordsInjective(a, b);
    }
  }

  lemma ShortBlockWords(a: seq<Byte>, b: seq<Byte>, h: seq<bv64>)
    requires |a| == |b| == 16 && |h| == 4
    ensures ShortBlock(a + b, h) == AddTo(AddTo(ShortHalf(a, h), 0, ReadLe64(b[..8])), 1, ReadLe64(b[8..]))
  {
    hide ShortHalf, AddTo, ReadLe64;
    assert (a + b)[..16] == a && (a + b)[16..24] == b[..8] && (a + b)[24..] == b[8..];
  }

  lemma {:induction false} ShortBodyConcat(a: seq<Byte>, b: seq<Byte>, h: seq<bv64>)
    requires |a| % 32 == 0 && |h| == 4
    ensures ShortBody(a + b, h) == ShortBody(b, ShortBody(a, h))
  {
    hide ShortBlock, ShortHalf;
    if |a| < 32 {
      assert a + b == b;
    } else {
      assert (a + b)[..32] == a[..32] && (a + b)[32..] == a[32..] + b;
      ShortBodyConcat(a[32..], b, ShortBlock(a[..32], h));
    }
  }

  /** A different half with the same bytes behind it. */
  lemma ShortBodyTells(a: seq<Byte>, b: seq<Byte>, post: seq<Byte>, h: seq<bv64>)
    requires |a| == |b| == 16 && |h| == 4 && a != b
    ensures ShortBody(a + post, h) != ShortBody(b + post, h)
  {
    hide ShortBlock, ShortHalf;
    var m1, m2 := a + post, b + post;
    if |post| >= 16 {
      var c := post[..16];
      assert m1[..32] == a + c && m2[..32] == b + c && m1[32..] == post[16..] == m2[32..];
      ShortBlockTells(a, b, c, h);
      ShortBodyInjective(post[16..], ShortBlock(a + c, h), ShortBlock(b + c, h));
    } else {
      assert m1[..16] == a && m2[..16] == b;
      ShortHalfTells(a, b, h);
    }
  }

  /** The same in the second half of a group. */
  lemma ShortBodyTellsLate(c: seq<Byte>, a: seq<Byte>, b: seq<Byte>, post: seq<Byte>, h: seq<bv64>)
    requires |a| == |b| == |c| == 16 && |h| == 4 && a != b
    ensures ShortBody(c + a + post, h) != ShortBody(c + b + post, h)
  {
    hide ShortBlock, ShortHalf;
    var m1, m2 := c + a + post, c + b + post;
    assert m1[..32] == c + a && m2[..32] == c + b && m1[32..] == post == m2[32..];
    ShortBlockTells(a, b, c, h);
    ShortBodyInjective(post, ShortBlock(c + a, h), ShortBlock(c + b, h));
  }

  lemma BodyTells(c: seq<Byte>, a: seq<Byte>, b: seq<Byte>, post: seq<Byte>, h: seq<bv64>)
    requires |a| == |b| == 16 && |h| == 4 && a != b && (c == [] || |c| == 16)
    ensures ShortBody(c + a + post, h) != ShortBody(c + b + post, h)
  {
    hide ShortBody;
    if c == [] {
      assert c + a + post == a + post && c + b + post == b + post;
      ShortBodyTells(a, b, post, h);
    } else {
      ShortBodyTellsLate(c, a, b, post, h);
    }
  }

  lemma Regroup<T>(pre: seq<T>, k: nat, a: seq<T>, post: seq<T>)
    requires k <= |pre|
    ensures pre + a + post == pre[..k] + (pre[k..] + a + post)
  {
  }

  /** The whole groups of pre can be absorbed first. */
  lemma ShortBodyFrom(pre: seq<Byte>, a: seq<Byte>, post: seq<Byte>, h: seq<bv64>)
    requires |h| == 4
    ensures var k := |pre| / 32 * 32;
            ShortBody(pre + a + post, h) == ShortBody(pre[k..] + a + post, ShortBody(pre[..k], h))
  {
    hide ShortBody;
    var k := |pre| / 32 * 32;
    Regroup(pre, k, a, post);
    ShortBodyConcat(pre[..k], pre[k..] + a + post, h);
  }

  lemma HalfLeft(n: nat)
    requires n % 16 == 0
    ensures var k := n / 32 * 32; n == k || n == k + 16
  {
  }

  lemma ShortBodiesDiffer(pre: seq<Byte>, a: seq<Byte>, b: seq<Byte>, post: seq<Byte>, h: seq<bv64>)
    requires |pre| % 16 == 0 && |a| == |b| == 16 && |h| == 4 && a != b
    ensures ShortBody(pre + a + post, h) != ShortBody(pre + b + post, h)
  {
    hide ShortBody;
    var k := |pre| / 32 * 32;
    ShortBodyFrom(pre, a, post, h);
    ShortBodyFrom(pre, b, post, h);
    HalfLeft(|pre|);
    BodyTells(pre[k..], a, b, post, ShortBody(pre[..k], h));
  }

  /** Messages that differ only inside 16 bytes at a multiple of 16 end in distinct states:
      in the first or the second half of a 32-byte group, or in the remaining half. */
  lemma ShortHalvesDistinct(pre: seq<Byte>, a: seq<Byte>, b: seq<Byte>, post: seq<Byte>, s1: bv64, s2: bv64)
    requires |pre| % 16 == 0 && |a| == |b| == 16 && a != b && |pre| + 16 + |post| < 0x1_0000_0000_0000_0000
    ensures ShortState(pre + a + post, s1, s2) != ShortState(pre + b + post, s1, s2)
  {
    hide ShortBody, ShortTail, ShortEnd, ShortInit;
    var m1, m2 := pre + a + post, pre + b + post;
    var h := ShortInit(s1, s2);
    ShortBodiesDiffer(pre, a, b, post, h);
    var k := |m1| / 16 * 16;
    assert m1[k..] == m2[k..];
    var e1, e2 := ShortTail(m1[k..], |m1|, ShortBody(m1, h)), ShortTail(m1[k..], |m1|, ShortBody(m2, h));
    if e1 == e2 {
      ShortTailInjective(m1[k..], |m1|, ShortBody(m1, h), ShortBody(m2, h));
    }
    if ShortEnd(e1) == ShortEnd(e2) {
      ShortEndInjective(e1, e2);
    }
  }

  // ---------------------------------------------------------------- the bytes of the tail

  function Summed64(w6: bv64, w5: bv64, w4: bv64, w3: bv64, w2: bv64, w1: bv64, w0: bv64): bv64 {
    Add64(Add64(Add64(Add64(Add64(Add64(Add64(0, w6), w5), w4), w3), w2), w1), w0)
  }

  lemma OrIsSum64(b0: Byte, b1: Byte, b2: Byte, b3: Byte, b4: Byte, b5: Byte, b6: Byte)
    ensures Le64(b0, b1, b2, b3, b4, b5, b6, 0) ==
            Summed64((b6 as bv64) << 48, (b5 as bv64) << 40, (b4 as bv64) << 32, (b3 as bv64) << 24,
                     (b2 as bv64) << 16, (b1 as bv64) << 8, b0 as bv64)
    ensures Le64(b0, b1, b2, b3, b4, b5, b6, 0) < 0x100_0000_0000_0000
  {
    DisjointBytesAdd(b0, b1, b2, b3, b4, b5, b6);
  }

  lemma {:induction false} PaddingAddsNothing(s: seq<Byte>, k: nat)
    requires |s| <= 7 && k <= 7
    ensures PlacedSum(Padded(s, 7), k) == if k <= |s| then PlacedSum(s, k) else 0
    decreases 7 - k
  {
    hide Add64, PlacedByte64;
    if k < 7 {
      PaddingAddsNothing(s, k + 1);
      if k >= |s| {
        PlacedZero64(k);
        AddZero(0);
      }
    }
  }

  lemma UnrollPlacedSum(p: seq<Byte>)
    requires |p| == 7
    ensures PlacedSum(p, 0) == Summed64(
              PlacedByte64(p[6], 6), PlacedByte64(p[5], 5), PlacedByte64(p[4], 4), PlacedByte64(p[3], 3),
              PlacedByte64(p[2], 2), PlacedByte64(p[1], 1), PlacedByte64(p[0], 0))
  {
    hide PlacedByte64, Add64;
    assert PlacedSum(p, 7) == 0;
    assert PlacedSum(p, 6) == Add64(0, PlacedByte64(p[6], 6));
    assert PlacedSum(p, 5) == Add64(PlacedSum(p, 6), PlacedByte64(p[5], 5));
    assert PlacedSum(p, 4) == Add64(PlacedSum(p, 5), PlacedByte64(p[4], 4));
    assert PlacedSum(p, 3) == Add64(PlacedSum(p, 4), PlacedByte64(p[3], 3));
    assert PlacedSum(p, 2) == Add64(PlacedSum(p, 3), PlacedByte64(p[2], 2));
    assert PlacedSum(p, 1) == Add64(PlacedSum(p, 2), PlacedByte64(p[1], 1));
  }

  /** The fall-through additions read up to seven bytes as a zero-padded little-endian word. */
  lemma PlacedSumIsWord(s: seq<Byte>)
    requires |s| <= 7
    ensures PlacedSum(s, 0) == ReadLe64(Padded(s, 8)) && PlacedSum(s, 0) < 0x100_0000_0000_0000
  {
    var p := Padded(s, 7);
    assert Padded(s, 8) == p + [0];
    PaddingAddsNothing(s, 0);
    UnrollPlacedSum(p);
    hide PlacedSum, Padded;
    PlacedByteAt64(p[0], 0); PlacedByteAt64(p[1], 1); PlacedByteAt64(p[2], 2); PlacedByteAt64(p[3], 3);
    PlacedByteAt64(p[4], 4); PlacedByteAt64(p[5], 5); PlacedByteAt64(p[6], 6);
    OrIsSum64(p[0], p[1], p[2], p[3], p[4], p[5], p[6]);
    hide PlacedByte64, Le64, Summed64;
  }

  // ---------------------------------------------------------------- the length byte

  lemma LengthsApart(m: nat, n: nat, v: bv64, w: bv64)
    requires m < n < SC_BUFSIZE && w < 0x100_0000_0000_0000 && (v == SC_CONST || v < 0x100_0000_0000_0000)
    ensures Add64(LengthByte(m), v) != Add64(LengthByte(n), w)
  {
    WordOrder(m, n);
    TopBytesApart(m as bv64, n as bv64, v, w);
  }

  // ---------------------------------------------------------------- the last partial half

  /** What the tail adds to h[2] and h[3] can be read off the result. */
  lemma ShortTailTells(a: seq<Byte>, la: nat, b: seq<Byte>, lb: nat, h: seq<bv64>)
    requires |a| < 16 && |b| < 16 && la < 0x1_0000_0000_0000_0000 && lb < 0x1_0000_0000_0000_0000 && |h| == 4
    requires ShortTail(a, la, h) == ShortTail(b, lb, h)
    ensures TailWords(a).0 == TailWords(b).0
    ensures Add64(LengthByte(la), TailWords(a).1) == Add64(LengthByte(lb), TailWords(b).1)
  {
    hide Add64, LengthByte, TailWords;
    var (v2, v3) := TailWords(a);
    var (w2, w3) := TailWords(b);
    var r, s := ShortTail(a, la, h), ShortTail(b, lb, h);
    assert r[2] == Add64(h[2], v2) && s[2] == Add64(h[2], w2);
    assert r[3] == Add64(Add64(h[3], LengthByte(la)), v3) && s[3] == Add64(Add64(h[3], LengthByte(lb)), w3);
    AddAssoc(h[3], LengthByte(la), v3);
    AddAssoc(h[3], LengthByte(lb), w3);
    AddCancels(h[2], v2, w2);
    AddCancels(h[3], Add64(LengthByte(la), v3), Add64(LengthByte(lb), w3));
  }

  lemma AddCancels(x: bv64, v: bv64, w: bv64)
    requires Add64(x, v) == Add64(x, w)
    ensures v == w
  {
    hide Add64, Sub64;
    AddCommutes(x, v);
    AddCommutes(x, w);
    AddSub64(v, x);
    AddSub64(w, x);
  }

  /** The second word of a tail that is not empty leaves the top byte free. */
  lemma SecondWordSmall(a: seq<Byte>)
    requires |a| < 16
    ensures if a == [] then TailWords(a).1 == SC_CONST else TailWords(a).1 < 0x100_0000_0000_0000
  {
    hide PlacedSum;
    if |a| >= 8 {
      PlacedSumIsWord(a[8..]);
    }
  }

  /** Tails of one length. */
  lemma TailWordsInjective(a: seq<Byte>, b: seq<Byte>)
    requires |a| == |b| < 16 && TailWords(a) == TailWords(b)
    ensures a == b
  {
    hide PlacedSum, ReadLe64, Padded;
    if |a| >= 8 {
      PlacedSumIsWord(a[8..]);
      PlacedSumIsWord(b[8..]);
      PaddedWord64Injective(a[8..], b[8..]);
      ReadLe64Injective(a[..8], b[..8]);
      assert a == a[..8] + a[8..] && b == b[..8] + b[8..];
    } else if a != [] {
      PlacedSumIsWord(a);
      PlacedSumIsWord(b);
      PaddedWord64Injective(a, b);
    }
  }

  /** Tails of different lengths. */
  lemma TailLengthsTell(a: seq<Byte>, b: seq<Byte>, k: nat)
    requires |a| < |b| < 16 && k + |b| < SC_BUFSIZE
    ensures Add64(LengthByte(k + |a|), TailWords(a).1) != Add64(LengthByte(k + |b|), TailWords(b).1)
  {
    hide TailWords, Add64, LengthByte;
    SecondWordSmall(a);
    SecondWordSmall(b);
    LengthsApart(k + |a|, k + |b|, TailWords(a).1, TailWords(b).1);
  }

  /** Short messages that share their whole 16-byte halves and differ in what follows, in
      length or in content, end in distinct states. */
  lemma ShortTailsDistinct(halves: seq<Byte>, a: seq<Byte>, b: seq<Byte>, s1: bv64, s2: bv64)
    requires |halves| % 16 == 0 && |a| < 16 && |b| < 16 && a != b
    requires |halves| + |a| < SC_BUFSIZE && |halves| + |b| < SC_BUFSIZE
    ensures ShortState(halves + a, s1, s2) != ShortState(halves + b, s1, s2)
  {
    hide ShortBody, ShortTail, ShortEnd, ShortInit, TailWords, LengthByte, Add64;
    var k := |halves|;
    var h := ShortBody(halves, ShortInit(s1, s2));
    ShortStateSplit(halves, a, s1, s2);
    ShortStateSplit(halves, b, s1, s2);
    var e1, e2 := ShortTail(a, k + |a|, h), ShortTail(b, k + |b|, h);
    if e1 == e2 {
      ShortTailTells(a, k + |a|, b, k + |b|, h);
      if |a| < |b| {
        TailLengthsTell(a, b, k);
      } else if |b| < |a| {
        TailLengthsTell(b, a, k);
      } else {
        AddCancels(LengthByte(k + |a|), TailWords(a).1, TailWords(b).1);
        TailWordsInjective(a, b);
      }
    }
    if ShortEnd(e1) == ShortEnd(e2) {
      ShortEndInjective(e1, e2);
    }
  }

  /** The bytes after the last whole half do not enter the body. */
  lemma {:induction false} ShortBodyIgnoresTail(m: seq<Byte>, a: seq<Byte>, h: seq<bv64>)
    requires |m| % 16 == 0 && |a| < 16 && |h| == 4
    ensures ShortBody(m + a, h) == ShortBody(m, h)
  {
    hide ShortBlock, ShortHalf;
    if |m| >= 32 {
      assert (m + a)[..32] == m[..32] && (m + a)[32..] == m[32..] + a;
      ShortBodyIgnoresTail(m[32..], a, ShortBlock(m[..32], h));
    } else if |m| == 16 {
      assert (m + a)[..16] == m[..16];
    }
  }

  lemma WholeHalves(n: nat, r: nat)
    requires n % 16 == 0 && r < 16
    ensures (n + r) / 16 * 16 == n
  {
  }

  lemma ShortStateSplit(m: seq<Byte>, a: seq<Byte>, s1: bv64, s2: bv64)
    requires |m| % 16 == 0 && |a| < 16 && |m| + |a| < 0x1_0000_0000_0000_0000
    ensures ShortState(m + a, s1, s2) == ShortEnd(ShortTail(a, |m| + |a|, ShortBody(m, ShortInit(s1, s2))))
  {
    hide ShortBody, ShortTail, ShortEnd, ShortInit;
    hide ShortState;
    var x := m + a;
    assert x[|m|..] == a;
    WholeHalves(|m|, |a|);
    ShortStateAt(x, |m|, s1, s2);
    ShortBodyIgnoresTail(m, a, ShortInit(s1, s2));
  }

  lemma ShortStateAt(x: seq<Byte>, k: nat, s1: bv64, s2: bv64)
    requires |x| < 0x1_0000_0000_0000_0000 && k == |x| / 16 * 16
    ensures ShortState(x, s1, s2) == ShortEnd(ShortTail(x[k..], |x|, ShortBody(x, ShortInit(s1, s2))))
  {
  }

  // ---------------------------------------------------------------- one word of a block

  /** How often program p adds data word i. */
  function Uses(p: seq<Op>, i: nat): nat {
    if p == [] then 0 else (if p[0].AddData? && p[0].i == i then 1 else 0) + Uses(p[1..], i)
  }

  lemma {:induction false} RunIgnoresWord(p: seq<Op>, d: seq<bv64>, i: nat, w: bv64, h: seq<bv64>)
    requires i < |d| && Fits(p, |h|, |d|) && Uses(p, i) == 0
    ensures Run(p, d[i := w], h) == Run(p, d, h)
  {
    hide Apply;
    if p != [] {
      assert Step(p[0], d[i := w], h) == Step(p[0], d, h);
      RunIgnoresWord(p[1..], d, i, w, Step(p[0], d, h));
    }
  }

  /** A program that adds a data word once ends differently for every value of the word. */
  lemma {:induction false} RunTellsWord(p: seq<Op>, d: seq<bv64>, i: nat, w: bv64, h: seq<bv64>)
    requires i < |d| && w != d[i] && Fits(p, |h|, |d|) && Uses(p, i) == 1
    ensures Run(p, d[i := w], h) != Run(p, d, h)
  {
    hide Apply;
    var d2 := d[i := w];
    var g1, g2 := Step(p[0], d, h), Step(p[0], d2, h);
    if p[0].AddData? && p[0].i == i {
      AddDataTells(p[0], d, i, w, h);
      RunIgnoresWord(p[1..], d, i, w, g2);
      if Run(p[1..], d, g1) == Run(p[1..], d, g2) {
        RunInjective(p[1..], d, g1, g2);
      }
    } else {
      assert g1 == g2;
      RunTellsWord(p[1..], d, i, w, g1);
    }
  }

  lemma AddDataTells(op: Op, d: seq<bv64>, i: nat, w: bv64, h: seq<bv64>)
    requires i < |d| && w != d[i] && op.AddData? && op.i == i && OpFits(op, |h|, |d|)
    ensures Step(op, d[i := w], h) != Step(op, d, h)
  {
    hide Add64;
    if Step(op, d[i := w], h)[op.dst] == Step(op, d, h)[op.dst] {
      AddCancels(h[op.dst], d[i], w);
    }
  }

  lemma {:induction false} UsesConcat(a: seq<Op>, b: seq<Op>, i: nat)
    ensures Uses(a + b, i) == Uses(a, i) + Uses(b, i)
  {
    if a == [] {
      assert a + b == b;
    } else {
      assert (a + b)[1..] == a[1..] + b;
      UsesConcat(a[1..], b, i);
    }
  }

  lemma MixRowUses(r: nat, i: nat)
    requires r < 12 && i < 12
    ensures Uses(MIX[r], i) == if r == i then 1 else 0
  {
    MixRowsTurn(r);
    var row := MIX[r];
    assert Uses(row[4..], i) == Uses(row[4..][1..], i) == 0;
    assert row[3..][1..] == row[4..] && row[2..][1..] == row[3..] && row[1..][1..] == row[2..];
    assert Uses(row[2..], i) == Uses(row[3..], i) == Uses(row[4..], i);
    assert Uses(row[1..], i) == Uses(row[2..], i);
  }

  lemma {:induction false} MixUses(r: nat, i: nat)
    requires r <= 12 && i < 12
    ensures Uses(Flatten(MIX[r..]), i) == if r <= i then 1 else 0
    decreases 12 - r
  {
    hide Uses;
    if r < 12 {
      MixUses(r + 1, i);
      MixRowUses(r, i);
      assert MIX[r..][0] == MIX[r] && MIX[r..][1..] == MIX[r + 1..];
      UsesConcat(MIX[r], Flatten(MIX[r + 1..]), i);
    } else {
      NoUses(i);
    }
  }

  lemma NoUses(i: nat)
    ensures Uses(Flatten(MIX[12..]), i) == 0
  {
  }

  /** spooky_mix with one word of the block changed. */
  lemma MixTellsWord(d: seq<bv64>, i: nat, w: bv64, h: seq<bv64>)
    requires |d| == |h| == 12 && i < 12 && w != d[i]
    ensures Mix(d[i := w], h) != Mix(d, h)
  {
    hide Run, Flatten, Fits, Uses;
    ProgramsFit();
    MixUses(0, i);
    assert MIX[0..] == MIX;
    RunTellsWord(Flatten(MIX), d, i, w, h);
  }

  /** Blocks that differ in word i only. */
  predicate OneWordApart(a: seq<Byte>, b: seq<Byte>, i: nat) {
    |a| == |b| == SC_BLOCKSIZE && i < 12 && a != b && a[..8 * i] == b[..8 * i] && a[8 * i + 8..] == b[8 * i + 8..]
  }

  lemma OneWordChanged(a: seq<Byte>, b: seq<Byte>, i: nat)
    requires OneWordApart(a, b, i)
    ensures ReadBlock(b) == ReadBlock(a)[i := ReadBlock(b)[i]] && ReadBlock(b)[i] != ReadBlock(a)[i]
  {
    hide ReadLe64;
    forall j | 0 <= j < 12 && j != i ensures ReadBlock(b)[j] == ReadBlock(a)[j] {
      SameWord(a, b, i, j);
    }
    if ReadBlock(b)[i] == ReadBlock(a)[i] {
      assert forall j :: 0 <= j < 12 ==> ReadBlock(b)[j] == ReadBlock(a)[j];
      ReadBlockInjective(a, b);
    }
  }

  lemma SameWord(a: seq<Byte>, b: seq<Byte>, i: nat, j: nat)
    requires OneWordApart(a, b, i) && j < 12 && j != i
    ensures a[8 * j..8 * j + 8] == b[8 * j..8 * j + 8]
  {
    if j < i {
      assert a[8 * j..8 * j + 8] == a[..8 * i][8 * j..8 * j + 8];
      assert b[8 * j..8 * j + 8] == b[..8 * i][8 * j..8 * j + 8];
    } else {
      var c := 8 * j - (8 * i + 8);
      assert a[8 * j..8 * j + 8] == a[8 * i + 8..][c..c + 8];
      assert b[8 * j..8 * j + 8] == b[8 * i + 8..][c..c + 8];
    }
  }

  lemma MixBlocksOver(pre: seq<Byte>, a: seq<Byte>, post: seq<Byte>, h: seq<bv64>)
    requires |pre| % SC_BLOCKSIZE == 0 && |a| == SC_BLOCKSIZE && |h| == 12
    ensures MixBlocks(pre + a + post, h) == MixBlocks(post, Mix(ReadBlock(a), MixBlocks(pre, h)))
  {
    hide Mix, ReadBlock;
    assert pre + a + post == pre + (a + post);
    MixBlocksConcat(pre, a + post, h);
    assert (a + post)[..SC_BLOCKSIZE] == a && (a + post)[SC_BLOCKSIZE..] == post;
  }

  /** Long messages that differ only inside one word of a whole 96-byte block end in distinct
      states. */
  lemma LongWordsDistinct(pre: seq<Byte>, a: seq<Byte>, b: seq<Byte>, post: seq<Byte>, i: nat, s1: bv64, s2: bv64)
    requires |pre| % SC_BLOCKSIZE == 0 && OneWordApart(a, b, i)
    ensures LongState(pre + a + post, s1, s2) != LongState(pre + b + post, s1, s2)
  {
    hide MixBlocks, Mix, ReadBlock, End, LastBlock, LongInit, OneWordApart;
    var k := |post| / SC_BLOCKSIZE * SC_BLOCKSIZE;
    var whole, tail := post[..k], post[k..];
    var h := LongInit(s1, s2);
    var g := MixBlocks(pre, h);
    OneWordSizes(a, b, i);
    LongStateSplit(pre, a, post, s1, s2);
    LongStateSplit(pre, b, post, s1, s2);
    OneWordChanged(a, b, i);
    MixTellsWord(ReadBlock(a), i, ReadBlock(b)[i], g);
    MixBlocksInjective(whole, Mix(ReadBlock(a), g), Mix(ReadBlock(b), g));
    var x, y := MixBlocks(whole, Mix(ReadBlock(a), g)), MixBlocks(whole, Mix(ReadBlock(b), g));
    if End(ReadBlock(LastBlock(tail)), x) == End(ReadBlock(LastBlock(tail)), y) {
      EndInjective(ReadBlock(LastBlock(tail)), x, y);
    }
  }

  lemma OneWordSizes(a: seq<Byte>, b: seq<Byte>, i: nat)
    requires OneWordApart(a, b, i)
    ensures |a| == |b| == SC_BLOCKSIZE && i < 12
  {
  }

  lemma LongStateSplit(pre: seq<Byte>, a: seq<Byte>, post: seq<Byte>, s1: bv64, s2: bv64)
    requires |pre| % SC_BLOCKSIZE == 0 && |a| == SC_BLOCKSIZE
    ensures var k := |post| / SC_BLOCKSIZE * SC_BLOCKSIZE;
            LongState(pre + a + post, s1, s2) ==
            End(ReadBlock(LastBlock(post[k..])),
                MixBlocks(post[..k], Mix(ReadBlock(a), MixBlocks(pre, LongInit(s1, s2)))))
  {
    hide LongState, MixBlocks, Mix, ReadBlock, End, LastBlock, LongInit;
    var m := pre + a + post;
    var k := |post| / SC_BLOCKSIZE * SC_BLOCKSIZE;
    var n := |pre| + SC_BLOCKSIZE + k;
    WholeBlocks(|pre|, |post|);
    assert m[n..] == post[k..] && m[..n] == pre + a + post[..k];
    LongStateAt(m, n, s1, s2);
    MixBlocksOver(pre, a, post[..k], LongInit(s1, s2));
  }

  lemma LongStateAt(m: seq<Byte>, k: nat, s1: bv64, s2: bv64)
    requires k == |m| / SC_BLOCKSIZE * SC_BLOCKSIZE
    ensures LongState(m, s1, s2) == End(ReadBlock(LastBlock(m[k..])), MixBlocks(m[..k], LongInit(s1, s2)))
  {
  }

  lemma WholeBlocks(n: nat, r: nat)
    requires n % 96 == 0
    ensures (n + 96 + r) / 96 * 96 == n + 96 + r / 96 * 96
  {
  }
}
