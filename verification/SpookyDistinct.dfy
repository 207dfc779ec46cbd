/** What SpookyHash cannot confuse. The reported hash is cut down to two words, so
    these results are about the full final word state. */
module SpookyDistinct {
  import opened RawWords
  import opened Words
  import opened Mixer
  import opened SpookyMixing
  import opened Spooky

  /** Undoes spooky_end: its three rounds, then its additions. */
  function Unend(data: seq<bv64>, h: seq<bv64>): (r: seq<bv64>)
    requires |data| == |h| == 12
    ensures |r| == 12
  {
    ProgramsFit();
    var p := Flatten(END_PARTIAL);
    Unrun(ABSORB, data, Unrun(p, data, Unrun(p, data, Unrun(p, data, h))))
  }

  lemma EndUnend(data: seq<bv64>, h: seq<bv64>)
    requires |data| == |h| == 12
    ensures Unend(data, End(data, h)) == h == End(data, Unend(data, h))
  {
    hide Run, Unrun, Flatten, Fits;
    ProgramsFit();
    var p := Flatten(END_PARTIAL);
    var a1 := Run(ABSORB, data, h);
    RunUnrun(ABSORB, data, h);
    RunUnrun(p, data, a1);
    RunUnrun(p, data, Run(p, data, a1));
    RunUnrun(p, data, Run(p, data, Run(p, data, a1)));
    var u1 := Unrun(p, data, h);
    RunUnrun(p, data, h);
    RunUnrun(p, data, u1);
    RunUnrun(p, data, Unrun(p, data, u1));
    RunUnrun(ABSORB, data, Unrun(p, data, Unrun(p, data, u1)));
  }

  /** Each routine permutes its word states: spooky_mix, spooky_end and its rounds the twelve
      words, spooky_short_mix and spooky_short_end the four. The inverses are explicit. */
  lemma RoutinesPermute(data: seq<bv64>, h: seq<bv64>, g: seq<bv64>)
    requires |data| == |h| == 12 && |g| == 4
    ensures Fits(Flatten(MIX), 12, 12) && Fits(Flatten(END_PARTIAL), 12, 12)
    ensures Fits(Flatten(SHORT_MIX), 4, 0) && Fits(Flatten(SHORT_END), 4, 0)
    ensures Unend(data, End(data, h)) == h == End(data, Unend(data, h))
    ensures Unrun(Flatten(MIX), data, Mix(data, h)) == h == Mix(data, Unrun(Flatten(MIX), data, h))
    ensures Unrun(Flatten(END_PARTIAL), data, Run(Flatten(END_PARTIAL), data, h)) == h
    ensures Run(Flatten(END_PARTIAL), data, Unrun(Flatten(END_PARTIAL), data, h)) == h
    ensures Unrun(Flatten(SHORT_MIX), [], ShortMix(g)) == g == ShortMix(Unrun(Flatten(SHORT_MIX), [], g))
    ensures Unrun(Flatten(SHORT_END), [], ShortEnd(g)) == g == ShortEnd(Unrun(Flatten(SHORT_END), [], g))
  {
    hide Run, Unrun, Flatten, Fits, Unend, End;
    ProgramsFit();
    RunUnrun(Flatten(MIX), data, h);
    RunUnrun(Flatten(END_PARTIAL), data, h);
    RunUnrun(Flatten(SHORT_MIX), [], g);
    RunUnrun(Flatten(SHORT_END), [], g);
    EndUnend(data, h);
  }

  lemma {:induction false} MixBlocksInjective(m: seq<Byte>, h1: seq<bv64>, h2: seq<bv64>)
    requires |h1| == |h2| == 12 && h1 != h2
    ensures MixBlocks(m, h1) != MixBlocks(m, h2)
  {
    hide Mix, ReadBlock;
    if |m| >= SC_BLOCKSIZE {
      var data := ReadBlock(m[..SC_BLOCKSIZE]);
      if Mix(data, h1) == Mix(data, h2) {
        MixInjective(data, h1, h2);
      }
      MixBlocksInjective(m[SC_BLOCKSIZE..], Mix(data, h1), Mix(data, h2));
    }
  }

  /** On every message of 192 bytes or more, distinct seed pairs end in distinct states. */
  lemma LongSeedsDistinct(m: seq<Byte>, s1: bv64, s2: bv64, t1: bv64, t2: bv64)
    requires (s1, s2) != (t1, t2)
    ensures LongState(m, s1, s2) != LongState(m, t1, t2)
  {
    hide Mix, MixBlocks, ReadBlock, End, LastBlock;
    var k := |m| / SC_BLOCKSIZE * SC_BLOCKSIZE;
    var h1, h2 := LongInit(s1, s2), LongInit(t1, t2);
    assert h1[0] == s1 && h1[1] == s2 && h2[0] == t1 && h2[1] == t2;
    MixBlocksInjective(m[..k], h1, h2);
    var data := ReadBlock(LastBlock(m[k..]));
    if End(data, MixBlocks(m[..k], h1)) == End(data, MixBlocks(m[..k], h2)) {
      EndInjective(data, MixBlocks(m[..k], h1), MixBlocks(m[..k], h2));
    }
  }

  lemma AddToInjective(h1: seq<bv64>, h2: seq<bv64>, d: nat, w: bv64)
    requires |h1| == |h2| && d < |h1| && AddTo(h1, d, w) == AddTo(h2, d, w)
    ensures h1 == h2
  {
    hide Add64, Sub64;
    AddSub64(h1[d], w);
    AddSub64(h2[d], w);
    assert Add64(h1[d], w) == AddTo(h1, d, w)[d] == AddTo(h2, d, w)[d] == Add64(h2[d], w);
    assert AddTo(h1, d, w)[d := h1[d]] == h1;
    assert AddTo(h2, d, w)[d := h2[d]] == h2;
  }

  lemma ShortHalfInjective(m: seq<Byte>, h1: seq<bv64>, h2: seq<bv64>)
    requires |m| == 16 && |h1| == |h2| == 4
    ensures ShortHalf(m, h1) == ShortHalf(m, h2) ==> h1 == h2
  {
    hide ShortMix, AddTo, ReadLe64;
    if ShortHalf(m, h1) == ShortHalf(m, h2) {
      var a, b := ReadLe64(m[..8]), ReadLe64(m[8..]);
      ShortMixInjective(AddTo(AddTo(h1, 2, a), 3, b), AddTo(AddTo(h2, 2, a), 3, b));
      AddToInjective(AddTo(h1, 2, a), AddTo(h2, 2, a), 3, b);
      AddToInjective(h1, h2, 2, a);
    }
  }

  lemma ShortBlockInjective(m: seq<Byte>, h1: seq<bv64>, h2: seq<bv64>)
    requires |m| == 32 && |h1| == |h2| == 4
    ensures ShortBlock(m, h1) == ShortBlock(m, h2) ==> h1 == h2
  {
    hide ShortHalf, AddTo, ReadLe64;
    if ShortBlock(m, h1) == ShortBlock(m, h2) {
      var g1, g2 := ShortHalf(m[..16], h1), ShortHalf(m[..16], h2);
      var a, b := ReadLe64(m[16..24]), ReadLe64(m[24..]);
      AddToInjective(AddTo(g1, 0, a), AddTo(g2, 0, a), 1, b);
      AddToInjective(g1, g2, 0, a);
      ShortHalfInjective(m[..16], h1, h2);
    }
  }

  lemma {:induction false} ShortBodyInjective(m: seq<Byte>, h1: seq<bv64>, h2: seq<bv64>)
    requires |h1| == |h2| == 4 && h1 != h2
    ensures ShortBody(m, h1) != ShortBody(m, h2)
  {
    hide ShortHalf, ShortBlock;
    if |m| >= 32 {
      var g1, g2 := ShortBlock(m[..32], h1), ShortBlock(m[..32], h2);
      if g1 == g2 {
        ShortBlockInjective(m[..32], h1, h2);
      }
      ShortBodyInjective(m[32..], g1, g2);
    } else if |m| >= 16 && ShortHalf(m[..16], h1) == ShortHalf(m[..16], h2) {
      ShortHalfInjective(m[..16], h1, h2);
    }
  }

  lemma ShortTailInjective(tail: seq<Byte>, length: nat, h1: seq<bv64>, h2: seq<bv64>)
    requires |tail| < 16 && length < 0x1_0000_0000_0000_0000 && |h1| == |h2| == 4
    requires ShortTail(tail, length, h1) == ShortTail(tail, length, h2)
    ensures h1 == h2
  {
    hide AddTo, TailWords, LengthByte;
    var l := LengthByte(length);
    var (w2, w3) := TailWords(tail);
    AddToInjective(AddTo(AddTo(h1, 3, l), 2, w2), AddTo(AddTo(h2, 3, l), 2, w2), 3, w3);
    AddToInjective(AddTo(h1, 3, l), AddTo(h2, 3, l), 2, w2);
    AddToInjective(h1, h2, 3, l);
  }

  /** The same for every shorter message. */
  lemma ShortSeedsDistinct(m: seq<Byte>, s1: bv64, s2: bv64, t1: bv64, t2: bv64)
    requires |m| < 0x1_0000_0000_0000_0000 && (s1, s2) != (t1, t2)
    ensures ShortState(m, s1, s2) != ShortState(m, t1, t2)
  {
    hide ShortBody, ShortTail, ShortEnd;
    var k := |m| / 16 * 16;
    var h1, h2 := ShortInit(s1, s2), ShortInit(t1, t2);
    assert h1[0] == s1 && h1[1] == s2 && h2[0] == t1 && h2[1] == t2;
    ShortBodyInjective(m, h1, h2);
    var g1, g2 := ShortBody(m, h1), ShortBody(m, h2);
    var e1, e2 := ShortTail(m[k..], |m|, g1), ShortTail(m[k..], |m|, g2);
    if e1 == e2 {
      ShortTailInjective(m[k..], |m|, g1, g2);
    }
    if ShortEnd(e1) == ShortEnd(e2) {
      ShortEndInjective(e1, e2);
    }
  }

  // ---------------------------------------------------------------- the last partial block

  /** The additions of spooky_end from word i on. */
  function AbsorbFrom(i: nat): seq<Op>
    requires i <= 12
    decreases 12 - i
  {
    if i == 12 then [] else [AddData(i, i)] + AbsorbFrom(i + 1)
  }

  lemma AbsorbIsAbsorbFrom()
    ensures ABSORB == AbsorbFrom(0)
  {
    assert AbsorbFrom(11) == [AddData(11, 11)];
    assert AbsorbFrom(9) == [AddData(9, 9), AddData(10, 10), AddData(11, 11)];
    assert AbsorbFrom(7) == [AddData(7, 7), AddData(8, 8)] + AbsorbFrom(9);
    assert AbsorbFrom(5) == [AddData(5, 5), AddData(6, 6)] + AbsorbFrom(7);
    assert AbsorbFrom(3) == [AddData(3, 3), AddData(4, 4)] + AbsorbFrom(5);
    assert AbsorbFrom(1) == [AddData(1, 1), AddData(2, 2)] + AbsorbFrom(3);
  }

  lemma {:induction false} AbsorbAddsEachWord(i: nat, data: seq<bv64>, h: seq<bv64>)
    requires i <= 12 && |data| == |h| == 12
    ensures Fits(AbsorbFrom(i), 12, 12)
    ensures forall j :: 0 <= j < 12 ==> Run(AbsorbFrom(i), data, h)[j] == if j < i then h[j] else Add64(h[j], data[j])
    decreases 12 - i
  {
    hide Add64;
    if i < 12 {
      var p := AbsorbFrom(i);
      assert p[1..] == AbsorbFrom(i + 1);
      AbsorbAddsEachWord(i + 1, data, Step(p[0], data, h));
      AbsorbAddsEachWord(i + 1, data, h);
    }
  }

  lemma EndInjectiveInData(d1: seq<bv64>, d2: seq<bv64>, h: seq<bv64>)
    requires |d1| == |d2| == |h| == 12
    ensures End(d1, h) == End(d2, h) ==> d1 == d2
  {
    hide Run, Fits, Flatten, Add64;
    if End(d1, h) == End(d2, h) {
      ProgramsFit();
      AbsorbIsAbsorbFrom();
      AbsorbAddsEachWord(0, d1, h);
      AbsorbAddsEachWord(0, d2, h);
      PartialIgnoresData(d1, d2, h);
      var p := Flatten(END_PARTIAL);
      var a1, a2 := Run(ABSORB, d1, h), Run(ABSORB, d2, h);
      PartialIgnoresData(d1, d2, a2);
      PartialIgnoresData(d1, d2, Run(p, d2, a2));
      PartialIgnoresData(d1, d2, Run(p, d2, Run(p, d2, a2)));
      RunInjective(p, d1, Run(p, d1, Run(p, d1, a1)), Run(p, d1, Run(p, d1, a2)));
      RunInjective(p, d1, Run(p, d1, a1), Run(p, d1, a2));
      RunInjective(p, d1, a1, a2);
      forall j | 0 <= j < 12 ensures d1[j] == d2[j] {
        AddCommutes(h[j], d1[j]);
        AddCommutes(h[j], d2[j]);
        AddSub64(d1[j], h[j]);
        AddSub64(d2[j], h[j]);
      }
    }
  }

  lemma AddCommutes(x: bv64, y: bv64)
    ensures Add64(x, y) == Add64(y, x)
  {
  }

  predicate NoData(p: seq<Op>) {
    forall j :: 0 <= j < |p| ==> !p[j].AddData?
  }

  lemma {:induction false} RunIgnoresData(p: seq<Op>, d1: seq<bv64>, d2: seq<bv64>, h: seq<bv64>)
    requires |d1| == |d2| && Fits(p, |h|, |d1|) && NoData(p)
    ensures Run(p, d1, h) == Run(p, d2, h)
  {
    hide Apply;
    if p != [] {
      assert Step(p[0], d1, h) == Step(p[0], d2, h);
      RunIgnoresData(p[1..], d1, d2, Step(p[0], d1, h));
    }
  }

  lemma {:induction false} FlattenNoData(rows: seq<seq<Op>>)
    requires forall r :: 0 <= r < |rows| ==> NoData(rows[r])
    ensures NoData(Flatten(rows))
  {
    if rows != [] {
      FlattenNoData(rows[1..]);
    }
  }

  lemma PartialIgnoresData(d1: seq<bv64>, d2: seq<bv64>, h: seq<bv64>)
    requires |d1| == |d2| == |h| == 12
    ensures Fits(Flatten(END_PARTIAL), 12, 12)
    ensures Run(Flatten(END_PARTIAL), d1, h) == Run(Flatten(END_PARTIAL), d2, h)
  {
    hide Flatten, Run, Fits;
    ProgramsFit();
    assert forall r :: 0 <= r < |END_PARTIAL| ==> NoData(END_PARTIAL[r]) by {
      forall r: nat | r < |END_PARTIAL| ensures NoData(END_PARTIAL[r]) {
        EndPartialRowsTurn(r);
      }
    }
    FlattenNoData(END_PARTIAL);
    RunIgnoresData(Flatten(END_PARTIAL), d1, d2, h);
  }

  lemma ReadBlockInjective(a: seq<Byte>, b: seq<Byte>)
    requires |a| == |b| == SC_BLOCKSIZE && ReadBlock(a) == ReadBlock(b)
    ensures a == b
  {
    hide ReadLe64;
    forall i | 0 <= i < SC_BLOCKSIZE ensures a[i] == b[i] {
      var j := i / 8;
      var s, t := a[8 * j..8 * j + 8], b[8 * j..8 * j + 8];
      assert ReadLe64(s) == ReadBlock(a)[j] == ReadBlock(b)[j] == ReadLe64(t);
      ReadLe64Injective(s, t);
      assert a[i] == s[i - 8 * j] && b[i] == t[i - 8 * j];
    }
  }

  lemma LengthMarkValue(n: nat)
    requires n < SC_BLOCKSIZE
    ensures LengthMark(n) as nat == n
  {
    ByteValue(n);
  }

  lemma LastBlockInjective(a: seq<Byte>, b: seq<Byte>)
    requires |a| < SC_BLOCKSIZE && |b| < SC_BLOCKSIZE && LastBlock(a) == LastBlock(b)
    ensures a == b
  {
    hide LengthMark;
    LengthMarkValue(|a|);
    LengthMarkValue(|b|);
    assert LastBlock(a)[SC_BLOCKSIZE - 1] == LengthMark(|a|) && LastBlock(b)[SC_BLOCKSIZE - 1] == LengthMark(|b|);
    assert LastBlock(a)[..|a|] == a && LastBlock(b)[..|b|] == b;
  }

  /** Long messages that share their whole 96-byte blocks and differ in what follows,
      in length or in content, end in distinct states. */
  lemma LongTailsDistinct(blocks: seq<Byte>, a: seq<Byte>, b: seq<Byte>, s1: bv64, s2: bv64)
    requires |blocks| % SC_BLOCKSIZE == 0 && |a| < SC_BLOCKSIZE && |b| < SC_BLOCKSIZE && a != b
    ensures LongState(blocks + a, s1, s2) != LongState(blocks + b, s1, s2)
  {
    hide MixBlocks, ReadBlock, LastBlock, End, InThrees;
    var k := |blocks|;
    assert (blocks + a)[..k] == blocks == (blocks + b)[..k];
    assert (blocks + a)[k..] == a && (blocks + b)[k..] == b;
    var h := MixBlocks(blocks, LongInit(s1, s2));
    var d1, d2 := ReadBlock(LastBlock(a)), ReadBlock(LastBlock(b));
    if End(d1, h) == End(d2, h) {
      EndInjectiveInData(d1, d2, h);
      ReadBlockInjective(LastBlock(a), LastBlock(b));
      LastBlockInjective(a, b);
    }
  }
}
