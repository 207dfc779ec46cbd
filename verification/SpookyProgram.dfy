/** The whole hash of a message as one straight-line mixing program over the words of the
    message: no blocks, no recursion over bytes, every word added at one place. */
module SpookyProgram {
  import opened Words
  import opened Mixer
  import opened SpookyMixing
  import opened Spooky
  import SpookyMessages

  // ---------------------------------------------------------------- programs put together

  lemma {:induction false} RunConcat(p: seq<Op>, q: seq<Op>, d: seq<bv64>, h: seq<bv64>)
    requires Fits(p, |h|, |d|) && Fits(q, |h|, |d|)
    ensures Fits(p + q, |h|, |d|) && Run(p + q, d, h) == Run(q, d, Run(p, d, h))
  {
    hide Step, OpFits;
    if p == [] {
      assert p + q == q;
    } else {
      assert (p + q)[1..] == p[1..] + q;
      RunConcat(p[1..], q, d, Step(p[0], d, h));
    }
  }

  /** A program that uses no data runs alike on all data. */
  lemma {:induction false} RunWithoutData(p: seq<Op>, d: seq<bv64>, h: seq<bv64>)
    requires Fits(p, |h|, 0)
    ensures Fits(p, |h|, |d|) && Run(p, d, h) == Run(p, [], h)
  {
    hide Apply;
    if p != [] {
      assert Step(p[0], d, h) == Step(p[0], [], h);
      RunWithoutData(p[1..], d, Step(p[0], d, h));
    }
  }

  /** The same program on the data words from k on. */
  function Shift(p: seq<Op>, k: nat): (r: seq<Op>)
    ensures |r| == |p|
  {
    seq(|p|, j requires 0 <= j < |p| => if p[j].AddData? then AddData(p[j].dst, p[j].i + k) else p[j])
  }

  lemma ShiftStep(op: Op, k: nat, n: nat, d: seq<bv64>, h: seq<bv64>)
    requires k + n <= |d| && OpFits(op, |h|, n)
    ensures var shifted := if op.AddData? then AddData(op.dst, op.i + k) else op;
            OpFits(shifted, |h|, |d|) && Step(shifted, d, h) == Step(op, d[k..k + n], h)
  {
    hide Add64, Xor64, Rotl64;
  }

  lemma {:induction false} ShiftRuns(p: seq<Op>, k: nat, n: nat, d: seq<bv64>, h: seq<bv64>)
    requires k + n <= |d| && Fits(p, |h|, n)
    ensures Fits(Shift(p, k), |h|, |d|) && Run(Shift(p, k), d, h) == Run(p, d[k..k + n], h)
  {
    hide Step;
    if p != [] {
      var q := Shift(p, k);
      ShiftStep(p[0], k, n, d, h);
      assert q[1..] == Shift(p[1..], k);
      ShiftRuns(p[1..], k, n, d, Step(p[0], d[k..k + n], h));
      forall j | 0 <= j < |q| ensures OpFits(q[j], |h|, |d|) {
        assert j > 0 ==> q[j] == q[1..][j - 1];
      }
    }
  }

  /** The n little-endian words at the head of s. */
  function WordsOf(s: seq<Byte>, n: nat): (w: seq<bv64>)
    requires 8 * n <= |s|
    ensures |w| == n
  {
    seq(n, i requires 0 <= i < n => ReadLe64(s[8 * i..8 * i + 8]))
  }

  // ---------------------------------------------------------------- long messages

  /** spooky_mix on n blocks of twelve words each. */
  function MixProgram(n: nat): seq<Op> {
    if n == 0 then [] else MixProgram(n - 1) + Shift(Flatten(MIX), 12 * (n - 1))
  }

  /** n blocks, the addition of the last one, and three partial ends. */
  function LongProgram(n: nat): seq<Op> {
    MixProgram(n) + Shift(ABSORB, 12 * n) + Flatten(END_PARTIAL) + Flatten(END_PARTIAL) + Flatten(END_PARTIAL)
  }

  /** The words from k on are those of block b. */
  predicate BlockAt(d: seq<bv64>, k: nat, b: seq<Byte>)
    requires |b| == SC_BLOCKSIZE
  {
    k + 12 <= |d| && d[k..k + 12] == ReadBlock(b)
  }

  lemma {:induction false} MixProgramRuns(n: nat, m: seq<Byte>, d: seq<bv64>, h: seq<bv64>)
    requires 96 * n <= |m| && |h| == 12
    requires forall j :: 0 <= j < n ==> BlockAt(d, 12 * j, m[96 * j..96 * j + 96])
    ensures Fits(MixProgram(n), 12, |d|) && Run(MixProgram(n), d, h) == MixBlocks(m[..96 * n], h)
  {
    hide Run, Fits, Flatten, ReadBlock;
    if n == 0 {
      NothingMixed(m[..0], d, h);
    } else {
      var k := n - 1;
      MixProgramRuns(k, m, d, h);
      assert BlockAt(d, 12 * k, m[96 * k..96 * k + 96]);
      ProgramsFit();
      ShiftRuns(Flatten(MIX), 12 * k, 12, d, MixBlocks(m[..96 * k], h));
      RunConcat(MixProgram(k), Shift(Flatten(MIX), 12 * k), d, h);
      MixBlocksNext(m, 96 * k, h);
    }
  }

  lemma NothingMixed(m: seq<Byte>, d: seq<bv64>, h: seq<bv64>)
    requires m == [] && |h| == 12
    ensures Fits(MixProgram(0), 12, |d|) && Run(MixProgram(0), d, h) == MixBlocks(m, h)
  {
  }

  lemma WordsOfBlock(s: seq<Byte>, n: nat, j: nat)
    requires 8 * n <= |s| && 12 * j + 12 <= n
    ensures BlockAt(WordsOf(s, n), 12 * j, s[96 * j..96 * j + 96])
  {
    hide ReadLe64;
    var b := s[96 * j..96 * j + 96];
    forall i | 0 <= i < 12 ensures WordsOf(s, n)[12 * j..12 * j + 12][i] == ReadBlock(b)[i] {
      SliceOfSlice(s, 96 * j, 96 * j + 96, 8 * i, 8 * i + 8);
    }
  }

  /** A long message with its last block padded. */
  function Completed(m: seq<Byte>): (s: seq<Byte>)
    ensures |s| == |m| / 96 * 96 + 96
  {
    m[..|m| / 96 * 96] + LastBlock(m[|m| / 96 * 96..])
  }

  /** The message, zeros up to a whole block, and the number of bytes in that block last. */
  lemma CompletedBytes(m: seq<Byte>, i: nat)
    requires i < |Completed(m)|
    ensures Completed(m)[i] ==
            if i < |m| then m[i] else if i == |Completed(m)| - 1 then (|m| % 96) as Byte else 0
  {
    var k := |m| / 96 * 96;
    assert |m| - k == |m| % 96;
    assert i >= k ==> Completed(m)[i] == LastBlock(m[k..])[i - k];
  }

  /** All its words. */
  function LongWords(m: seq<Byte>): (w: seq<bv64>)
    ensures |w| == 12 * (|m| / 96) + 12
  {
    WordsOf(Completed(m), 12 * (|m| / 96) + 12)
  }

  /** The state of a long message is reached by one program from the seeds and the constant,
      four times each in turn. */
  lemma LongIsProgram(m: seq<Byte>, s1: bv64, s2: bv64)
    ensures var p, c := LongProgram(|m| / 96), SC_CONST;
            Fits(p, 12, |LongWords(m)|) &&
            LongState(m, s1, s2) == Run(p, LongWords(m), [s1, s2, c, s1, s2, c, s1, s2, c, s1, s2, c])
  {
    hide Run, Fits, Flatten, MixBlocks, LastBlock, MixProgram, End, ReadBlock;
    var n := |m| / 96;
    var last, s, h := LastBlock(m[96 * n..]), Completed(m), LongInit(s1, s2);
    var d := LongWords(m);
    assert h == [s1, s2, SC_CONST, s1, s2, SC_CONST, s1, s2, SC_CONST, s1, s2, SC_CONST];
    hide LongInit, WordsOf;
    forall j | 0 <= j < n ensures BlockAt(d, 12 * j, s[96 * j..96 * j + 96]) {
      WordsOfBlock(s, 12 * n + 12, j);
    }
    WordsOfBlock(s, 12 * n + 12, n);
    assert s[96 * n..96 * n + 96] == last && s[..96 * n] == m[..96 * n];
    MixProgramRuns(n, s, d, h);
    EndRuns(n, d, MixBlocks(m[..96 * n], h));
    JoinRuns(MixProgram(n), n, d, h);
  }

  lemma EndRuns(n: nat, d: seq<bv64>, g: seq<bv64>)
    requires |d| == 12 * n + 12 && |g| == 12
    ensures Fits(Shift(ABSORB, 12 * n), 12, |d|) && Fits(Flatten(END_PARTIAL), 12, |d|)
    ensures var p := Flatten(END_PARTIAL);
            Run(p, d, Run(p, d, Run(p, d, Run(Shift(ABSORB, 12 * n), d, g)))) == End(d[12 * n..12 * n + 12], g)
  {
    hide Run, Fits, Flatten;
    ProgramsFit();
    PartialFits();
    var p, e := Flatten(END_PARTIAL), d[12 * n..12 * n + 12];
    ShiftRuns(ABSORB, 12 * n, 12, d, g);
    var a := Run(ABSORB, e, g);
    RunWithoutData(p, d, a);
    RunWithoutData(p, e, a);
    var b := Run(p, e, a);
    RunWithoutData(p, d, b);
    RunWithoutData(p, e, b);
    var c := Run(p, e, b);
    RunWithoutData(p, d, c);
    RunWithoutData(p, e, c);
  }

  lemma PartialFits()
    ensures Fits(Flatten(END_PARTIAL), 12, 0)
  {
    hide Flatten;
    FlattenFits(END_PARTIAL, 12, 0);
  }

  lemma JoinRuns(q: seq<Op>, n: nat, d: seq<bv64>, h: seq<bv64>)
    requires |d| == 12 * n + 12 && |h| == 12 && Fits(q, 12, |d|)
    requires Fits(Shift(ABSORB, 12 * n), 12, |d|) && Fits(Flatten(END_PARTIAL), 12, |d|)
    ensures var p := Flatten(END_PARTIAL);
            Fits(q + Shift(ABSORB, 12 * n) + p + p + p, 12, |d|) &&
            Run(q + Shift(ABSORB, 12 * n) + p + p + p, d, h) ==
            Run(p, d, Run(p, d, Run(p, d, Run(Shift(ABSORB, 12 * n), d, Run(q, d, h)))))
  {
    hide Run, Fits, Flatten, Shift;
    var a, p := Shift(ABSORB, 12 * n), Flatten(END_PARTIAL);
    RunConcat(q, a, d, h);
    RunConcat(q + a, p, d, h);
    RunConcat(q + a + p, p, d, h);
    RunConcat(q + a + p + p, p, d, h);
  }

  // ---------------------------------------------------------------- short messages

  /** Half j of a message: the first half of a 32-byte group goes to h[2] and h[3] and is
      mixed, the second one goes to h[0] and h[1]. */
  function HalfProgram(j: nat): seq<Op> {
    if j % 2 == 0 then [AddData(2, 2 * j), AddData(3, 2 * j + 1)] + Flatten(SHORT_MIX)
    else [AddData(0, 2 * j), AddData(1, 2 * j + 1)]
  }

  function BodyProgram(n: nat): seq<Op> {
    if n == 0 then [] else BodyProgram(n - 1) + HalfProgram(n - 1)
  }

  /** n halves, then the length and the two words of the tail, and the short end. */
  function ShortProgram(n: nat): seq<Op> {
    BodyProgram(n) + [AddData(3, 2 * n + 2), AddData(2, 2 * n), AddData(3, 2 * n + 1)] + Flatten(SHORT_END)
  }

  /** The words of the whole halves, the two of the tail, and the length in the top byte. */
  function ShortWords(m: seq<Byte>): (w: seq<bv64>)
    requires |m| < 0x1_0000_0000_0000_0000
    ensures |w| == 2 * (|m| / 16) + 3
  {
    var tail := TailWords(m[|m| / 16 * 16..]);
    WordsOf(m, 2 * (|m| / 16)) + [tail.0, tail.1, LengthByte(|m|)]
  }

  lemma TwoAdds(d: seq<bv64>, h: seq<bv64>, a: nat, b: nat, i: nat, j: nat)
    requires a < |h| && b < |h| && i < |d| && j < |d|
    ensures Fits([AddData(a, i), AddData(b, j)], |h|, |d|)
    ensures Run([AddData(a, i), AddData(b, j)], d, h) == AddTo(AddTo(h, a, d[i]), b, d[j])
  {
    hide Add64;
    var p := [AddData(a, i), AddData(b, j)];
    assert p[1..] == [AddData(b, j)] && p[1..][1..] == [];
    assert Run(p[1..], d, Step(p[0], d, h)) == Step(p[1], d, Step(p[0], d, h));
  }

  lemma ShortMixFits()
    ensures Fits(Flatten(SHORT_MIX), 4, 0) && Fits(Flatten(SHORT_END), 4, 0)
  {
    hide Flatten, Fits;
    ProgramsFit();
  }

  /** What a half does to the registers. */
  function HalfStep(j: nat, v: bv64, w: bv64, h: seq<bv64>): (r: seq<bv64>)
    requires |h| == 4
    ensures |r| == 4
  {
    if j % 2 == 0 then ShortMix(AddTo(AddTo(h, 2, v), 3, w)) else AddTo(AddTo(h, 0, v), 1, w)
  }

  lemma MixedHalfRuns(i: nat, d: seq<bv64>, h: seq<bv64>)
    requires i + 1 < |d| && |h| == 4
    ensures var p := [AddData(2, i), AddData(3, i + 1)] + Flatten(SHORT_MIX);
            Fits(p, 4, |d|) && Run(p, d, h) == ShortMix(AddTo(AddTo(h, 2, d[i]), 3, d[i + 1]))
  {
    hide Run, Fits, Flatten, AddTo;
    var g := AddTo(AddTo(h, 2, d[i]), 3, d[i + 1]);
    TwoAdds(d, h, 2, 3, i, i + 1);
    ShortMixFits();
    RunWithoutData(Flatten(SHORT_MIX), d, g);
    RunConcat([AddData(2, i), AddData(3, i + 1)], Flatten(SHORT_MIX), d, h);
  }

  lemma HalfRuns(j: nat, d: seq<bv64>, h: seq<bv64>)
    requires 2 * j + 1 < |d| && |h| == 4
    ensures Fits(HalfProgram(j), 4, |d|) && Run(HalfProgram(j), d, h) == HalfStep(j, d[2 * j], d[2 * j + 1], h)
  {
    hide Run, Fits, Flatten, AddTo, ShortMix;
    if j % 2 == 0 {
      MixedHalfRuns(2 * j, d, h);
    } else {
      TwoAdds(d, h, 0, 1, 2 * j, 2 * j + 1);
    }
  }

  /** One half more of a body. */
  lemma BodyNext(m: seq<Byte>, j: nat, h: seq<bv64>)
    requires 16 * j + 16 <= |m| && |h| == 4
    ensures ShortBody(m[..16 * j + 16], h) ==
            HalfStep(j, ReadLe64(m[16 * j..16 * j + 8]), ReadLe64(m[16 * j + 8..16 * j + 16]),
                     ShortBody(m[..16 * j], h))
  {
    hide ShortBody, ShortMix, AddTo, ReadLe64;
    if j % 2 == 0 {
      var from := 16 * j;
      var p := m[..from + 16];
      ShortBodyLast(p, from, h);
      assert p[..from] == m[..from] && p[from..from + 16] == m[from..from + 16];
      HalfSlices(m, from);
    } else {
      var from := 16 * j - 16;
      var p := m[..from + 16];
      ShortBodyLast(p, from, h);
      assert p[..from] == m[..from] && p[from..from + 16] == m[from..from + 16];
      ShortBodyNext(m, from, h);
      GroupSlices(m, from);
    }
  }

  lemma HalfSlices(m: seq<Byte>, from: nat)
    requires from + 16 <= |m|
    ensures m[from..from + 16][..8] == m[from..from + 8] && m[from..from + 16][8..] == m[from + 8..from + 16]
  {
  }

  lemma GroupSlices(m: seq<Byte>, from: nat)
    requires from + 32 <= |m|
    ensures var g := m[from..from + 32];
            g[..16] == m[from..from + 16] && g[16..24] == m[from + 16..from + 24] && g[24..] == m[from + 24..from + 32]
  {
    SliceOfSlice(m, from, from + 32, 0, 16);
    SliceOfSlice(m, from, from + 32, 16, 24);
    SliceOfSlice(m, from, from + 32, 24, 32);
  }

  /** The first words of d are those of m. */
  predicate WordsAt(d: seq<bv64>, m: seq<Byte>, n: nat)
    requires 8 * n <= |m|
  {
    n <= |d| && forall i :: 0 <= i < n ==> d[i] == ReadLe64(m[8 * i..8 * i + 8])
  }

  lemma HalfAt(d: seq<bv64>, m: seq<Byte>, n: nat, j: nat)
    requires 8 * n <= |m| && WordsAt(d, m, n) && 2 * j + 1 < n
    ensures d[2 * j] == ReadLe64(m[16 * j..16 * j + 8]) && d[2 * j + 1] == ReadLe64(m[16 * j + 8..16 * j + 16])
  {
    assert 8 * (2 * j) == 16 * j && 8 * (2 * j + 1) == 16 * j + 8;
  }

  lemma {:induction false} BodyRuns(n: nat, k: nat, m: seq<Byte>, d: seq<bv64>, h: seq<bv64>)
    requires 8 * k <= |m| && 2 * n <= k && |h| == 4 && WordsAt(d, m, k)
    ensures Fits(BodyProgram(n), 4, |d|) && Run(BodyProgram(n), d, h) == ShortBody(m[..16 * n], h)
  {
    hide Run, Fits, HalfProgram, HalfStep, ReadLe64, ShortBody, WordsAt;
    if n == 0 {
      NothingAbsorbed(m[..0], d, h);
    } else {
      var j := n - 1;
      BodyRuns(j, k, m, d, h);
      assert k <= |d| by { EnoughWords(d, m, k); }
      HalfRuns(j, d, ShortBody(m[..16 * j], h));
      RunConcat(BodyProgram(j), HalfProgram(j), d, h);
      BodyNext(m, j, h);
      HalfAt(d, m, k, j);
    }
  }

  lemma EnoughWords(d: seq<bv64>, m: seq<Byte>, n: nat)
    requires 8 * n <= |m| && WordsAt(d, m, n)
    ensures n <= |d|
  {
  }

  lemma NothingAbsorbed(m: seq<Byte>, d: seq<bv64>, h: seq<bv64>)
    requires m == [] && |h| == 4
    ensures Fits(BodyProgram(0), 4, |d|) && Run(BodyProgram(0), d, h) == ShortBody(m, h)
  {
  }

  lemma TailRuns(i: nat, d: seq<bv64>, h: seq<bv64>)
    requires |d| == i + 3 && |h| == 4
    ensures var p := [AddData(3, i + 2), AddData(2, i), AddData(3, i + 1)];
            Fits(p, 4, |d|) && Run(p, d, h) == AddTo(AddTo(AddTo(h, 3, d[i + 2]), 2, d[i]), 3, d[i + 1])
  {
    hide Run, Fits, AddTo;
    OneAdd(d, h, 3, i + 2);
    TwoAdds(d, AddTo(h, 3, d[i + 2]), 2, 3, i, i + 1);
    RunConcat([AddData(3, i + 2)], [AddData(2, i), AddData(3, i + 1)], d, h);
    assert [AddData(3, i + 2), AddData(2, i), AddData(3, i + 1)] ==
           [AddData(3, i + 2)] + [AddData(2, i), AddData(3, i + 1)];
  }

  lemma OneAdd(d: seq<bv64>, h: seq<bv64>, a: nat, i: nat)
    requires a < |h| && i < |d|
    ensures Fits([AddData(a, i)], |h|, |d|) && Run([AddData(a, i)], d, h) == AddTo(h, a, d[i])
  {
    hide Add64;
    assert [AddData(a, i)][1..] == [];
  }

  /** So is the state of a short message. */
  lemma ShortIsProgram(m: seq<Byte>, s1: bv64, s2: bv64)
    requires |m| < 0x1_0000_0000_0000_0000
    ensures var p := ShortProgram(|m| / 16);
            Fits(p, 4, |ShortWords(m)|) &&
            ShortState(m, s1, s2) == Run(p, ShortWords(m), [s1, s2, SC_CONST, SC_CONST])
  {
    hide Run, Fits, Flatten, ShortBody, BodyProgram, AddTo, TailWords, LengthByte, ReadLe64;
    var n := |m| / 16;
    var d, h := ShortWords(m), ShortInit(s1, s2);
    forall i | 0 <= i < 2 * n ensures d[i] == ReadLe64(m[8 * i..8 * i + 8]) {
      assert d[i] == WordsOf(m, 2 * n)[i];
    }
    BodyRuns(n, 2 * n, m, d, h);
    var body := ShortBody(m[..16 * n], h);
    assert body == ShortBody(m, h) by { BodyOfWhole(m, 16 * n, h); }
    TailRuns(2 * n, d, body);
    var tail := [AddData(3, 2 * n + 2), AddData(2, 2 * n), AddData(3, 2 * n + 1)];
    RunConcat(BodyProgram(n), tail, d, h);
    ShortMixFits();
    RunWithoutData(Flatten(SHORT_END), d, Run(tail, d, body));
    RunConcat(BodyProgram(n) + tail, Flatten(SHORT_END), d, h);
  }

  lemma BodyOfWhole(m: seq<Byte>, k: nat, h: seq<bv64>)
    requires k % 16 == 0 && k <= |m| < k + 16 && |h| == 4
    ensures ShortBody(m, h) == ShortBody(m[..k], h)
  {
    hide ShortBody;
    assert m == m[..k] + m[k..];
    SpookyMessages.ShortBodyIgnoresTail(m[..k], m[k..], h);
  }

  /** The program for m, the words it adds, and the registers it starts from: four for a
      message shorter than 192 bytes, twelve otherwise. */
  function ProgramFor(m: seq<Byte>): seq<Op> {
    if |m| < 192 then ShortProgram(|m| / 16) else LongProgram(|m| / 96)
  }

  function DataOf(m: seq<Byte>): seq<bv64>
    requires |m| < 0x1_0000_0000_0000_0000
  {
    if |m| < 192 then ShortWords(m) else LongWords(m)
  }

  function Registers(m: seq<Byte>, s1: bv64, s2: bv64): (h: seq<bv64>)
    ensures |h| >= 4
  {
    var c := SC_CONST;
    if |m| < 192 then [s1, s2, c, c] else [s1, s2, c, s1, s2, c, s1, s2, c, s1, s2, c]
  }

  /** The hash of every message is the first two words one run of its program ends with. */
  lemma HashIsProgram(m: seq<Byte>, s1: bv64, s2: bv64)
    requires |m| < 0x1_0000_0000_0000_0000
    ensures var p, d, h := ProgramFor(m), DataOf(m), Registers(m, s1, s2);
            Fits(p, |h|, |d|) && Hash(m, s1, s2) == Hash128(Run(p, d, h)[0], Run(p, d, h)[1])
  {
    hide Run, Fits, ShortProgram, LongProgram, ShortWords, LongWords, ShortState, LongState;
    ShortIsProgram(m, s1, s2);
    LongIsProgram(m, s1, s2);
  }
}
