/** SpookyHash of one short message, computed row by row. */
module SpookyVector {
  import opened Words
  import opened Mixer
  import opened SpookyMixing
  import opened Spooky
  import SpookyMessages
  import SpookyProgram

  // "hello world"
  const HELLO: seq<Byte> := [0x68, 0x65, 0x6c, 0x6c, 0x6f, 0x20, 0x77, 0x6f, 0x72, 0x6c, 0x64]

  // the four words before spooky_short_end and after each of its rows
  const TRACE: seq<seq<bv64>> := [
    [0x1, 0x2, 0x4e24df5f4b1a2457, 0xe9adbeefdf122b61],
    [0x1, 0x2, 0x6fafa58d122ba712, 0x1739073da633b648],
    [0x7bba7ace1a0e1984, 0x2, 0x6fafa58d122ba712, 0x6481739073da633b],
    [0x3868386611eee9eb, 0xb422b3342bfd0371, 0x6fafa58d122ba712, 0x6481739073da633b],
    [0x3868386611eee9eb, 0x1b8da11599a15fe8, 0xf71ab7ced378044b, 0x6481739073da633b],
    [0x3868386611eee9eb, 0x1b8da11599a15fe8, 0xed378044bf71ab7c, 0x80d344a3601412ec],
    [0x5f44c3859a20d408, 0x1b8da11599a15fe8, 0xed378044bf71ab7c, 0xa68946c02825d901],
    [0x6a042fa261c2cd10, 0xaecd9232654458f0, 0xed378044bf71ab7c, 0xa68946c02825d901],
    [0x6a042fa261c2cd10, 0x3c2bb3648c995116, 0x8025c5db66cf44a2, 0xa68946c02825d901],
    [0x6a042fa261c2cd10, 0x3c2bb3648c995116, 0x66cf44a28025c5db, 0x8d7bc7bdcf10637e],
    [0x631e08e6abeda5fd, 0x3c2bb3648c995116, 0x66cf44a28025c5db, 0x7b9e20c6fd1af78f],
    [0xb18f047355f6d2fe, 0x10c4bff57d6bc7e9, 0x66cf44a28025c5db, 0x7b9e20c6fd1af78f]
  ]

  lemma ThreeSteps(p: seq<Op>, h: seq<bv64>)
    requires |p| == 3 && Fits(p, |h|, 0)
    ensures Run(p, [], h) == Step(p[2], [], Step(p[1], [], Step(p[0], [], h)))
  {
    var g := Step(p[0], [], h);
    assert p[1..][1..] == p[2..] && p[2..][1..] == [];
    assert Run(p[2..], [], Step(p[1], [], g)) == Step(p[2], [], Step(p[1], [], g));
    assert Run(p[1..], [], g) == Run(p[2..], [], Step(p[1], [], g));
  }

  ghost predicate Row(r: nat)
    requires r < 11
  {
    Fits(SHORT_END[r], 4, 0) && |TRACE[r]| == 4 && Run(SHORT_END[r], [], TRACE[r]) == TRACE[r + 1]
  }

  lemma Rows0()
    ensures Row(0) && Row(1)
  {
    hide Run, Fits;
    RowsFit();
    ThreeSteps(SHORT_END[0], TRACE[0]);
    ThreeSteps(SHORT_END[1], TRACE[1]);
  }

  lemma Rows2()
    ensures Row(2) && Row(3)
  {
    hide Run, Fits;
    RowsFit();
    ThreeSteps(SHORT_END[2], TRACE[2]);
    ThreeSteps(SHORT_END[3], TRACE[3]);
  }

  lemma Rows4()
    ensures Row(4) && Row(5)
  {
    hide Run, Fits;
    RowsFit();
    ThreeSteps(SHORT_END[4], TRACE[4]);
    ThreeSteps(SHORT_END[5], TRACE[5]);
  }

  lemma Rows6()
    ensures Row(6) && Row(7)
  {
    hide Run, Fits;
    RowsFit();
    ThreeSteps(SHORT_END[6], TRACE[6]);
    ThreeSteps(SHORT_END[7], TRACE[7]);
  }

  lemma Rows8()
    ensures Row(8) && Row(9)
  {
    hide Run, Fits;
    RowsFit();
    ThreeSteps(SHORT_END[8], TRACE[8]);
    ThreeSteps(SHORT_END[9], TRACE[9]);
  }

  lemma Rows10()
    ensures Row(10)
  {
    hide Run, Fits;
    RowsFit();
    ThreeSteps(SHORT_END[10], TRACE[10]);
  }

  lemma {:induction false} RunRows(rows: seq<seq<Op>>, t: seq<seq<bv64>>)
    requires |t| == |rows| + 1 && forall r :: 0 <= r <= |rows| ==> |t[r]| == 4
    requires forall r :: 0 <= r < |rows| ==> Fits(rows[r], 4, 0) && Run(rows[r], [], t[r]) == t[r + 1]
    ensures Fits(Flatten(rows), 4, 0) && Run(Flatten(rows), [], t[0]) == t[|rows|]
  {
    hide Fits, Run;
    FlattenFits(rows, 4, 0);
    if rows == [] {
      NothingRuns(t[0]);
    } else {
      RunRows(rows[1..], t[1..]);
      SpookyProgram.RunConcat(rows[0], Flatten(rows[1..]), [], t[0]);
    }
  }

  lemma NothingRuns(h: seq<bv64>)
    ensures Fits(Flatten([]), |h|, 0) && Run(Flatten([]), [], h) == h
  {
  }

  lemma EndOfHello()
    ensures ShortEnd(TRACE[0]) == TRACE[11]
  {
    hide Run, Fits, Flatten;
    Rows0();
    Rows2();
    Rows4();
    Rows6();
    Rows8();
    Rows10();
    RunRows(SHORT_END, TRACE);
  }

  lemma TailOfHello()
    ensures TailWords(HELLO) == (0x6f77206f6c6c6568, 0x646c72) && LengthByte(11) == 0xb00000000000000
  {
    SpookyMessages.PlacedSumIsWord(HELLO[8..]);
    hide PlacedSum;
    assert ReadLe64(HELLO[..8]) == 0x6f77206f6c6c6568 && ReadLe64(Padded(HELLO[8..], 8)) == 0x646c72;
  }

  lemma SumsOfHello()
    ensures Add64(SC_CONST, 0xb00000000000000) == 0xe9adbeefdeadbeef
    ensures Add64(0xe9adbeefdeadbeef, 0x646c72) == 0xe9adbeefdf122b61
    ensures Add64(SC_CONST, 0x6f77206f6c6c6568) == 0x4e24df5f4b1a2457
  {
    assert Add64(0xDEADBEEFDEADBEEF, 0xb00000000000000) == 0xe9adbeefdeadbeef;
    assert Add64(0xDEADBEEFDEADBEEF, 0x6f77206f6c6c6568) == 0x4e24df5f4b1a2457;
  }

  lemma TraceStart()
    ensures ShortTail(HELLO, 11, ShortInit(1, 2)) == TRACE[0]
  {
    hide Add64, TailWords, LengthByte;
    TailOfHello();
    SumsOfHello();
  }

  /** The hash of "hello world" with seeds 1 and 2. */
  lemma KnownAnswer()
    ensures Hash(HELLO, 1, 2) == Hash128(0xb18f047355f6d2fe, 0x10c4bff57d6bc7e9)
  {
    hide ShortState, ShortTail, ShortEnd, ShortInit;
    assert [] + HELLO == HELLO;
    SpookyMessages.ShortStateSplit([], HELLO, 1, 2);
    assert ShortBody([], ShortInit(1, 2)) == ShortInit(1, 2);
    TraceStart();
    EndOfHello();
  }
}
