/** The four mixing routines of SpookyHash V2 as mixing programs, statement for
    statement and line for line. */
module SpookyMixing {
  import opened Words
  import opened Mixer

  // spooky_mix; the inner sequences are rows, two source lines each
  const MIX: seq<seq<Op>> := [
    [AddData(0, 0), XorReg(2, 10), XorReg(11, 0), Rotate(0, 11), AddReg(11, 1)],
    [AddData(1, 1), XorReg(3, 11), XorReg(0, 1), Rotate(1, 32), AddReg(0, 2)],
    [AddData(2, 2), XorReg(4, 0), XorReg(1, 2), Rotate(2, 43), AddReg(1, 3)],
    [AddData(3, 3), XorReg(5, 1), XorReg(2, 3), Rotate(3, 31), AddReg(2, 4)],
    [AddData(4, 4), XorReg(6, 2), XorReg(3, 4), Rotate(4, 17), AddReg(3, 5)],
    [AddData(5, 5), XorReg(7, 3), XorReg(4, 5), Rotate(5, 28), AddReg(4, 6)],
    [AddData(6, 6), XorReg(8, 4), XorReg(5, 6), Rotate(6, 39), AddReg(5, 7)],
    [AddData(7, 7), XorReg(9, 5), XorReg(6, 7), Rotate(7, 57), AddReg(6, 8)],
    [AddData(8, 8), XorReg(10, 6), XorReg(7, 8), Rotate(8, 55), AddReg(7, 9)],
    [AddData(9, 9), XorReg(11, 7), XorReg(8, 9), Rotate(9, 54), AddReg(8, 10)],
    [AddData(10, 10), XorReg(0, 8), XorReg(9, 10), Rotate(10, 22), AddReg(9, 11)],
    [AddData(11, 11), XorReg(1, 9), XorReg(10, 11), Rotate(11, 46), AddReg(10, 0)]
  ]

  // spooky_end_partial
  const END_PARTIAL: seq<seq<Op>> := [
    [AddReg(11, 1), XorReg(2, 11), Rotate(1, 44)],
    [AddReg(0, 2), XorReg(3, 0), Rotate(2, 15)],
    [AddReg(1, 3), XorReg(4, 1), Rotate(3, 34)],
    [AddReg(2, 4), XorReg(5, 2), Rotate(4, 21)],
    [AddReg(3, 5), XorReg(6, 3), Rotate(5, 38)],
    [AddReg(4, 6), XorReg(7, 4), Rotate(6, 33)],
    [AddReg(5, 7), XorReg(8, 5), Rotate(7, 10)],
    [AddReg(6, 8), XorReg(9, 6), Rotate(8, 13)],
    [AddReg(7, 9), XorReg(10, 7), Rotate(9, 38)],
    [AddReg(8, 10), XorReg(11, 8), Rotate(10, 53)],
    [AddReg(9, 11), XorReg(0, 9), Rotate(11, 42)],
    [AddReg(10, 0), XorReg(1, 10), Rotate(0, 54)]
  ]

  // the twelve additions at the head of spooky_end
  const ABSORB: seq<Op> :=
    [AddData(0, 0), AddData(1, 1), AddData(2, 2), AddData(3, 3), AddData(4, 4), AddData(5, 5),
     AddData(6, 6), AddData(7, 7), AddData(8, 8), AddData(9, 9), AddData(10, 10), AddData(11, 11)]

  // spooky_short_mix
  const SHORT_MIX: seq<seq<Op>> := [
    [Rotate(2, 50), AddReg(2, 3), XorReg(0, 2)],
    [Rotate(3, 52), AddReg(3, 0), XorReg(1, 3)],
    [Rotate(0, 30), AddReg(0, 1), XorReg(2, 0)],
    [Rotate(1, 41), AddReg(1, 2), XorReg(3, 1)],
    [Rotate(2, 54), AddReg(2, 3), XorReg(0, 2)],
    [Rotate(3, 48), AddReg(3, 0), XorReg(1, 3)],
    [Rotate(0, 38), AddReg(0, 1), XorReg(2, 0)],
    [Rotate(1, 37), AddReg(1, 2), XorReg(3, 1)],
    [Rotate(2, 62), AddReg(2, 3), XorReg(0, 2)],
    [Rotate(3, 34), AddReg(3, 0), XorReg(1, 3)],
    [Rotate(0, 5), AddReg(0, 1), XorReg(2, 0)],
    [Rotate(1, 36), AddReg(1, 2), XorReg(3, 1)]
  ]

  // spooky_short_end
  const SHORT_END: seq<seq<Op>> := [
    [XorReg(3, 2), Rotate(2, 15), AddReg(3, 2)],
    [XorReg(0, 3), Rotate(3, 52), AddReg(0, 3)],
    [XorReg(1, 0), Rotate(0, 26), AddReg(1, 0)],
    [XorReg(2, 1), Rotate(1, 51), AddReg(2, 1)],
    [XorReg(3, 2), Rotate(2, 28), AddReg(3, 2)],
    [XorReg(0, 3), Rotate(3, 9), AddReg(0, 3)],
    [XorReg(1, 0), Rotate(0, 47), AddReg(1, 0)],
    [XorReg(2, 1), Rotate(1, 54), AddReg(2, 1)],
    [XorReg(3, 2), Rotate(2, 32), AddReg(3, 2)],
    [XorReg(0, 3), Rotate(3, 25), AddReg(0, 3)],
    [XorReg(1, 0), Rotate(0, 63), AddReg(1, 0)]
  ]

  lemma RowsFit()
    ensures forall r :: 0 <= r < |MIX| ==> Fits(MIX[r], 12, 12)
    ensures forall r :: 0 <= r < |END_PARTIAL| ==> Fits(END_PARTIAL[r], 12, 12)
    ensures forall r :: 0 <= r < |SHORT_MIX| ==> Fits(SHORT_MIX[r], 4, 0)
    ensures forall r :: 0 <= r < |SHORT_END| ==> Fits(SHORT_END[r], 4, 0)
  {
  }

  // The rotation counts of the rows, in order.
  const MIX_COUNTS := [11, 32, 43, 31, 17, 28, 39, 57, 55, 54, 22, 46]
  const END_COUNTS := [44, 15, 34, 21, 38, 33, 10, 13, 38, 53, 42, 54]
  const SHORT_MIX_COUNTS := [50, 52, 30, 41, 54, 48, 38, 37, 62, 34, 5, 36]
  const SHORT_END_COUNTS := [15, 52, 26, 51, 28, 9, 47, 54, 32, 25, 63]

  lemma MixRowsTurn(r: nat)
    requires r < |MIX|
    ensures MIX[r] ==
            [AddData(r, r), XorReg((r + 2) % 12, (r + 10) % 12), XorReg((r + 11) % 12, r), Rotate(r, MIX_COUNTS[r]),
             AddReg((r + 11) % 12, (r + 1) % 12)]
  {
  }

  lemma EndPartialRowsTurn(r: nat)
    requires r < |END_PARTIAL|
    ensures END_PARTIAL[r] ==
            [AddReg((r + 11) % 12, (r + 1) % 12), XorReg((r + 2) % 12, (r + 11) % 12),
             Rotate((r + 1) % 12, END_COUNTS[r])]
  {
  }

  lemma ShortMixRowsTurn(r: nat)
    requires r < |SHORT_MIX|
    ensures SHORT_MIX[r] ==
            [Rotate((r + 2) % 4, SHORT_MIX_COUNTS[r]), AddReg((r + 2) % 4, (r + 3) % 4), XorReg(r % 4, (r + 2) % 4)]
  {
  }

  lemma ShortEndRowsTurn(r: nat)
    requires r < |SHORT_END|
    ensures SHORT_END[r] ==
            [XorReg((r + 3) % 4, (r + 2) % 4), Rotate((r + 2) % 4, SHORT_END_COUNTS[r]),
             AddReg((r + 3) % 4, (r + 2) % 4)]
  {
  }

  lemma ProgramsFit()
    ensures Fits(Flatten(MIX), 12, 12)
    ensures Fits(Flatten(END_PARTIAL), 12, 12)
    ensures Fits(ABSORB, 12, 12)
    ensures Fits(Flatten(SHORT_MIX), 4, 0)
    ensures Fits(Flatten(SHORT_END), 4, 0)
  {
    hide Flatten;
    RowsFit();
    FlattenFits(MIX, 12, 12);
    FlattenFits(END_PARTIAL, 12, 12);
    FlattenFits(SHORT_MIX, 4, 0);
    FlattenFits(SHORT_END, 4, 0);
  }

  // The routines as functions of the registers, with what undoes them.

  function Mix(data: seq<bv64>, h: seq<bv64>): (r: seq<bv64>)
    requires |data| == |h| == 12
    ensures |r| == 12
  {
    ProgramsFit();
    Run(Flatten(MIX), data, h)
  }

  /** spooky_end: absorb a block, then three partial ends. */
  function End(data: seq<bv64>, h: seq<bv64>): (r: seq<bv64>)
    requires |data| == |h| == 12
    ensures |r| == 12
  {
    ProgramsFit();
    var p := Flatten(END_PARTIAL);
    Run(p, data, Run(p, data, Run(p, data, Run(ABSORB, data, h))))
  }

  function ShortMix(h: seq<bv64>): (r: seq<bv64>)
    requires |h| == 4
    ensures |r| == 4
  {
    ProgramsFit();
    Run(Flatten(SHORT_MIX), [], h)
  }

  function ShortEnd(h: seq<bv64>): (r: seq<bv64>)
    requires |h| == 4
    ensures |r| == 4
  {
    ProgramsFit();
    Run(Flatten(SHORT_END), [], h)
  }

  lemma MixInjective(data: seq<bv64>, h1: seq<bv64>, h2: seq<bv64>)
    requires |data| == |h1| == |h2| == 12
    ensures Mix(data, h1) == Mix(data, h2) ==> h1 == h2
  {
    hide Fits, Flatten, Run;
    if Mix(data, h1) == Mix(data, h2) {
      ProgramsFit();
      RunInjective(Flatten(MIX), data, h1, h2);
    }
  }

  lemma EndInjective(data: seq<bv64>, h1: seq<bv64>, h2: seq<bv64>)
    requires |data| == |h1| == |h2| == 12
    ensures End(data, h1) == End(data, h2) ==> h1 == h2
  {
    hide Fits, Flatten, Run;
    if End(data, h1) == End(data, h2) {
      ProgramsFit();
      var p := Flatten(END_PARTIAL);
      var a1, a2 := Run(ABSORB, data, h1), Run(ABSORB, data, h2);
      RunInjective(p, data, Run(p, data, Run(p, data, a1)), Run(p, data, Run(p, data, a2)));
      RunInjective(p, data, Run(p, data, a1), Run(p, data, a2));
      RunInjective(p, data, a1, a2);
      RunInjective(ABSORB, data, h1, h2);
    }
  }

  lemma ShortMixInjective(h1: seq<bv64>, h2: seq<bv64>)
    requires |h1| == |h2| == 4
    ensures ShortMix(h1) == ShortMix(h2) ==> h1 == h2
  {
    hide Fits, Flatten, Run;
    if ShortMix(h1) == ShortMix(h2) {
      ProgramsFit();
      RunInjective(Flatten(SHORT_MIX), [], h1, h2);
    }
  }

  lemma ShortEndInjective(h1: seq<bv64>, h2: seq<bv64>)
    requires |h1| == |h2| == 4
    ensures ShortEnd(h1) == ShortEnd(h2) ==> h1 == h2
  {
    hide Fits, Flatten, Run;
    if ShortEnd(h1) == ShortEnd(h2) {
      ProgramsFit();
      RunInjective(Flatten(SHORT_END), [], h1, h2);
    }
  }
}
