/** Per-flow counting inside one bucket, as a sequence of cells searched from the
    front. Key 0 marks a free cell, which is what makes packets whose upper hash half
    is 0 special. */
module FlowCells {

  type u16 = x: int | 0 <= x < 0x1_0000

  /** One flow entry: the upper half of the flow's hash and its packet counter. */
  datatype Cell = Cell(high: u16, ctr: nat)

  /** The search of linked_list: count in the first cell that is free or has the key,
      or in a new cell at the end. */
  function Hit(c: seq<Cell>, h: u16): (r: seq<Cell>) {
    if c == [] then [Cell(h, 1)]
    else if c[0].high == 0 || c[0].high == h then [Cell(h, c[0].ctr + 1)] + c[1..]
    else [c[0]] + Hit(c[1..], h)
  }

  /** Preallocated empty cells. */
  function Empty(size: nat): (c: seq<Cell>)
    ensures |c| == size
  {
    seq(size, i => Cell(0, 0))
  }

  /** The cells after a stream of packets, given by the upper halves of their hashes. */
  function Counted(s: seq<u16>, size: nat): seq<Cell> {
    if s == [] then Empty(size) else Hit(Counted(s[..|s| - 1], size), s[|s| - 1])
  }

  /** The packets counted under key k. */
  function CountOf(c: seq<Cell>, k: u16): nat {
    if c == [] then 0 else (if c[0].high == k then c[0].ctr else 0) + CountOf(c[1..], k)
  }

  function Total(c: seq<Cell>): nat {
    if c == [] then 0 else c[0].ctr + Total(c[1..])
  }

  function Occurrences(s: seq<u16>, k: u16): nat {
    if s == [] then 0 else Occurrences(s[..|s| - 1], k) + if s[|s| - 1] == k then 1 else 0
  }

  lemma OneMore(s: seq<u16>, h: u16, size: nat, k: u16)
    ensures Counted(s + [h], size) == Hit(Counted(s, size), h)
    ensures Occurrences(s + [h], k) == Occurrences(s, k) + if h == k then 1 else 0
  {
    assert (s + [h])[..|s|] == s;
  }

  predicate Has(c: seq<Cell>, h: u16) {
    exists i :: 0 <= i < |c| && c[i].high == h
  }

  /** Keys in use form a prefix without duplicates, every one with packets; behind the
      first free cell there is nothing. */
  predicate WellFormed(c: seq<Cell>) {
    (forall i, j :: 0 <= i < j < |c| && c[i].high == 0 ==> c[j] == Cell(0, 0)) &&
    (forall i, j :: 0 <= i < j < |c| && c[i].high != 0 ==> c[i].high != c[j].high) &&
    (forall i :: 0 <= i < |c| && c[i].high != 0 ==> c[i].ctr > 0)
  }

  // ---------------------------------------------------------------- one packet

  lemma {:induction false} HitAddsNoOtherKey(c: seq<Cell>, h: u16, k: u16)
    requires Has(Hit(c, h), k) && k != 0
    ensures Has(c, k) || k == h
  {
    if c != [] {
      var i :| 0 <= i < |Hit(c, h)| && Hit(c, h)[i].high == k;
      if c[0].high != 0 && c[0].high != h && i > 0 {
        assert Hit(c[1..], h)[i - 1].high == k;
        HitAddsNoOtherKey(c[1..], h, k);
        if k != h {
          var j :| 0 <= j < |c[1..]| && c[1..][j].high == k;
          assert c[j + 1].high == k;
        }
      } else if k != h {
        assert c[i].high == k;
      }
    }
  }

  lemma {:induction false} HitKeepsWellFormed(c: seq<Cell>, h: u16)
    requires WellFormed(c)
    ensures WellFormed(Hit(c, h))
  {
    if c != [] && c[0].high != 0 && c[0].high != h {
      var t := c[1..];
      assert forall i :: 0 <= i < |t| ==> t[i] == c[i + 1];
      HitKeepsWellFormed(t, h);
      var r := Hit(t, h);
      forall j | 0 <= j < |r| ensures r[j].high != c[0].high {
        if r[j].high == c[0].high {
          HitAddsNoOtherKey(t, h, c[0].high);
          assert false;
        }
      }
    }
  }

  lemma {:induction false} FreeCellsCountNothing(c: seq<Cell>, k: u16)
    requires forall i :: 0 <= i < |c| ==> c[i] == Cell(0, 0)
    ensures CountOf(c, k) == 0
  {
    if c != [] {
      FreeCellsCountNothing(c[1..], k);
    }
  }

  lemma {:induction false} AbsentKeyCountsNothing(c: seq<Cell>, k: u16)
    requires !Has(c, k)
    ensures CountOf(c, k) == 0
  {
    if c != [] {
      assert forall i :: 0 <= i < |c[1..]| ==> c[1..][i] == c[i + 1];
      AbsentKeyCountsNothing(c[1..], k);
    }
  }

  /** A packet of a known flow, or with key 0, adds one to its key. A packet of a new
      flow takes over whatever was counted under key 0. */
  lemma {:induction false} HitCounts(c: seq<Cell>, h: u16, k: u16)
    requires WellFormed(c)
    ensures CountOf(Hit(c, h), k) ==
            if h == 0 || Has(c, h) then CountOf(c, k) + (if k == h then 1 else 0)
            else if k == h then CountOf(c, 0) + 1
            else if k == 0 then 0
            else CountOf(c, k)
  {
    if c == [] {
    } else {
      var t := c[1..];
      assert forall i :: 0 <= i < |t| ==> t[i] == c[i + 1];
      assert Hit(c, h)[1..] == if c[0].high == 0 || c[0].high == h then t else Hit(t, h);
      if c[0].high == 0 {
        FreeCellsCountNothing(t, k);
        FreeCellsCountNothing(t, 0);
      } else if c[0].high != h {
        HitCounts(t, h, k);
        assert Has(c, h) <==> Has(t, h);
      }
    }
  }

  lemma {:induction false} HitTotal(c: seq<Cell>, h: u16)
    ensures Total(Hit(c, h)) == Total(c) + 1
  {
    if c != [] {
      assert Hit(c, h)[1..] == if c[0].high == 0 || c[0].high == h then c[1..] else Hit(c[1..], h);
      HitTotal(c[1..], h);
    }
  }

  // ---------------------------------------------------------------- whole streams

  lemma {:induction false} CountedWellFormed(s: seq<u16>, size: nat)
    ensures WellFormed(Counted(s, size))
    ensures forall k: u16 :: k != 0 ==> (Has(Counted(s, size), k) <==> k in s)
  {
    if s != [] {
      var before, h := s[..|s| - 1], s[|s| - 1];
      CountedWellFormed(before, size);
      HitKeepsWellFormed(Counted(before, size), h);
      forall k: u16 | k != 0 && Has(Counted(s, size), k) ensures k in s {
        HitAddsNoOtherKey(Counted(before, size), h, k);
      }
      forall k: u16 | k != 0 && k in s ensures Has(Counted(s, size), k) {
        HitKeepsKeys(Counted(before, size), h, k);
      }
    }
  }

  lemma {:induction false} HitKeepsKeys(c: seq<Cell>, h: u16, k: u16)
    requires k != 0 && (Has(c, k) || k == h)
    ensures Has(Hit(c, h), k)
  {
    if c != [] {
      var t := c[1..];
      assert forall i :: 0 <= i < |t| ==> t[i] == c[i + 1];
      if c[0].high == 0 || c[0].high == h {
        assert Hit(c, h) == [Cell(h, c[0].ctr + 1)] + t;
        if k == h {
          assert Hit(c, h)[0].high == k;
        } else {
          var i :| 0 <= i < |c| && c[i].high == k;
          assert Hit(c, h)[i].high == k;
        }
      } else if c[0].high == k {
        assert Hit(c, h)[0].high == k;
      } else {
        HitKeepsKeys(t, h, k);
        var i :| 0 <= i < |Hit(t, h)| && Hit(t, h)[i].high == k;
        assert Hit(c, h)[i + 1].high == k;
      }
    } else {
      assert Hit(c, h)[0].high == k;
    }
  }

  /** Every packet is counted once, whatever its key. */
  lemma {:induction false} NothingLost(s: seq<u16>, size: nat)
    ensures Total(Counted(s, size)) == |s|
  {
    if s == [] {
      EmptyTotal(size);
    } else {
      NothingLost(s[..|s| - 1], size);
      HitTotal(Counted(s[..|s| - 1], size), s[|s| - 1]);
    }
  }

  lemma {:induction false} EmptyTotal(size: nat)
    ensures Total(Empty(size)) == 0
  {
    if size > 0 {
      assert Empty(size)[1..] == Empty(size - 1);
      EmptyTotal(size - 1);
    }
  }

  /** Some flow with a nonzero key shows up for the first time after a packet with key 0. */
  predicate LateFlow(s: seq<u16>) {
    exists j :: 0 <= j < |s| && s[j] != 0 && s[j] !in s[..j] && 0 in s[..j]
  }

  ghost predicate Exact(s: seq<u16>, size: nat) {
    forall k: u16 :: CountOf(Counted(s, size), k) == Occurrences(s, k)
  }

  /** Some flow has been charged with packets of others. */
  ghost predicate Overcounted(s: seq<u16>, size: nat) {
    exists k: u16 :: k != 0 && CountOf(Counted(s, size), k) > Occurrences(s, k)
  }

  lemma {:induction false} OccurrencesOfAbsent(s: seq<u16>, k: u16)
    ensures Occurrences(s, k) > 0 <==> k in s
  {
    if s != [] {
      OccurrencesOfAbsent(s[..|s| - 1], k);
      assert k in s <==> k in s[..|s| - 1] || k == s[|s| - 1];
    }
  }

  lemma LateFlowNext(s: seq<u16>)
    requires s != []
    ensures var before, h := s[..|s| - 1], s[|s| - 1];
            LateFlow(s) <==> LateFlow(before) || (h != 0 && h !in before && 0 in before)
  {
    var before, h := s[..|s| - 1], s[|s| - 1];
    if LateFlow(s) {
      var j :| 0 <= j < |s| && s[j] != 0 && s[j] !in s[..j] && 0 in s[..j];
      if j < |before| {
        assert before[..j] == s[..j] && before[j] == s[j];
      } else {
        assert s[..j] == before;
      }
    }
    if LateFlow(before) {
      var j :| 0 <= j < |before| && before[j] != 0 && before[j] !in before[..j] && 0 in before[..j];
      assert before[..j] == s[..j] && before[j] == s[j];
    }
    if h != 0 && h !in before && 0 in before {
      assert s[..|before|] == before && s[|before|] == h;
    }
  }

  /** The counters are exact as long as no flow is late, and wrong for good from then on. */
  lemma {:induction false} ExactOrOvercounted(s: seq<u16>, size: nat)
    ensures if LateFlow(s) then Overcounted(s, size) else Exact(s, size)
  {
    if s == [] {
      forall k: u16 ensures CountOf(Empty(size), k) == 0 {
        FreeCellsCountNothing(Empty(size), k);
      }
    } else {
      var before, h := s[..|s| - 1], s[|s| - 1];
      var c := Counted(before, size);
      ExactOrOvercounted(before, size);
      CountedWellFormed(before, size);
      LateFlowNext(s);
      if LateFlow(before) {
        var k: u16 :| k != 0 && CountOf(c, k) > Occurrences(before, k);
        HitCounts(c, h, k);
        if h != 0 && !Has(c, h) && k == h {
          AbsentKeyCountsNothing(c, k);
        }
        assert CountOf(Counted(s, size), k) > Occurrences(s, k);
      } else {
        OccurrencesOfAbsent(before, 0);
        OccurrencesOfAbsent(before, h);
        if LateFlow(s) {
          HitCounts(c, h, h);
          assert CountOf(Counted(s, size), h) > Occurrences(s, h);
        } else {
          forall k: u16 ensures CountOf(Counted(s, size), k) == Occurrences(s, k) {
            HitCounts(c, h, k);
            OccurrencesOfAbsent(before, k);
          }
        }
      }
    }
  }

  /** Exact per-flow counts, precisely when no flow is late. */
  lemma ExactIffNoLateFlow(s: seq<u16>, size: nat)
    ensures Exact(s, size) <==> !LateFlow(s)
  {
    ExactOrOvercounted(s, size);
  }

  // ---------------------------------------------------------------- cells in arrival order

  /** The distinct keys of a stream in the order of their first packets. */
  function Arrivals(s: seq<u16>): seq<u16> {
    if s == [] then [] else
    var before, h := s[..|s| - 1], s[|s| - 1];
    Arrivals(before) + if h in before then [] else [h]
  }

  lemma {:induction false} ArrivalsAreKeys(s: seq<u16>)
    ensures forall k :: k in Arrivals(s) <==> k in s
    ensures forall i, j :: 0 <= i < j < |Arrivals(s)| ==> Arrivals(s)[i] != Arrivals(s)[j]
  {
    if s != [] {
      var before := s[..|s| - 1];
      ArrivalsAreKeys(before);
      assert s == before + [s[|s| - 1]];
    }
  }

  /** Cell i belongs to the i-th flow of f and holds exactly its packets in s; all other
      cells are still empty. */
  predicate InOrder(c: seq<Cell>, f: seq<u16>, s: seq<u16>) {
    |c| >= |f| &&
    (forall i :: 0 <= i < |f| ==> c[i] == Cell(f[i], Occurrences(s, f[i]))) &&
    (forall i :: |f| <= i < |c| ==> c[i] == Cell(0, 0))
  }

  lemma KnownFlow(c: seq<Cell>, f: seq<u16>, s: seq<u16>, h: u16, i: nat)
    requires InOrder(c, f, s) && 0 !in f && i < |f| && f[i] == h
    requires forall i, j :: 0 <= i < j < |f| ==> f[i] != f[j]
    ensures InOrder(Hit(c, h), f, s + [h]) && |Hit(c, h)| == |c|
  {
    HitAt(c, h, i);
    assert (s + [h])[..|s|] == s;
  }

  lemma NewFlow(c: seq<Cell>, f: seq<u16>, s: seq<u16>, h: u16)
    requires InOrder(c, f, s) && 0 !in f && h !in f && Occurrences(s, h) == 0
    ensures InOrder(Hit(c, h), f + [h], s + [h]) && |Hit(c, h)| == if |c| > |f| then |c| else |f| + 1
  {
    assert (s + [h])[..|s|] == s;
    assert forall j :: 0 <= j < |f| ==> f[j] in f;
    if |f| < |c| {
      HitAt(c, h, |f|);
    } else {
      HitPast(c, h);
    }
  }

  /** Without zero keys, the cells list the flows in the order of their arrival. */
  lemma {:induction false} CellsInArrivalOrder(s: seq<u16>, size: nat)
    requires 0 !in s
    ensures InOrder(Counted(s, size), Arrivals(s), s)
    ensures |Counted(s, size)| == if |Arrivals(s)| > size then |Arrivals(s)| else size
  {
    if s != [] {
      var before, h := s[..|s| - 1], s[|s| - 1];
      var c, f := Counted(before, size), Arrivals(before);
      CellsInArrivalOrder(before, size);
      ArrivalsAreKeys(before);
      OccurrencesOfAbsent(before, h);
      assert s == before + [h];
      if h in before {
        var i :| 0 <= i < |f| && f[i] == h;
        KnownFlow(c, f, before, h, i);
      } else {
        NewFlow(c, f, before, h);
      }
    }
  }

  /** The first cell that is free or has the key takes the packet. */
  lemma {:induction false} HitAt(c: seq<Cell>, h: u16, i: nat)
    requires i < |c| && (c[i].high == 0 || c[i].high == h)
    requires forall j :: 0 <= j < i ==> c[j].high != 0 && c[j].high != h
    ensures Hit(c, h) == c[i := Cell(h, c[i].ctr + 1)]
  {
    if i > 0 {
      HitAt(c[1..], h, i - 1);
    }
  }

  lemma {:induction false} HitPast(c: seq<Cell>, h: u16)
    requires forall j :: 0 <= j < |c| ==> c[j].high != 0 && c[j].high != h
    ensures Hit(c, h) == c + [Cell(h, 1)]
  {
    if c != [] {
      HitPast(c[1..], h);
    }
  }

  // ---------------------------------------------------------------- counting flows

  /** The early-stop count of a bucket: cells before the first zero counter. */
  function Active(c: seq<Cell>): nat {
    if c == [] || c[0].ctr == 0 then 0 else 1 + Active(c[1..])
  }

  function NonzeroKeys(s: seq<u16>): set<u16> {
    set k | k in s && k != 0
  }

  function Keys(c: seq<Cell>): set<u16> {
    set i | 0 <= i < |c| && c[i].high != 0 :: c[i].high
  }

  /** Stopping at the first zero counter misses nothing: it counts every key in use, and
      the free cell if packets with key 0 wait there. */
  lemma {:induction false} ActiveCountsKeys(c: seq<Cell>)
    requires WellFormed(c)
    ensures Active(c) == |Keys(c)| + if CountOf(c, 0) > 0 then 1 else 0
  {
    if c == [] {
      assert Keys(c) == {};
    } else {
      var t := c[1..];
      assert forall i :: 0 <= i < |t| ==> t[i] == c[i + 1];
      if c[0].high == 0 {
        FreeCellsCountNothing(t, 0);
        assert Keys(c) == {};
        assert t != [] ==> t[0].ctr == 0;
      } else {
        ActiveCountsKeys(t);
        assert Keys(c) == Keys(t) + {c[0].high} by {
          forall k | k in Keys(c) ensures k in Keys(t) + {c[0].high} {
            var i :| 0 <= i < |c| && c[i].high == k && k != 0;
            if i > 0 {
              assert t[i - 1].high == k;
            }
          }
          forall k | k in Keys(t) ensures k in Keys(c) {
            var i :| 0 <= i < |t| && t[i].high == k;
            assert c[i + 1].high == k;
          }
          assert c[0].high in Keys(c);
        }
        assert c[0].high !in Keys(t);
      }
    }
  }

  lemma ActiveAfter(s: seq<u16>, size: nat)
    ensures Active(Counted(s, size)) == |NonzeroKeys(s)| + if CountOf(Counted(s, size), 0) > 0 then 1 else 0
  {
    var c := Counted(s, size);
    CountedWellFormed(s, size);
    ActiveCountsKeys(c);
    assert Keys(c) == NonzeroKeys(s) by {
      forall k | k in Keys(c) ensures k in NonzeroKeys(s) {
        assert Has(c, k);
      }
      forall k | k in NonzeroKeys(s) ensures k in Keys(c) {
        assert Has(c, k);
      }
    }
  }

  /** Packet j is the first of its flow, and packets with key 0 come before but not after it. */
  predicate TakesOver(s: seq<u16>, j: nat)
    requires j < |s|
  {
    s[j] != 0 && s[j] !in s[..j] && 0 in s[..j] && 0 !in s[j..]
  }

  /** A new flow has first shown up after the last packet with key 0, and so has taken over
      the cell in which the packets with key 0 were counted. */
  predicate ZeroForgotten(s: seq<u16>) {
    exists j :: 0 <= j < |s| && TakesOver(s, j)
  }

  lemma TakesOverNext(s: seq<u16>, h: u16, j: nat)
    requires j <= |s|
    ensures j < |s| ==> (TakesOver(s + [h], j) <==> h != 0 && TakesOver(s, j))
    ensures j == |s| ==> (TakesOver(s + [h], j) <==> h != 0 && h !in s && 0 in s)
  {
    var r := s + [h];
    if j < |s| {
      assert r[..j] == s[..j] && r[j..] == s[j..] + [h] && r[j] == s[j];
    } else {
      assert r[..j] == s && r[j..] == [h];
    }
  }

  lemma ZeroForgottenNext(s: seq<u16>, h: u16)
    ensures ZeroForgotten(s + [h]) <==> h != 0 && (ZeroForgotten(s) || (h !in s && 0 in s))
  {
    hide TakesOver;
    TakesOverNext(s, h, |s|);
    if ZeroForgotten(s + [h]) {
      var j :| 0 <= j < |s + [h]| && TakesOver(s + [h], j);
      TakesOverNext(s, h, j);
    }
    if ZeroForgotten(s) {
      var j :| 0 <= j < |s| && TakesOver(s, j);
      TakesOverNext(s, h, j);
    }
  }

  lemma {:induction false} ZeroKept(s: seq<u16>, size: nat)
    ensures CountOf(Counted(s, size), 0) > 0 <==> 0 in s && !ZeroForgotten(s)
  {
    if s == [] {
      FreeCellsCountNothing(Empty(size), 0);
    } else {
      var before, h := s[..|s| - 1], s[|s| - 1];
      assert s == before + [h];
      ZeroKept(before, size);
      ZeroForgottenNext(before, h);
      CountedWellFormed(before, size);
      HitCounts(Counted(before, size), h, 0);
    }
  }

  function Flows(s: seq<u16>): set<u16> {
    set k | k in s
  }

  /** The early-stop count of a bucket is the number of its flows, less one when key 0 has
      been forgotten. */
  lemma ActiveCountsFlows(s: seq<u16>, size: nat)
    ensures Active(Counted(s, size)) + (if ZeroForgotten(s) then 1 else 0) == |Flows(s)|
  {
    hide Active, Counted;
    ActiveAfter(s, size);
    ZeroKept(s, size);
    assert Flows(s) == NonzeroKeys(s) + if 0 in s then {0} else {};
    if ZeroForgotten(s) {
      var j :| 0 <= j < |s| && TakesOver(s, j);
    }
  }

  // ---------------------------------------------------------------- DOUBLE_HASH

  /** struct pkt_count of DOUBLE_HASH: two flows and an overflow counter. */
  datatype Slots = Slots(hi1: u16, hi2: u16, ctr0: nat, ctr1: nat, ctr2: nat)

  function DoubleHit(b: Slots, h: u16): Slots {
    if b.hi1 == 0 then b.(hi1 := h, ctr0 := b.ctr0 + 1)
    else if b.hi2 == 0 && b.hi1 != h then b.(hi2 := h, ctr1 := b.ctr1 + 1)
    else if b.hi1 == h then b.(ctr0 := b.ctr0 + 1)
    else if b.hi2 == h then b.(ctr1 := b.ctr1 + 1)
    else b.(ctr2 := b.ctr2 + 1)
  }

  function DoubleCounted(s: seq<u16>): Slots {
    if s == [] then Slots(0, 0, 0, 0, 0) else DoubleHit(DoubleCounted(s[..|s| - 1]), s[|s| - 1])
  }

  /** b is what is left of the cells c when everything behind the second is only totalled. */
  predicate Summarises(b: Slots, c: seq<Cell>) {
    |c| >= 2 && c[0] == Cell(b.hi1, b.ctr0) && c[1] == Cell(b.hi2, b.ctr1) && Total(c[2..]) == b.ctr2
  }

  lemma DoubleHitSummarises(b: Slots, c: seq<Cell>, h: u16)
    requires Summarises(b, c)
    ensures Summarises(DoubleHit(b, h), Hit(c, h))
  {
    if c[0].high == 0 || c[0].high == h {
      HitAt(c, h, 0);
      assert Hit(c, h)[2..] == c[2..];
    } else if c[1].high == 0 || c[1].high == h {
      HitAt(c, h, 1);
      assert Hit(c, h)[2..] == c[2..];
    } else {
      assert c[1..][1..] == c[2..];
      assert Hit(c, h)[2..] == Hit(c[2..], h);
      HitTotal(c[2..], h);
    }
  }

  /** For every stream, zero keys included, DOUBLE_HASH is HASH_LIST with the chain summed up. */
  lemma {:induction false} DoubleHashSimulates(s: seq<u16>, size: nat)
    requires size >= 2
    ensures Summarises(DoubleCounted(s), Counted(s, size))
  {
    if s == [] {
      assert Empty(size)[2..] == Empty(size - 2);
      EmptyTotal(size - 2);
    } else {
      DoubleHashSimulates(s[..|s| - 1], size);
      DoubleHitSummarises(DoubleCounted(s[..|s| - 1]), Counted(s[..|s| - 1], size), s[|s| - 1]);
    }
  }

  /** Without zero keys: the first two flows to arrive are counted exactly, and the
      overflow counter holds exactly the packets of all the others. */
  lemma DoubleHashCounts(s: seq<u16>)
    requires 0 !in s
    ensures var b, f := DoubleCounted(s), Arrivals(s);
            (|f| >= 1 ==> b.hi1 == f[0] && b.ctr0 == Occurrences(s, f[0])) &&
            (|f| >= 2 ==> b.hi2 == f[1] && b.ctr1 == Occurrences(s, f[1])) &&
            (|f| < 1 ==> b.hi1 == 0 && b.ctr0 == 0) &&
            (|f| < 2 ==> b.hi2 == 0 && b.ctr1 == 0) &&
            b.ctr2 == |s| - b.ctr0 - b.ctr1 == OfOthers(s, f)
  {
    var c, f := Counted(s, 2), Arrivals(s);
    DoubleHashSimulates(s, 2);
    CellsInArrivalOrder(s, 2);
    NothingLost(s, 2);
    assert Total(c) == c[0].ctr + (c[1].ctr + Total(c[2..])) by {
      assert c[1..][1..] == c[2..];
    }
    ArrivalsAreKeys(s);
    OthersAreTheRest(s, f);
  }

  /** A packet with key 0 comes before the first packet of one of the first two flows with
      other keys. */
  predicate EarlyZero(s: seq<u16>) {
    exists j :: 0 <= j < |s| && s[j] != 0 && s[j] !in s[..j] && 0 in s[..j] && |NonzeroKeys(s[..j])| < 2
  }

  lemma EarlyZeroNext(s: seq<u16>, h: u16)
    ensures EarlyZero(s + [h]) <==> EarlyZero(s) || (h != 0 && h !in s && 0 in s && |NonzeroKeys(s)| < 2)
  {
    hide NonzeroKeys;
    var r := s + [h];
    assert r[..|s|] == s && r[|s|] == h;
    if EarlyZero(r) {
      var j :| 0 <= j < |r| && r[j] != 0 && r[j] !in r[..j] && 0 in r[..j] && |NonzeroKeys(r[..j])| < 2;
      assert j < |s| ==> s[..j] == r[..j] && s[j] == r[j];
    }
    if EarlyZero(s) {
      var j :| 0 <= j < |s| && s[j] != 0 && s[j] !in s[..j] && 0 in s[..j] && |NonzeroKeys(s[..j])| < 2;
      assert r[j] == s[j] && r[..j] == s[..j];
    }
  }

  /** A slot that counts the packets of its key and no others. */
  predicate Pure(hi: u16, ctr: nat, s: seq<u16>) {
    hi != 0 ==> ctr == Occurrences(s, hi)
  }

  /** Where the packets with key 0 are counted until both slots are taken. */
  ghost predicate ZerosPlaced(b: Slots, s: seq<u16>) {
    (b.hi1 == 0 ==> b.hi2 == 0 && b.ctr0 == Occurrences(s, 0) && b.ctr1 == 0 && NonzeroKeys(s) == {}) &&
    (b.hi1 != 0 && b.hi2 == 0 ==>
      NonzeroKeys(s) == {b.hi1} && b.ctr0 >= Occurrences(s, b.hi1) &&
      b.ctr0 + b.ctr1 == Occurrences(s, b.hi1) + Occurrences(s, 0)) &&
    (b.hi1 != 0 && b.hi2 != 0 ==> b.hi1 != b.hi2 && {b.hi1, b.hi2} <= NonzeroKeys(s))
  }

  /** Both slots are pure exactly when no packet with key 0 came too early. */
  lemma PureUnlessEarlyZero(s: seq<u16>)
    ensures var b := DoubleCounted(s);
            ZerosPlaced(b, s) && (Pure(b.hi1, b.ctr0, s) && Pure(b.hi2, b.ctr1, s) <==> !EarlyZero(s))
  {
    assert PureOrEarly(DoubleCounted(s), s) by { PureAlways(s); }
  }

  lemma {:induction false} PureAlways(s: seq<u16>)
    ensures PureOrEarly(DoubleCounted(s), s)
  {
    if s == [] {
      assert NonzeroKeys(s) == {};
    } else {
      var before, h := s[..|s| - 1], s[|s| - 1];
      assert s == before + [h];
      PureAlways(before);
      hide PureOrEarly;
      PureNext(DoubleCounted(before), before, h);
    }
  }

  /** What PureUnlessEarlyZero says, in one state. */
  ghost predicate PureOrEarly(b: Slots, s: seq<u16>) {
    ZerosPlaced(b, s) && (Pure(b.hi1, b.ctr0, s) && Pure(b.hi2, b.ctr1, s) <==> !EarlyZero(s))
  }

  lemma PureNext(b: Slots, s: seq<u16>, h: u16)
    requires PureOrEarly(b, s)
    ensures PureOrEarly(DoubleHit(b, h), s + [h])
  {
    if b.hi1 == 0 || b.hi2 == 0 {
      PureNextFree(b, s, h);
    } else {
      PureNextFull(b, s, h);
    }
  }

  lemma PureNextFull(b: Slots, s: seq<u16>, h: u16)
    requires PureOrEarly(b, s) && b.hi1 != 0 && b.hi2 != 0
    ensures PureOrEarly(DoubleHit(b, h), s + [h])
  {
    hide Occurrences, EarlyZero, NonzeroKeys;
    EarlyZeroNext(s, h);
    NonzeroKeysNext(s, h);
    OneMore(s, h, 0, b.hi1);
    OneMore(s, h, 0, b.hi2);
    assert |NonzeroKeys(s)| >= 2 by {
      SubsetSize({b.hi1, b.hi2}, NonzeroKeys(s));
    }
  }

  lemma PureNextFree(b: Slots, s: seq<u16>, h: u16)
    requires PureOrEarly(b, s) && (b.hi1 == 0 || b.hi2 == 0)
    ensures PureOrEarly(DoubleHit(b, h), s + [h])
  {
    hide Occurrences, EarlyZero, NonzeroKeys;
    EarlyZeroNext(s, h);
    OneMore(s, h, 0, 0);
    OneMore(s, h, 0, h);
    OccurrencesOfAbsent(s, h);
    OccurrencesOfAbsent(s, 0);
    NonzeroKeysNext(s, h);
    EarlyZeroHasZero(s);
    if b.hi1 != 0 {
      OneMore(s, h, 0, b.hi1);
    }
  }

  lemma NonzeroKeysNext(s: seq<u16>, h: u16)
    ensures NonzeroKeys(s + [h]) == NonzeroKeys(s) + if h == 0 then {} else {h}
    ensures h != 0 ==> (h in s <==> h in NonzeroKeys(s))
  {
  }

  lemma EarlyZeroHasZero(s: seq<u16>)
    ensures EarlyZero(s) ==> 0 in s
  {
    if EarlyZero(s) {
      var j :| 0 <= j < |s| && 0 in s[..j];
    }
  }

  lemma SubsetSize<T>(a: set<T>, b: set<T>)
    requires a <= b
    ensures |a| <= |b|
  {
    assert b == a + (b - a);
  }

  /** The packets of flows other than the first two of f. */
  function OfOthers(s: seq<u16>, f: seq<u16>): nat {
    if s == [] then 0 else OfOthers(s[..|s| - 1], f) + if s[|s| - 1] in f[..if |f| < 2 then |f| else 2] then 0 else 1
  }

  lemma {:induction false} OthersAreTheRest(s: seq<u16>, f: seq<u16>)
    requires forall i, j :: 0 <= i < j < |f| ==> f[i] != f[j]
    ensures OfOthers(s, f) ==
            |s| - (if |f| >= 1 then Occurrences(s, f[0]) else 0) - (if |f| >= 2 then Occurrences(s, f[1]) else 0)
  {
    if s != [] {
      OthersAreTheRest(s[..|s| - 1], f);
      var k := if |f| < 2 then |f| else 2;
      assert forall x :: x in f[..k] <==> (|f| >= 1 && x == f[0]) || (|f| >= 2 && x == f[1]);
    }
  }

  /** The distinct keys other than 0 in the order of their first packets. */
  function NonzeroArrivals(s: seq<u16>): seq<u16> {
    if s == [] then [] else
    var before, h := s[..|s| - 1], s[|s| - 1];
    NonzeroArrivals(before) + if h == 0 || h in before then [] else [h]
  }

  /** The packets with key 0 after the first one with key k. */
  function ZerosAfter(s: seq<u16>, k: u16): nat {
    if s == [] then 0 else
    var before := s[..|s| - 1];
    ZerosAfter(before, k) + if s[|s| - 1] == 0 && k in before then 1 else 0
  }

  lemma ArrivalsNext(s: seq<u16>, h: u16, k: u16)
    ensures Arrivals(s + [h]) == Arrivals(s) + if h in s then [] else [h]
    ensures NonzeroArrivals(s + [h]) == NonzeroArrivals(s) + if h == 0 || h in s then [] else [h]
    ensures ZerosAfter(s + [h], k) == ZerosAfter(s, k) + if h == 0 && k in s then 1 else 0
  {
    assert (s + [h])[..|s|] == s;
  }

  /** NonzeroArrivals is Arrivals without key 0. */
  predicate WithoutZero(g: seq<u16>, f: seq<u16>) {
    if 0 in f then exists z :: 0 <= z < |f| && f[z] == 0 && g == f[..z] + f[z + 1..] else g == f
  }

  lemma {:induction false} NonzeroArrivalsAreArrivals(s: seq<u16>)
    ensures WithoutZero(NonzeroArrivals(s), Arrivals(s))
    ensures forall k :: k in NonzeroArrivals(s) <==> k in s && k != 0
  {
    if s != [] {
      var before, h := s[..|s| - 1], s[|s| - 1];
      var f, g := Arrivals(before), NonzeroArrivals(before);
      assert s == before + [h];
      NonzeroArrivalsAreArrivals(before);
      ArrivalsNext(before, h, 0);
      ArrivalsAreKeys(before);
      hide Arrivals, NonzeroArrivals, WithoutZero;
      if h in before {
        assert Arrivals(s) == f && NonzeroArrivals(s) == g;
      } else {
        WithoutZeroNext(g, f, h);
      }
    }
  }

  lemma WithoutZeroNext(g: seq<u16>, f: seq<u16>, h: u16)
    requires WithoutZero(g, f) && h !in f
    ensures WithoutZero(g + (if h == 0 then [] else [h]), f + [h])
  {
    var r := f + [h];
    assert r[|f|] == h;
    if 0 in f {
      var z :| 0 <= z < |f| && f[z] == 0 && g == f[..z] + f[z + 1..];
      assert r[z] == 0 && r[..z] + r[z + 1..] == f[..z] + f[z + 1..] + [h];
    } else if h == 0 {
      assert r[..|f|] + r[|f| + 1..] == f;
    }
  }

  /** The slots hold the first flows of g, and where all packets of the bucket are counted. */
  ghost predicate Placed(b: Slots, s: seq<u16>, g: seq<u16>) {
    b.hi1 == (if |g| >= 1 then g[0] else 0) && b.hi2 == (if |g| >= 2 then g[1] else 0) &&
    b.ctr0 + b.ctr1 + b.ctr2 == |s| && (|g| < 2 ==> b.ctr2 == 0) && (|g| >= 2 ==> Shared(b, s, g[0], g[1]))
  }

  /** The two slots together have the packets of their flows x and y, and those packets with
      key 0 that came before the first one of y. */
  ghost predicate Shared(b: Slots, s: seq<u16>, x: u16, y: u16) {
    x != y && b.ctr0 + b.ctr1 == Occurrences(s, x) + Occurrences(s, y) + Occurrences(s, 0) - ZerosAfter(s, y)
  }

  lemma {:induction false} PlacedAlways(s: seq<u16>)
    ensures Placed(DoubleCounted(s), s, NonzeroArrivals(s))
  {
    if s != [] {
      var before, h := s[..|s| - 1], s[|s| - 1];
      assert s == before + [h];
      var b, g := DoubleCounted(before), NonzeroArrivals(before);
      PlacedAlways(before);
      NonzeroArrivalsAreArrivals(before);
      hide Placed, DoubleHit, NonzeroArrivals, WithoutZero;
      assert NonzeroArrivals(s) == if h == 0 || h in before then g else g + [h] by {
        ArrivalsNext(before, h, 0);
      }
      assert forall i :: 0 <= i < |g| ==> g[i] in g;
      assert forall i :: 0 <= i < |before| ==> before[i] in before;
      if |g| >= 2 {
        PlacedNextFull(b, before, g, h);
      } else {
        PlacedNextFree(b, before, g, h);
      }
    }
  }

  lemma PlacedNextFull(b: Slots, s: seq<u16>, g: seq<u16>, h: u16)
    requires Placed(b, s, g) && |g| >= 2 && g[0] in s && g[1] in s && g[0] != 0 && g[1] != 0
    ensures Placed(DoubleHit(b, h), s + [h], if h == 0 || h in s then g else g + [h])
  {
    SharedNext(b, s, g[0], g[1], h);
    hide Shared;
  }

  lemma PlacedNextFree(b: Slots, s: seq<u16>, g: seq<u16>, h: u16)
    requires Placed(b, s, g) && |g| < 2
    requires forall i :: 0 <= i < |s| ==> s[i] == 0 || (|g| == 1 && s[i] == g[0])
    requires |g| == 1 ==> g[0] in s && g[0] != 0
    ensures Placed(DoubleHit(b, h), s + [h], if h == 0 || h in s then g else g + [h])
  {
    if |g| == 1 && h != 0 && h != g[0] {
      SecondFlow(b, s, g[0], h);
    }
    hide Shared;
  }

  lemma SharedNext(b: Slots, s: seq<u16>, x: u16, y: u16, h: u16)
    requires b.hi1 == x != 0 && b.hi2 == y != 0 && x in s && y in s && Shared(b, s, x, y)
    ensures Shared(DoubleHit(b, h), s + [h], x, y) && x != y
  {
    ArrivalsNext(s, h, y);
    OneMore(s, h, 0, x);
    OneMore(s, h, 0, y);
    OneMore(s, h, 0, 0);
    hide Occurrences, ZerosAfter;
  }

  lemma SecondFlow(b: Slots, s: seq<u16>, x: u16, h: u16)
    requires b.hi1 == x != 0 && b.hi2 == 0 && b.ctr0 + b.ctr1 == |s| && h != 0 && h != x
    requires forall i :: 0 <= i < |s| ==> s[i] == 0 || s[i] == x
    ensures Shared(DoubleHit(b, h), s + [h], x, h) && h !in s
  {
    ArrivalsNext(s, h, h);
    OneMore(s, h, 0, x);
    OneMore(s, h, 0, h);
    OneMore(s, h, 0, 0);
    assert h !in s;
    OccurrencesOfAbsent(s, h);
    NothingBeforeAbsent(s, h);
    TwoKeys(s, x);
    hide Occurrences, ZerosAfter;
  }

  lemma {:induction false} NothingBeforeAbsent(s: seq<u16>, k: u16)
    requires k !in s
    ensures ZerosAfter(s, k) == 0
  {
    if s != [] {
      assert forall x :: x in s[..|s| - 1] ==> x in s;
      NothingBeforeAbsent(s[..|s| - 1], k);
    }
  }

  lemma {:induction false} TwoKeys(s: seq<u16>, k: u16)
    requires k != 0 && forall i :: 0 <= i < |s| ==> s[i] == 0 || s[i] == k
    ensures Occurrences(s, 0) + Occurrences(s, k) == |s|
  {
    if s != [] {
      TwoKeys(s[..|s| - 1], k);
    }
  }

  /** By how many packets the overflow counter falls short of those of all but the first two
      flows: key 0 is one of the two, and another flow has taken the slot of its later packets. */
  function Shortfall(s: seq<u16>): int {
    var f, g := Arrivals(s), NonzeroArrivals(s);
    if 0 in f[..if |f| < 2 then |f| else 2] && |g| >= 2 then Occurrences(s, g[1]) - ZerosAfter(s, g[1]) else 0
  }

  /** For every stream the overflow counter is exact up to the shortfall. */
  lemma OverflowShortfall(s: seq<u16>)
    ensures OfOthers(s, Arrivals(s)) == DoubleCounted(s).ctr2 + Shortfall(s)
  {
    var f, g := Arrivals(s), NonzeroArrivals(s);
    PlacedAlways(s);
    ArrivalsAreKeys(s);
    NonzeroArrivalsAreArrivals(s);
    OthersAreTheRest(s, f);
    hide Arrivals, NonzeroArrivals, OfOthers, DoubleCounted, Occurrences, ZerosAfter;
    if |g| < 2 {
      AtMostTwo(s, f, g);
    } else if 0 in f[..2] {
      var z :| 0 <= z < |f| && f[z] == 0 && g == f[..z] + f[z + 1..];
      assert z < 2 by {
        var y :| 0 <= y < 2 && f[y] == 0;
      }
      assert g[0] == f[1 - z];
    } else {
      FirstTwoNonzero(s);
      assert f[0] != 0 && f[1] != 0 by {
        assert f[..2][0] == f[0] && f[..2][1] == f[1];
      }
      assert g[0] == f[0] && g[1] == f[1];
    }
  }

  lemma AtMostTwo(s: seq<u16>, f: seq<u16>, g: seq<u16>)
    requires f == Arrivals(s) && WithoutZero(g, f) && |g| < 2
    ensures OfOthers(s, f) == 0
  {
    ArrivalsAreKeys(s);
    assert |f| <= 2;
    NoOthers(s, f);
  }

  lemma {:induction false} NoOthers(s: seq<u16>, f: seq<u16>)
    requires |f| <= 2 && forall k :: k in s ==> k in f
    ensures OfOthers(s, f) == 0
  {
    if s != [] {
      assert s[|s| - 1] in s && f[..|f|] == f;
      assert forall k :: k in s[..|s| - 1] ==> k in s;
      NoOthers(s[..|s| - 1], f);
    }
  }

  /** No packet with key 0 comes before the second flow if neither of the first two is key 0. */
  lemma {:induction false} FirstTwoNonzero(s: seq<u16>)
    requires |Arrivals(s)| >= 2 && 0 !in Arrivals(s)[..2]
    ensures ZerosAfter(s, Arrivals(s)[1]) == Occurrences(s, 0)
  {
    var before, h := s[..|s| - 1], s[|s| - 1];
    var f := Arrivals(before);
    assert s == before + [h];
    ArrivalsNext(before, h, Arrivals(s)[1]);
    OneMore(before, h, 0, 0);
    ArrivalsAreKeys(before);
    if |f| >= 2 {
      assert Arrivals(s)[..2] == f[..2];
      FirstTwoNonzero(before);
      assert f[1] in f;
    } else {
      assert Arrivals(s)[..2] == Arrivals(s) == f + [h];
      assert 0 !in before && h !in before;
      OccurrencesOfAbsent(before, 0);
      NothingBeforeAbsent(before, h);
    }
  }

  /** Three packets of three flows, and the overflow counter is 0. */
  lemma OverflowWrong()
    ensures DoubleCounted([0, 7, 9]).ctr2 == 0 && OfOthers([0, 7, 9], Arrivals([0, 7, 9])) == 1
  {
    ThreeFlows();
    var s: seq<u16> := [0, 7, 9];
    ArrivalsAreKeys(s);
    hide Arrivals;
    OthersAreTheRest(s, [0, 7, 9]);
    hide OfOthers, DoubleCounted;
    assert s == [0, 7] + [9] && [0, 7] == [0] + [7];
    OneMore([0, 7], 9, 0, 0);
    OneMore([0], 7, 0, 0);
    OneMore([0, 7], 9, 0, 7);
    OneMore([0], 7, 0, 7);
  }

  lemma ThreeFlows()
    ensures Arrivals([0, 7, 9]) == [0, 7, 9] && DoubleCounted([0, 7, 9]) == Slots(7, 9, 2, 1, 0)
  {
    var s1: seq<u16>, s2: seq<u16>, s3: seq<u16> := [0], [0, 7], [0, 7, 9];
    assert s1 == [] + [0] && s2 == s1 + [7] && s3 == s2 + [9];
    DoubleNextPacket([], 0);
    DoubleNextPacket(s1, 7);
    DoubleNextPacket(s2, 9);
    ArrivalsNext([], 0, 9);
    ArrivalsNext(s1, 7, 9);
    ArrivalsNext(s2, 9, 9);
  }

  lemma DoubleNextPacket(s: seq<u16>, h: u16)
    ensures DoubleCounted(s + [h]) == DoubleHit(DoubleCounted(s), h)
  {
    assert (s + [h])[..|s|] == s;
  }
}
