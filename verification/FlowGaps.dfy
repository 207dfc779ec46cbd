/** Inter-packet gaps of the DOUBLE_HASH design: every flow in a slot keeps the global
    packet count of its latest packet, the running mean of its gaps and a quantile estimator. */
module FlowGaps {
  import opened FlowCells
  import opened FlowTables
  import P2

  /** One flow slot: hi_f, ctr, ipg, avg; fed lists the gaps its estimator has been given. */
  datatype Slot = Slot(hi: u16, ctr: nat, ipg: int, avg: real, fed: seq<int>)

  datatype Bucket = Bucket(s1: Slot, s2: Slot, ctr2: nat)

  /** A packet of the bucket: its upper hash half, and the global count when it was counted. */
  datatype Arrival = Arrival(high: u16, global: int)

  function Claim(s: Slot, h: u16): Slot {
    Slot(h, s.ctr + 1, 0, 0.0, s.fed)
  }

  /** Another packet of the slot's flow: curr = global - 1 - ipg joins the mean and goes to
      the estimator. */
  function Extend(s: Slot, global: int): Slot {
    var curr := global - 1 - s.ipg;
    Slot(s.hi, s.ctr + 1, global, (s.avg * s.ctr as real + curr as real) / (s.ctr + 1) as real, s.fed + [curr])
  }

  function GapHit(b: Bucket, a: Arrival): Bucket {
    if b.s1.hi == 0 then b.(s1 := Claim(b.s1, a.high))
    else if b.s2.hi == 0 && b.s1.hi != a.high then b.(s2 := Claim(b.s2, a.high))
    else if b.s1.hi == a.high then b.(s1 := Extend(b.s1, a.global))
    else if b.s2.hi == a.high then b.(s2 := Extend(b.s2, a.global))
    else b.(ctr2 := b.ctr2 + 1)
  }

  const FREE := Slot(0, 0, 0, 0.0, [])

  function GapCounted(s: seq<Arrival>): Bucket {
    if s == [] then Bucket(FREE, FREE, 0) else GapHit(GapCounted(s[..|s| - 1]), s[|s| - 1])
  }

  function Uppers(s: seq<Arrival>): seq<u16> {
    if s == [] then [] else Uppers(s[..|s| - 1]) + [s[|s| - 1].high]
  }

  /** The global counts at the packets of flow h, one after the other. */
  function Totals(s: seq<Arrival>, h: u16): seq<int> {
    if s == [] then [] else
    var a := s[|s| - 1];
    Totals(s[..|s| - 1], h) + if a.high == h then [a.global] else []
  }

  /** The gaps between packets with the given global counts: how many packets came in
      between. The gap before the second packet runs from the start of the measurement. */
  function GapsBetween(totals: seq<int>): (r: seq<int>)
    ensures |r| == if totals == [] then 0 else |totals| - 1
  {
    seq(if totals == [] then 0 else |totals| - 1,
        k requires 0 <= k < |totals| - 1 => totals[k + 1] - 1 - if k == 0 then 0 else totals[k])
  }

  /** The statistics ride along: keys and counters are those of plain DOUBLE_HASH. */
  lemma {:induction false} GapsFollowSlots(s: seq<Arrival>)
    ensures var b := GapCounted(s);
            DoubleCounted(Uppers(s)) == Slots(b.s1.hi, b.s2.hi, b.s1.ctr, b.s2.ctr, b.ctr2)
  {
    if s != [] {
      GapsFollowSlots(s[..|s| - 1]);
      var u := Uppers(s[..|s| - 1]);
      assert (u + [s[|s| - 1].high])[..|u|] == u;
    }
  }

  /** The slot has seen its flow's every packet, its mean telescopes to the flow's latest
      global count, and its estimator has been given the flow's gaps. */
  predicate Telescopes(t: Slot, s: seq<Arrival>) {
    if t.hi == 0 then t.fed == [] else
    var totals := Totals(s, t.hi);
    var n := |totals|;
    n > 0 && t.ctr >= n && t.ipg == (if n == 1 then 0 else totals[n - 1]) &&
    t.avg * t.ctr as real == (t.ipg - (n - 1)) as real && t.fed == GapsBetween(totals)
  }

  lemma ExtendTelescopes(t: Slot, s: seq<Arrival>, a: Arrival)
    requires Telescopes(t, s) && t.hi == a.high != 0
    ensures Telescopes(Extend(t, a.global), s + [a])
  {
    OneArrival(s, a, t.hi);
    ExtendedSum(t, a.global);
    var totals := Totals(s, t.hi);
    assert GapsBetween(totals + [a.global]) == GapsBetween(totals) + [a.global - 1 - t.ipg];
    hide GapsBetween;
  }

  lemma ExtendedSum(t: Slot, global: int)
    ensures var r := Extend(t, global);
            r.avg * r.ctr as real == t.avg * t.ctr as real + (global - 1 - t.ipg) as real
  {
    Undivide(t.avg * t.ctr as real + (global - 1 - t.ipg) as real, (t.ctr + 1) as real);
  }

  lemma Undivide(x: real, n: real)
    requires n != 0.0
    ensures x / n * n == x
  {
  }

  lemma OneArrival(s: seq<Arrival>, a: Arrival, h: u16)
    ensures Totals(s + [a], h) == Totals(s, h) + if a.high == h then [a.global] else []
    ensures GapCounted(s + [a]) == GapHit(GapCounted(s), a)
    ensures Uppers(s + [a]) == Uppers(s) + [a.high]
  {
    assert (s + [a])[..|s|] == s;
  }

  lemma {:induction false} TotalsCount(s: seq<Arrival>, h: u16)
    ensures |Totals(s, h)| == Occurrences(Uppers(s), h)
  {
    if s != [] {
      var before, a := s[..|s| - 1], s[|s| - 1];
      TotalsCount(before, h);
      OneMore(Uppers(before), a.high, 0, h);
    }
  }

  lemma OthersKeepTelescoping(t: Slot, s: seq<Arrival>, a: Arrival)
    requires Telescopes(t, s) && t.hi != a.high
    ensures Telescopes(t, s + [a])
  {
    OneArrival(s, a, t.hi);
    assert Totals(s, t.hi) + [] == Totals(s, t.hi);
    hide GapsBetween;
  }

  lemma ClaimTelescopes(t: Slot, s: seq<Arrival>, a: Arrival)
    requires a.high !in Uppers(s) && t.fed == []
    ensures Telescopes(Claim(t, a.high), s + [a])
  {
    OneArrival(s, a, a.high);
    TotalsCount(s, a.high);
    OccurrencesOfAbsent(Uppers(s), a.high);
  }

  /** What a key in a slot means: the flow was not seen before its slot was claimed. */
  predicate Fresh(b: Bucket, u: seq<u16>) {
    (b.s1.hi == 0 ==> b.s2.hi == 0 && forall h :: h in u ==> h == 0) &&
    (b.s2.hi == 0 ==> forall h :: h in u ==> h == 0 || h == b.s1.hi) &&
    (b.s1.hi != 0 ==> b.s1.hi != b.s2.hi)
  }

  /** For every stream and every slot in use: mean times counter is the global count at
      the flow's latest packet, less one for every packet of the flow after its first. */
  lemma {:induction false} MeanTelescopes(s: seq<Arrival>)
    ensures Telescopes(GapCounted(s).s1, s) && Telescopes(GapCounted(s).s2, s)
    ensures Fresh(GapCounted(s), Uppers(s))
  {
    if s != [] {
      var before, a := s[..|s| - 1], s[|s| - 1];
      assert s == before + [a];
      MeanTelescopes(before);
      OneArrival(before, a, a.high);
      TelescopesNext(GapCounted(before), before, a);
      FreshNext(GapCounted(before), Uppers(before), a);
    }
  }

  lemma FreshNext(b: Bucket, u: seq<u16>, a: Arrival)
    requires Fresh(b, u)
    ensures Fresh(GapHit(b, a), u + [a.high])
  {
    assert forall h :: h in u + [a.high] <==> h in u || h == a.high;
  }

  lemma TelescopesNext(b: Bucket, s: seq<Arrival>, a: Arrival)
    requires Fresh(b, Uppers(s)) && Telescopes(b.s1, s) && Telescopes(b.s2, s)
    ensures var r := GapHit(b, a); Telescopes(r.s1, s + [a]) && Telescopes(r.s2, s + [a])
  {
    hide Extend, Totals, GapsBetween, Uppers;
    if b.s1.hi == 0 {
      if a.high != 0 {
        ClaimTelescopes(b.s1, s, a);
      }
    } else if b.s2.hi == 0 && b.s1.hi != a.high {
      OthersKeepTelescoping(b.s1, s, a);
      if a.high != 0 {
        ClaimTelescopes(b.s2, s, a);
      }
    } else {
      KnownTelescopes(b.s1, s, a, b.s1.hi == a.high);
      KnownTelescopes(b.s2, s, a, b.s1.hi != a.high && b.s2.hi == a.high);
    }
  }

  lemma KnownTelescopes(t: Slot, s: seq<Arrival>, a: Arrival, hit: bool)
    requires Telescopes(t, s) && (hit ==> t.hi == a.high != 0) && (!hit && t.hi != 0 ==> t.hi != a.high)
    ensures Telescopes(if hit then Extend(t, a.global) else t, s + [a])
  {
    if hit {
      ExtendTelescopes(t, s, a);
    } else if t.hi != 0 {
      OthersKeepTelescoping(t, s, a);
    }
  }

  // ---------------------------------------------------------------- when the mean is right

  /** avg * ctr == ipg - (ctr - 1), for a slot in use. */
  predicate MeanIsRight(t: Slot) {
    t.hi != 0 ==> t.avg * t.ctr as real == (t.ipg - (t.ctr - 1)) as real
  }

  lemma RightIfPure(t: Slot, s: seq<Arrival>)
    requires Telescopes(t, s)
    ensures MeanIsRight(t) <==> Pure(t.hi, t.ctr, Uppers(s))
  {
    TotalsCount(s, t.hi);
  }

  /** Both means of a bucket are right if and only if no packet with upper half 0 comes before
      the first packet of one of the bucket's first two flows with other upper halves. */
  lemma MeansExact(s: seq<Arrival>)
    ensures MeanIsRight(GapCounted(s).s1) && MeanIsRight(GapCounted(s).s2) <==> !EarlyZero(Uppers(s))
  {
    hide MeanIsRight, Telescopes, Pure, EarlyZero, GapCounted, Uppers, DoubleCounted, ZerosPlaced;
    MeanTelescopes(s);
    GapsFollowSlots(s);
    RightIfPure(GapCounted(s).s1, s);
    RightIfPure(GapCounted(s).s2, s);
    PureUnlessEarlyZero(Uppers(s));
  }

  /** An input on which it is wrong: the slot of flow 7 has counted two packets, and the
      flow has had one. */
  lemma MeanWrong()
    ensures !MeanIsRight(GapCounted([Arrival(0, 1), Arrival(7, 2)]).s1)
  {
    var s := [Arrival(0, 1), Arrival(7, 2)];
    assert s[..1] == [Arrival(0, 1)] && s[..1][..0] == [];
    assert GapCounted(s[..1]).s1 == Slot(0, 1, 0, 0.0, []);
    assert GapCounted(s).s1 == Slot(7, 2, 0, 0.0, []);
  }

  // ---------------------------------------------------------------- what the estimators see

  /** Global counts fall by at most d. With d == 0 they never fall, as when bursts are
      counted one after the other; a monitor that goes on counting a burst while another one
      starts the next still uses its older count. */
  predicate Grows(s: seq<Arrival>, d: nat) {
    (forall i :: 0 <= i < |s| ==> s[i].global >= 0) &&
    forall i, j :: 0 <= i <= j < |s| ==> s[i].global <= s[j].global + d
  }

  lemma {:induction false} TotalsGrow(s: seq<Arrival>, h: u16, d: nat)
    requires Grows(s, d)
    ensures var r := Totals(s, h);
            (forall i :: 0 <= i < |r| ==> exists k :: 0 <= k < |s| && s[k].global == r[i]) &&
            forall i, j :: 0 <= i <= j < |r| ==> r[i] <= r[j] + d
  {
    if s != [] {
      var before, last := s[..|s| - 1], s[|s| - 1];
      assert forall i :: 0 <= i < |before| ==> before[i] == s[i];
      TotalsGrow(before, h, d);
      assert Totals(s, h) == if last.high == h then Totals(before, h) + [last.global] else Totals(before, h);
    }
  }

  /** Every gap an estimator is given is its flow's, and less than -1 by at most as much as the
      counts fall. A gap of -1 says that two packets came in one burst. */
  lemma FedGaps(s: seq<Arrival>, t: Slot, d: nat)
    requires t == GapCounted(s).s1 || t == GapCounted(s).s2
    ensures t.fed == if t.hi == 0 then [] else GapsBetween(Totals(s, t.hi))
    ensures Grows(s, d) ==> forall k :: 0 <= k < |t.fed| ==> t.fed[k] >= -1 - d
  {
    MeanTelescopes(s);
    if Grows(s, d) && t.hi != 0 {
      TotalsGrow(s, t.hi, d);
      var r := Totals(s, t.hi);
      forall k | 0 <= k < |t.fed| ensures t.fed[k] >= -1 - d {
        assert r[k] <= r[k + 1] + d && r[k + 1] >= 0;
      }
    }
  }

  /** So with six or more gaps a slot's estimator keeps its heights in order, and they end in
      the flow's longest gap unless a gap after the fifth is negative. For the shortest gap
      the first five have to fit, and to be as short as every negative gap after them. */
  lemma FlowQuantile(s: seq<Arrival>, t: Slot, p: real, d: nat)
    requires Grows(s, d) && d < 0x7fff_ffff && forall i :: 0 <= i < |s| ==> s[i].global < 0x8000_0000_0000_0000
    requires (t == GapCounted(s).s1 || t == GapCounted(s).s2) && t.hi != 0 && |Totals(s, t.hi)| > 6
    ensures var gaps := GapsBetween(Totals(s, t.hi));
            var q := P2.After(P2.Samples(gaps), p).q;
            t.fed == gaps && P2.Ascending(q) &&
            (P2.IsGreatest(q[4], P2.Reals(gaps)) <==> !P2.LateNegative(gaps)) &&
            (P2.IsLeast(q[0], P2.Reals(gaps)) <==> P2.MovesFit(gaps) && P2.LateCovered(gaps))
  {
    hide Totals, GapCounted, P2.After, P2.MovesFit, P2.LateCovered, P2.LateNegative;
    FedGaps(s, t, d);
    TotalsGrow(s, t.hi, d);
    var r := Totals(s, t.hi);
    assert forall i :: 0 <= i < |r| ==> 0 <= r[i] < 0x8000_0000_0000_0000;
    assert P2.Plausible(GapsBetween(r));
    P2.HeightsExact(GapsBetween(r), p);
  }

  function OneFlow(h: u16, totals: seq<int>): (s: seq<Arrival>)
    ensures |s| == |totals|
  {
    seq(|totals|, i requires 0 <= i < |totals| => Arrival(h, totals[i]))
  }

  lemma {:induction false} OneFlowAlone(h: u16, totals: seq<int>)
    requires h != 0
    ensures Totals(OneFlow(h, totals), h) == totals
    ensures GapCounted(OneFlow(h, totals)).s1.hi == if totals == [] then 0 else h
  {
    if totals != [] {
      var k := |totals| - 1;
      OneFlowAlone(h, totals[..k]);
      assert OneFlow(h, totals)[..k] == OneFlow(h, totals[..k]);
      assert totals[..k] + [totals[k]] == totals;
    }
  }

  /** A flow with two packets in one burst whose estimator ends in 2^64 - 1: eight packets,
      with longest gap 5. */
  lemma MisreadBurst(p: real)
    ensures var s := OneFlow(7, [1, 2, 4, 7, 11, 16, 22, 22]);
            var t := GapCounted(s).s1;
            Grows(s, 0) && t.fed == [1, 1, 2, 3, 4, 5, -1] &&
            P2.After(P2.Samples(t.fed), p).q[4] == 18446744073709551615.0
  {
    hide P2.After, P2.Samples, GapCounted, Totals;
    var totals := [1, 2, 4, 7, 11, 16, 22, 22];
    var s, gaps := OneFlow(7, totals), [1, 1, 2, 3, 4, 5, -1];
    OneFlowAlone(7, totals);
    FedGaps(s, GapCounted(s).s1, 0);
    assert GapsBetween(totals) == gaps;
    P2.LateMinusOne(gaps, 6, p);
  }

  // ---------------------------------------------------------------- the monitor loop

  datatype Stamped = Stamped(p: Packet, global: int)

  /** The arrivals at bucket l. */
  function At(s: seq<Stamped>, l: u16): seq<Arrival> {
    if s == [] then [] else
    var before, x := s[..|s| - 1], s[|s| - 1];
    if x.p.low == l then At(before, l) + [Arrival(x.p.high, x.global)] else At(before, l)
  }

  lemma AtNext(s: seq<Stamped>, x: Stamped, l: u16)
    ensures var b := GapCounted(At(s, l));
            GapCounted(At(s + [x], l)) == if x.p.low == l then GapHit(b, Arrival(x.p.high, x.global)) else b
  {
    assert (s + [x])[..|s|] == s;
    if x.p.low == l {
      OneArrival(At(s, l), Arrival(x.p.high, x.global), 0);
    }
  }

  function SumOf(re: seq<nat>, n: nat): nat
    requires n <= |re|
  {
    if n == 0 then 0 else SumOf(re, n - 1) + re[n - 1]
  }

  /** The burst with the global count all its packets share. */
  function Stamp(ps: seq<Packet>, global: int): (s: seq<Stamped>)
    ensures |s| == |ps|
  {
    seq(|ps|, i requires 0 <= i < |ps| => Stamped(ps[i], global))
  }

  /** The stamps never fall, and lie between 0 and total. */
  predicate GrowsTo(s: seq<Stamped>, total: int) {
    (forall i :: 0 <= i < |s| ==> 0 <= s[i].global <= total) &&
    forall i, j :: 0 <= i <= j < |s| ==> s[i].global <= s[j].global
  }

  lemma {:induction false} ArrivalsGrow(s: seq<Stamped>, total: int, l: u16)
    requires GrowsTo(s, total)
    ensures var r := At(s, l); Grows(r, 0) && forall i :: 0 <= i < |r| ==> r[i].global <= total
  {
    if s != [] {
      var before, x := s[..|s| - 1], s[|s| - 1];
      assert forall i :: 0 <= i < |before| ==> before[i] == s[i];
      ArrivalsGrow(before, x.global, l);
      var r := At(before, l);
      assert At(s, l) == if x.p.low == l then r + [Arrival(x.p.high, x.global)] else r;
      hide At, GrowsTo;
    }
  }

  lemma {:induction false} SumGrows(re: seq<nat>, n: nat, thread: nat, more: nat)
    requires n <= |re| && thread < |re|
    ensures SumOf(re[thread := re[thread] + more], n) == SumOf(re, n) + if thread < n then more else 0
  {
    if n > 0 {
      SumGrows(re, n - 1, thread, more);
    }
  }

  /** The IPG statements of a hit, in their order. */
  method UpdateGap(t: Slot, global: int) returns (s: Slot)
    ensures s == Extend(t, global)
  {
    s := t.(ctr := t.ctr + 1);
    var curr := global - 1 - s.ipg;
    s := s.(avg := (s.avg * (s.ctr - 1) as real + curr as real) / s.ctr as real);
    s := s.(ipg := global, fed := s.fed + [curr]);
  }

  class GapMonitor {
    const re: array<nat>           // packets per thread
    const pktCtr: array<Bucket>
    ghost var seen: seq<Stamped>

    ghost predicate Valid()
      reads this, pktCtr
    {
      pktCtr.Length == FLOW_NUM && forall l: u16 :: pktCtr[l] == GapCounted(At(seen, l))
    }

    /** So far bursts have been counted one after the other. */
    ghost predicate Serial()
      reads this, re
    {
      GrowsTo(seen, SumOf(re[..], re.Length))
    }

    constructor (threads: nat)
      ensures Valid() && Serial() && seen == [] && re.Length == threads && fresh(re) && fresh(pktCtr)
    {
      re := new nat[threads](_ => 0);
      pktCtr := new Bucket[FLOW_NUM](_ => Bucket(FREE, FREE, 0));
      seen := [];
    }

    /** The per-packet body, IPG enabled. */
    method UpdateBucket(p: Packet, global: int)
      requires pktCtr.Length == FLOW_NUM
      modifies pktCtr
      ensures pktCtr[..] == old(pktCtr[..])[p.low := GapHit(old(pktCtr[p.low]), Arrival(p.high, global))]
    {
      var l, h := p.low, p.high;
      var b := pktCtr[l];
      if b.s1.hi == 0 {
        pktCtr[l] := b.(s1 := b.s1.(hi := h, ctr := b.s1.ctr + 1, avg := 0.0, ipg := 0));
      } else if b.s2.hi == 0 && b.s1.hi != h {
        pktCtr[l] := b.(s2 := b.s2.(hi := h, ctr := b.s2.ctr + 1, avg := 0.0, ipg := 0));
      } else {
        if b.s1.hi == h {
          var s := UpdateGap(b.s1, global);
          pktCtr[l] := b.(s1 := s);
        } else if b.s2.hi == h {
          var s := UpdateGap(b.s2, global);
          pktCtr[l] := b.(s2 := s);
        } else {
          pktCtr[l] := b.(ctr2 := b.ctr2 + 1);
        }
      }
    }

    /** One packet of a burst that began with the given global count, whatever other threads
        have counted since. */
    method CountPacket(p: Packet, global: int)
      requires Valid()
      modifies this`seen, pktCtr
      ensures Valid() && seen == old(seen) + [Stamped(p, global)]
    {
      hide GapHit, GapCounted, At;
      ghost var table := pktCtr[..];
      UpdateBucket(p, global);
      ghost var x := Stamped(p, global);
      forall l: u16 ensures pktCtr[l] == GapCounted(At(seen + [x], l)) {
        AtNext(seen, x, l);
        assert pktCtr[..][l] == pktCtr[l] && table[l] == GapCounted(At(seen, l));
      }
      seen := seen + [x];
    }

    /** The start of a burst: its thread's counter, then the sum of all. */
    method Begin(thread: nat, n: nat) returns (global: nat)
      requires thread < re.Length
      modifies re
      ensures re[..] == old(re[..])[thread := old(re[thread]) + n] && global == SumOf(re[..], re.Length)
      ensures global == old(SumOf(re[..], re.Length)) + n
    {
      SumGrows(re[..], re.Length, thread, n);
      re[thread] := re[thread] + n;
      var qNum := re.Length;
      global := 0;
      while qNum > 0
        invariant 0 <= qNum <= re.Length && global + SumOf(re[..], qNum) == SumOf(re[..], re.Length)
      {
        qNum := qNum - 1;
        global := global + re[qNum];
      }
    }

    /** One dequeued burst of the given thread, without another one in between. */
    method Burst(thread: nat, ps: seq<Packet>)
      requires Valid() && thread < re.Length
      modifies this`seen, re, pktCtr
      ensures Valid() && (old(Serial()) ==> Serial())
      ensures re[..] == old(re[..])[thread := old(re[thread]) + |ps|]
      ensures seen == old(seen) + Stamp(ps, SumOf(re[..], re.Length))
    {
      hide GapCounted, At;
      var global := Begin(thread, |ps|);
      ghost var before, counts := seen, re[..];
      for buf := 0 to |ps|
        invariant Valid() && seen == before + Stamp(ps, global)[..buf] && re[..] == counts
      {
        CountPacket(ps[buf], global);
      }
    }
  }

  /** At any time, however the packets of several bursts have been interleaved, the estimators
      of the monitor have been given their flows' gaps; all of them are -1 or more if bursts
      were counted one after the other. */
  lemma MonitorFeeds(m: GapMonitor, l: u16)
    requires m.Valid()
    ensures var b, s := m.pktCtr[l], At(m.seen, l);
            (b.s1.hi != 0 ==> b.s1.fed == GapsBetween(Totals(s, b.s1.hi))) &&
            (b.s2.hi != 0 ==> b.s2.fed == GapsBetween(Totals(s, b.s2.hi))) &&
            (m.Serial() ==>
              Grows(s, 0) && (forall k :: 0 <= k < |b.s1.fed| ==> b.s1.fed[k] >= -1) &&
              (forall k :: 0 <= k < |b.s2.fed| ==> b.s2.fed[k] >= -1))
  {
    var s := At(m.seen, l);
    if m.Serial() {
      ArrivalsGrow(m.seen, SumOf(m.re[..], m.re.Length), l);
    }
    FedGaps(s, m.pktCtr[l].s1, 0);
    FedGaps(s, m.pktCtr[l].s2, 0);
  }
}
