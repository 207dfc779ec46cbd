/** The whole flow table: FLOW_NUM buckets chosen by the lower half of the hash. */
module FlowTables {
  import opened FlowCells

  const FLOW_NUM := 0x1_0000

  /** A packet's RSS hash, split into its halves. */
  datatype Packet = Packet(low: u16, high: u16)

  /** The mask loop at the start of main: result selects the lower half, b1 the upper. */
  method Masks(bits: bv6) returns (result: bv32, b1: bv32)
    requires bits < 32
    ensures result == (1 << bits) - 1 && b1 == result << bits
    ensures bits == 16 ==> result == 0xffff && b1 == 0xffff_0000
  {
    var i: bv6 := 0;
    result := 0;
    while i < bits
      invariant i <= bits && result == (1 << i) - 1
      decreases bits - i
    {
      result := result | (1 << i);
      i := i + 1;
    }
    b1 := result << bits;
  }

  /** index_l and index_h */
  function Split(hash: bv32): (bv32, bv32) {
    (hash & 0xffff, (hash & 0xffff_0000) >> 16)
  }

  /** The split is a bijection onto pairs of 16-bit halves, so a pair stands for its hash. */
  lemma HalvesDetermineHash(hash: bv32, low: bv32, high: bv32)
    ensures Split(hash).0 < 0x1_0000 && Split(hash).1 < 0x1_0000
    ensures (Split(hash).1 << 16) | Split(hash).0 == hash
    ensures low < 0x1_0000 && high < 0x1_0000 ==> Split((high << 16) | low) == (low, high)
  {
  }

  /** The upper halves of the packets of bucket l, in order. */
  function Highs(ps: seq<Packet>, l: u16): seq<u16> {
    if ps == [] then [] else
    var before, p := ps[..|ps| - 1], ps[|ps| - 1];
    if p.low == l then Highs(before, l) + [p.high] else Highs(before, l)
  }

  /** The table after a stream of packets, from size preallocated cells per bucket. */
  function Table(ps: seq<Packet>, size: nat): (t: seq<seq<Cell>>)
    ensures |t| == FLOW_NUM
  {
    seq(FLOW_NUM, l requires 0 <= l < FLOW_NUM => Counted(Highs(ps, l), size))
  }

  /** One packet touches one bucket. */
  lemma TableNext(ps: seq<Packet>, p: Packet, size: nat)
    ensures Table(ps + [p], size) == Table(ps, size)[p.low := Hit(Table(ps, size)[p.low], p.high)]
  {
    assert (ps + [p])[..|ps|] == ps;
    forall l: u16 ensures Table(ps + [p], size)[l] == Table(ps, size)[p.low := Hit(Table(ps, size)[p.low], p.high)][l] {
      assert Highs(ps + [p], l) == if p.low == l then Highs(ps, l) + [p.high] else Highs(ps, l);
      OneMore(Highs(ps, l), p.high, size, 0);
    }
  }

  /** The same for the bucket of a double hash. */
  lemma DoubleNext(ps: seq<Packet>, p: Packet, l: u16)
    ensures var b := DoubleCounted(Highs(ps, l));
            DoubleCounted(Highs(ps + [p], l)) == if p.low == l then DoubleHit(b, p.high) else b
  {
    assert (ps + [p])[..|ps|] == ps;
    assert (Highs(ps, l) + [p.high])[..|Highs(ps, l)|] == Highs(ps, l);
  }

  /** Packets of different buckets may change places. */
  lemma NeighboursCommute(ps: seq<Packet>, p: Packet, q: Packet, size: nat)
    requires p.low != q.low
    ensures Table(ps + [p] + [q], size) == Table(ps + [q] + [p], size)
  {
    TableNext(ps + [p], q, size);
    TableNext(ps + [q], p, size);
    TableNext(ps, p, size);
    TableNext(ps, q, size);
  }

  // ---------------------------------------------------------------- against the plain map

  /** The table of scripts/flow-level.lua: ft[low][high] as one map. */
  function Lua(ps: seq<Packet>): map<Packet, nat> {
    if ps == [] then map[] else
    var ft, p := Lua(ps[..|ps| - 1]), ps[|ps| - 1];
    if p in ft then ft[p := ft[p] + 1] else ft[p := 1]
  }

  function Lookup(ft: map<Packet, nat>, p: Packet): nat {
    if p in ft then ft[p] else 0
  }

  lemma {:induction false} LuaCounts(ps: seq<Packet>, p: Packet)
    ensures Lookup(Lua(ps), p) == Occurrences(Highs(ps, p.low), p.high)
    ensures Lookup(Lua(ps), p) == multiset(ps)[p]
  {
    if ps != [] {
      var before, q := ps[..|ps| - 1], ps[|ps| - 1];
      LuaCounts(before, p);
      assert multiset(ps)[p] == multiset(before)[p] + if p == q then 1 else 0 by {
        assert ps == before + [q];
      }
      assert Lookup(Lua(ps), p) == Lookup(Lua(before), p) + if p == q then 1 else 0;
      OneMore(Highs(before, p.low), q.high, 0, p.high);
      assert q.low != p.low ==> Highs(ps, p.low) == Highs(before, p.low);
    }
  }

  /** Some bucket sees a flow for the first time after a packet with upper half 0. */
  ghost predicate AnyLateFlow(ps: seq<Packet>) {
    exists l: u16 :: LateFlow(Highs(ps, l))
  }

  /** The table agrees with the plain map on every flow exactly when no flow is late. */
  lemma TableRefinesLua(ps: seq<Packet>, size: nat)
    ensures (forall p: Packet :: CountOf(Table(ps, size)[p.low], p.high) == Lookup(Lua(ps), p)) <==> !AnyLateFlow(ps)
  {
    if AnyLateFlow(ps) {
      var l: u16 :| LateFlow(Highs(ps, l));
      ExactOrOvercounted(Highs(ps, l), size);
      var k: u16 :| CountOf(Counted(Highs(ps, l), size), k) > Occurrences(Highs(ps, l), k);
      LuaCounts(ps, Packet(l, k));
      assert CountOf(Table(ps, size)[Packet(l, k).low], Packet(l, k).high) != Lookup(Lua(ps), Packet(l, k));
    } else {
      forall p: Packet ensures CountOf(Table(ps, size)[p.low], p.high) == Lookup(Lua(ps), p) {
        ExactOrOvercounted(Highs(ps, p.low), size);
        LuaCounts(ps, p);
      }
    }
  }

  /** An input on which a counter is wrong: after a packet with upper half 0 the first
      packet of a flow is counted as its second. */
  lemma CountsWrong()
    ensures var ps := [Packet(5, 0), Packet(5, 7)];
            AnyLateFlow(ps) && Lookup(Lua(ps), Packet(5, 7)) == 1 &&
            forall size :: CountOf(Table(ps, size)[5], 7) == 2
  {
    var ps := [Packet(5, 0), Packet(5, 7)];
    assert ps[..1] == [Packet(5, 0)] && ps[..1][..0] == [];
    assert Highs(ps[..1], 5) == [0] && Highs(ps, 5) == [0, 7];
    LuaCounts(ps, Packet(5, 7));
    assert [0, 7][1] !in [0, 7][..1] && 0 in [0, 7][..1];
    assert LateFlow(Highs(ps, 5));
    forall size: nat ensures CountOf(Table(ps, size)[5], 7) == 2 {
      SecondOfTwo(size);
    }
  }

  lemma SecondOfTwo(size: nat)
    ensures CountOf(Counted([0, 7], size), 7) == 2
  {
    var c0, c1 := Empty(size), Counted([0], size);
    assert [0, 7] == [0] + [7] && [0] == [] + [0];
    OneMore([], 0, size, 0);
    OneMore([0], 7, size, 7);
    assert c1 == Hit(c0, 0) && Counted([0, 7], size) == Hit(c1, 7);
    FreeCellsCountNothing(c0, 0);
    CountedWellFormed([], size);
    CountedWellFormed([0], size);
    assert WellFormed(c0) && WellFormed(c1) && !Has(c1, 7);
    hide *;
    HitCounts(c0, 0, 0);
    HitCounts(c1, 7, 7);
  }

  predicate NoZeroHigh(ps: seq<Packet>) {
    forall i :: 0 <= i < |ps| ==> ps[i].high != 0
  }

  lemma {:induction false} HighsFromPackets(ps: seq<Packet>, l: u16, h: u16)
    ensures h in Highs(ps, l) <==> Packet(l, h) in ps
  {
    if ps != [] {
      HighsFromPackets(ps[..|ps| - 1], l, h);
      assert ps == ps[..|ps| - 1] + [ps[|ps| - 1]];
    }
  }

  lemma NoZeroHighNotLate(ps: seq<Packet>)
    requires NoZeroHigh(ps)
    ensures !AnyLateFlow(ps)
    ensures forall l: u16 :: 0 !in Highs(ps, l)
  {
    forall l: u16 ensures 0 !in Highs(ps, l) && !LateFlow(Highs(ps, l)) {
      HighsFromPackets(ps, l, 0);
    }
  }

  /** With nonzero upper halves, the per-flow counts depend on the packets and not on their order. */
  lemma CountsIgnoreOrder(ps: seq<Packet>, qs: seq<Packet>, size: nat, p: Packet)
    requires NoZeroHigh(ps) && multiset(ps) == multiset(qs)
    ensures CountOf(Table(ps, size)[p.low], p.high) == CountOf(Table(qs, size)[p.low], p.high) == multiset(ps)[p]
  {
    assert NoZeroHigh(qs) by {
      forall i | 0 <= i < |qs| ensures qs[i].high != 0 {
        assert qs[i] in multiset(qs);
        assert qs[i] in ps;
      }
    }
    NoZeroHighNotLate(ps);
    NoZeroHighNotLate(qs);
    TableRefinesLua(ps, size);
    TableRefinesLua(qs, size);
    LuaCounts(ps, p);
    LuaCounts(qs, p);
  }

  /** In every bucket: used keys first, without duplicates. */
  lemma TableWellFormed(ps: seq<Packet>, size: nat, l: u16)
    ensures WellFormed(Table(ps, size)[l])
    ensures forall h: u16 :: h != 0 ==> (Has(Table(ps, size)[l], h) <==> Packet(l, h) in ps)
  {
    CountedWellFormed(Highs(ps, l), size);
    forall h: u16 | h != 0 ensures Has(Table(ps, size)[l], h) <==> Packet(l, h) in ps {
      HighsFromPackets(ps, l, h);
    }
  }

  // ---------------------------------------------------------------- reports

  /** Sum of f over the first n buckets. */
  function SumOver(t: seq<seq<Cell>>, n: nat, f: seq<Cell> -> nat): nat
    requires n <= |t|
  {
    if n == 0 then 0 else SumOver(t, n - 1, f) + f(t[n - 1])
  }

  lemma {:induction false} SumOverUpdate(t: seq<seq<Cell>>, n: nat, f: seq<Cell> -> nat, l: nat, c: seq<Cell>)
    requires n <= |t| && l < |t|
    ensures SumOver(t[l := c], n, f) == SumOver(t, n, f) + if l < n then f(c) - f(t[l]) else 0
  {
    if n > 0 {
      SumOverUpdate(t, n - 1, f, l, c);
    }
  }

  lemma {:induction false} SumOverZero(t: seq<seq<Cell>>, n: nat, f: seq<Cell> -> nat)
    requires n <= |t| && forall i :: 0 <= i < n ==> f(t[i]) == 0
    ensures SumOver(t, n, f) == 0
  {
    if n > 0 {
      SumOverZero(t, n - 1, f);
    }
  }

  /** No packet is lost: all counters together are the number of packets. */
  lemma {:induction false} AllPacketsCounted(ps: seq<Packet>, size: nat)
    ensures SumOver(Table(ps, size), FLOW_NUM, Total) == |ps|
  {
    var t := Table(ps, size);
    if ps == [] {
      forall i | 0 <= i < FLOW_NUM ensures Total(t[i]) == 0 {
        NothingLost(Highs(ps, i), size);
      }
      SumOverZero(t, FLOW_NUM, Total);
    } else {
      var before, p := ps[..|ps| - 1], ps[|ps| - 1];
      AllPacketsCounted(before, size);
      assert ps == before + [p];
      TableNext(before, p, size);
      var u := Table(before, size);
      SumOverUpdate(u, FLOW_NUM, Total, p.low, Hit(u[p.low], p.high));
      HitTotal(u[p.low], p.high);
    }
  }

  function Distinct(ps: seq<Packet>): set<Packet> {
    set p | p in ps
  }

  /** How many of the first n buckets have forgotten their packets with upper half 0. */
  function Forgotten(ps: seq<Packet>, n: nat): nat
    requires n <= FLOW_NUM
  {
    if n == 0 then 0 else Forgotten(ps, n - 1) + if Forgets(ps, n - 1) then 1 else 0
  }

  lemma {:induction false} ForgottenNext(ps: seq<Packet>, p: Packet, n: nat)
    requires n <= FLOW_NUM
    ensures var s := Highs(ps, p.low);
            Forgotten(ps + [p], n) == Forgotten(ps, n) +
              if p.low >= n then 0
              else (if ZeroForgotten(s + [p.high]) then 1 else 0) - (if ZeroForgotten(s) then 1 else 0)
  {
    hide ZeroForgotten;
    if n > 0 {
      ForgottenNext(ps, p, n - 1);
      assert (ps + [p])[..|ps|] == ps;
    }
  }

  /** A new flow of bucket l first appears after the bucket's last packet with upper half 0. */
  predicate Forgets(ps: seq<Packet>, l: u16) {
    ZeroForgotten(Highs(ps, l))
  }

  ghost predicate AnyForgotten(ps: seq<Packet>) {
    exists l: u16 :: Forgets(ps, l)
  }

  lemma {:induction false} ForgottenSome(ps: seq<Packet>, n: nat)
    requires n <= FLOW_NUM
    ensures Forgotten(ps, n) > 0 <==> exists l: u16 :: l < n && Forgets(ps, l)
  {
    if n > 0 {
      ForgottenSome(ps, n - 1);
      var last: u16 := n - 1;
      assert Forgotten(ps, n) == Forgotten(ps, n - 1) + if Forgets(ps, last) then 1 else 0;
      hide Forgets;
      if l: u16 :| l < n && Forgets(ps, l) {
        assert l < n - 1 || l == last;
      }
    }
  }

  lemma NoZeroHighNotForgotten(ps: seq<Packet>)
    requires NoZeroHigh(ps)
    ensures !AnyForgotten(ps)
  {
    NoZeroHighNotLate(ps);
    forall l: u16 ensures !Forgets(ps, l) {
      var s := Highs(ps, l);
      assert 0 !in s;
      assert forall j :: 0 <= j < |s| ==> 0 !in s[..j];
    }
  }

  lemma FlowsNext(s: seq<u16>, h: u16)
    ensures |Flows(s + [h])| == |Flows(s)| + if h in s then 0 else 1
  {
    assert Flows(s + [h]) == Flows(s) + {h};
    assert h in s <==> h in Flows(s);
  }

  /** The early-stop report falls short of the number of distinct 32-bit hashes seen by one
      for every bucket that has forgotten its packets with upper half 0. */
  lemma {:induction false} EarlyStopMisses(ps: seq<Packet>, size: nat)
    ensures SumOver(Table(ps, size), FLOW_NUM, Active) + Forgotten(ps, FLOW_NUM) == |Distinct(ps)|
  {
    hide Active, ZeroForgotten, Flows, Hit, Forgotten, SumOver;
    var t := Table(ps, size);
    if ps == [] {
      forall i | 0 <= i < FLOW_NUM ensures Active(t[i]) == 0 && !Forgets(ps, i) {
        ActiveCountsFlows([], size);
        assert |Flows([])| == 0 by { NoFlows(); }
      }
      SumOverZero(t, FLOW_NUM, Active);
      ForgottenSome(ps, FLOW_NUM);
      assert Distinct(ps) == {};
    } else {
      var before, p := ps[..|ps| - 1], ps[|ps| - 1];
      EarlyStopMisses(before, size);
      assert ps == before + [p];
      TableNext(before, p, size);
      ForgottenNext(before, p, FLOW_NUM);
      var u, s := Table(before, size), Highs(before, p.low);
      ActiveNext(s, p.high, size);
      SumOverUpdate(u, FLOW_NUM, Active, p.low, Hit(u[p.low], p.high));
      HighsFromPackets(before, p.low, p.high);
      assert Distinct(ps) == Distinct(before) + {p};
    }
  }

  lemma ActiveNext(s: seq<u16>, h: u16, size: nat)
    ensures Active(Hit(Counted(s, size), h)) + (if ZeroForgotten(s + [h]) then 1 else 0) ==
            Active(Counted(s, size)) + (if ZeroForgotten(s) then 1 else 0) + if h in s then 0 else 1
  {
    hide Active, Counted, ZeroForgotten, Flows;
    OneMore(s, h, size, 0);
    ActiveCountsFlows(s, size);
    ActiveCountsFlows(s + [h], size);
    FlowsNext(s, h);
  }

  lemma NoFlows()
    ensures |Flows([])| == 0
  {
    assert Flows([]) == {};
  }

  /** So it is exact if and only if no bucket has. */
  lemma EarlyStopCountsFlows(ps: seq<Packet>, size: nat)
    ensures SumOver(Table(ps, size), FLOW_NUM, Active) + Forgotten(ps, FLOW_NUM) == |Distinct(ps)|
    ensures SumOver(Table(ps, size), FLOW_NUM, Active) == |Distinct(ps)| <==> !AnyForgotten(ps)
  {
    hide Table, SumOver, Active, Forgets;
    EarlyStopMisses(ps, size);
    ForgottenSome(ps, FLOW_NUM);
    if l: u16 :| Forgets(ps, l) {
      assert l < FLOW_NUM;
    }
  }

  /** An input on which it is not: the second flow takes over the cell of the first. */
  lemma ForgottenFlow(size: nat)
    ensures var ps := [Packet(5, 0), Packet(5, 7)];
            |Distinct(ps)| == 2 && SumOver(Table(ps, size), FLOW_NUM, Active) == 1
  {
    var ps := [Packet(5, 0), Packet(5, 7)];
    assert Distinct(ps) == {Packet(5, 0), Packet(5, 7)};
    assert ps[..1] == [Packet(5, 0)] && ps[..1][..0] == [];
    forall l: u16 ensures Forgets(ps, l) <==> l == 5 {
      assert Highs(ps[..1], l) == if l == 5 then [0] else [];
      assert Highs(ps, l) == if l == 5 then [0, 7] else [];
      assert [0, 7][..1] == [0] && [0, 7][1..] == [7];
      assert TakesOver([0, 7], 1);
    }
    OneForgets(ps, 5, FLOW_NUM);
    EarlyStopCountsFlows(ps, size);
  }

  lemma {:induction false} OneForgets(ps: seq<Packet>, k: u16, n: nat)
    requires n <= FLOW_NUM && forall l: u16 :: Forgets(ps, l) <==> l == k
    ensures Forgotten(ps, n) == if k < n then 1 else 0
  {
    hide Forgets;
    if n > 0 {
      OneForgets(ps, k, n - 1);
    }
  }
}
