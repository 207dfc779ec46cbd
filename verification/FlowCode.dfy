/** The three table designs as the monitor runs them: chains of flow entries on the
    heap, counted in place, one packet at a time. */
module FlowCode {
  import opened FlowCells
  import opened FlowTables

  /** struct flow_entry */
  class FlowEntry {
    var rssHigh: u16
    var ctr: nat
    var next: FlowEntry?
    ghost const home: FlowList // the chain this entry belongs to

    /** rte_calloc */
    constructor (ghost home: FlowList)
      ensures rssHigh == 0 && ctr == 0 && next == null && this.home == home
    {
      rssHigh := 0;
      ctr := 0;
      next := null;
      this.home := home;
    }
  }

  /** One chain of entries, from its first entry on. */
  class FlowList {
    var first: FlowEntry?
    ghost var spine: seq<FlowEntry>

    ghost predicate Valid()
      reads this, spine
    {
      spine != [] && first == spine[0] && spine[|spine| - 1].next == null &&
      (forall i :: 0 <= i < |spine| - 1 ==> spine[i].next == spine[i + 1]) &&
      (forall i, j :: 0 <= i < j < |spine| ==> spine[i] != spine[j]) &&
      (forall i :: 0 <= i < |spine| ==> spine[i].home == this)
    }

    ghost function Cells(): (c: seq<Cell>)
      reads this, spine
      ensures |c| == |spine| && forall i :: 0 <= i < |c| ==> c[i] == Cell(spine[i].rssHigh, spine[i].ctr)
    {
      seq(|spine|, i requires 0 <= i < |spine| reads this, spine => Cell(spine[i].rssHigh, spine[i].ctr))
    }

    /** One bucket of flow_struct_init: a chain of size empty cells. */
    constructor (size: nat)
      requires size > 0
      ensures Valid() && Cells() == Empty(size) && fresh(spine)
    {
      first := null;
      spine := [];
      new;
      var f := new FlowEntry(this);
      first := f;
      spine := [f];
      var j := 1;
      while j < size
        invariant 1 <= j <= size && |spine| == j && Valid() && f == spine[j - 1] && fresh(spine)
        invariant forall i :: 0 <= i < j ==> spine[i].rssHigh == 0 && spine[i].ctr == 0
      {
        var g := new FlowEntry(this);
        f.next := g;
        f := g;
        spine := spine + [g];
        j := j + 1;
      }
    }

    /** Appends a fresh entry for key h after the last entry last. */
    method Append(last: FlowEntry, h: u16)
      requires Valid() && last == spine[|spine| - 1]
      modifies this, last
      ensures Valid() && first == old(first) && Cells() == old(Cells()) + [Cell(h, 1)]
      ensures spine[..|spine| - 1] == old(spine) && fresh(spine[|spine| - 1])
    {
      var f := new FlowEntry(this);
      f.rssHigh := h;
      f.ctr := 1;
      last.next := f;
      spine := spine + [f];
    }

    /** Counts a packet in entry f, the first that is free or has the key. */
    method Take(f: FlowEntry, h: u16, ghost i: nat)
      requires Valid() && i < |spine| && f == spine[i] && (f.rssHigh == 0 || f.rssHigh == h)
      requires forall j :: 0 <= j < i ==> Cells()[j].high != 0 && Cells()[j].high != h
      modifies f
      ensures Valid() && Cells() == Hit(old(Cells()), h)
    {
      ghost var c := Cells();
      if f.rssHigh == 0 {
        f.rssHigh := h;
      }
      f.ctr := f.ctr + 1;
      HitAt(c, h, i);
      assert Cells() == c[i := Cell(h, c[i].ctr + 1)];
    }

    /** The search of linked_list: free cells are tested for first. */
    method CountLinkedList(h: u16)
      requires Valid()
      modifies this, spine
      ensures Valid() && first == old(first) && Cells() == Hit(old(Cells()), h)
      ensures forall e :: e in spine ==> e in old(spine) || fresh(e)
    {
      ghost var c := Cells();
      var f := first;
      var tmp := first;
      ghost var i := 0;
      while f != null
        invariant 0 <= i <= |spine| && (f == if i < |spine| then spine[i] else null)
        invariant i > 0 ==> tmp == spine[i - 1]
        invariant forall j :: 0 <= j < i ==> c[j].high != 0 && c[j].high != h
        decreases |spine| - i
      {
        if f.rssHigh == 0 {
          Take(f, h, i);
          return;
        } else if f.rssHigh == h {
          Take(f, h, i);
          return;
        } else {
          tmp := f;
          f := f.next;
          i := i + 1;
        }
      }
      HitPast(c, h);
      Append(tmp, h);
    }

    /** The search of hash_list: the key is tested for first. */
    method CountHashList(h: u16)
      requires Valid()
      modifies this, spine
      ensures Valid() && first == old(first) && Cells() == Hit(old(Cells()), h)
      ensures forall e :: e in spine ==> e in old(spine) || fresh(e)
    {
      ghost var c := Cells();
      var f := first;
      var tmp := first;
      ghost var i := 0;
      while f != null
        invariant 0 <= i <= |spine| && (f == if i < |spine| then spine[i] else null)
        invariant i > 0 ==> tmp == spine[i - 1]
        invariant forall j :: 0 <= j < i ==> c[j].high != 0 && c[j].high != h
        decreases |spine| - i
      {
        if f.rssHigh == h {
          Take(f, h, i);
          return;
        } else if f.rssHigh == 0 {
          Take(f, h, i);
          return;
        } else {
          tmp := f;
          f := f.next;
          i := i + 1;
        }
      }
      HitPast(c, h);
      Append(tmp, h);
    }

    /** The inner loop of the LINKED_LIST report: stops at the first zero counter. */
    method CountActive() returns (n: nat)
      requires Valid()
      ensures n == Active(Cells())
    {
      var f := first;
      n := 0;
      ghost var i := 0;
      assert Cells()[0..] == Cells();
      while f != null && f.ctr > 0
        invariant 0 <= i <= |spine| && (f == if i < |spine| then spine[i] else null)
        invariant n + Active(Cells()[i..]) == Active(Cells())
        decreases |spine| - i
      {
        assert Cells()[i..][1..] == Cells()[i + 1..];
        n := n + 1;
        f := f.next;
        i := i + 1;
      }
    }

    /** The inner loop of the HASH_LIST report: entries in use, and their packets. */
    method CountAll() returns (n: nat, sum: nat)
      requires Valid()
      ensures n == Used(Cells()) && sum == Total(Cells())
    {
      hide Used, Total;
      var f := first;
      n, sum := 0, 0;
      ghost var i := 0;
      ghost var c := Cells();
      assert c[0..] == c;
      while f != null
        invariant 0 <= i <= |spine| && (f == if i < |spine| then spine[i] else null)
        invariant n + Used(c[i..]) == Used(c) && sum + Total(c[i..]) == Total(c)
        decreases |spine| - i
      {
        FirstOf(c, i);
        if f.ctr > 0 {
          n := n + 1;
        }
        sum := sum + f.ctr;
        f := f.next;
        i := i + 1;
      }
      FirstOf(c, i);
    }
  }

  lemma FirstOf(c: seq<Cell>, i: nat)
    requires i <= |c|
    ensures i == |c| ==> Used(c[i..]) == Total(c[i..]) == 0
    ensures i < |c| ==> Used(c[i..]) == (if c[i].ctr > 0 then 1 else 0) + Used(c[i + 1..])
    ensures i < |c| ==> Total(c[i..]) == c[i].ctr + Total(c[i + 1..])
  {
    if i < |c| {
      assert c[i..][1..] == c[i + 1..];
    }
  }

  /** Cells with packets. */
  function Used(c: seq<Cell>): nat {
    if c == [] then 0 else (if c[0].ctr > 0 then 1 else 0) + Used(c[1..])
  }

  /** In a well-formed bucket there is nothing behind the first zero counter. */
  lemma {:induction false} UsedIsActive(c: seq<Cell>)
    requires WellFormed(c)
    ensures Used(c) == Active(c)
  {
    if c != [] {
      var t := c[1..];
      assert forall i :: 0 <= i < |t| ==> t[i] == c[i + 1];
      if c[0].ctr == 0 {
        NoneUsed(t);
      } else {
        UsedIsActive(t);
      }
    }
  }

  lemma {:induction false} NoneUsed(c: seq<Cell>)
    requires forall i :: 0 <= i < |c| ==> c[i] == Cell(0, 0)
    ensures Used(c) == 0
  {
    if c != [] {
      NoneUsed(c[1..]);
    }
  }

  // ---------------------------------------------------------------- LINKED_LIST

  ghost function Nodes(l: FlowList): set<object>
    reads l
  {
    var entries: set<object> := set f: FlowEntry | f in l.spine;
    {l} + entries
  }

  method NewList(size: nat) returns (l: FlowList)
    requires size > 0
    ensures fresh(Nodes(l)) && l in Nodes(l) && l.Valid() && l.Cells() == Empty(size)
  {
    l := new FlowList(size);
  }

  /** flows[] of the LINKED_LIST design. */
  class LinkedListTable {
    const flows: array<FlowList?>
    ghost const size: nat
    ghost var seen: seq<Packet>
    ghost var Repr: set<object>

    /** The first k chains are separate, valid and hold the cells t. */
    ghost predicate Holds(k: nat, t: seq<seq<Cell>>)
      requires k <= FLOW_NUM && |t| == FLOW_NUM
      reads this, Repr
    {
      this in Repr && flows in Repr && flows.Length == FLOW_NUM &&
      (forall l :: 0 <= l < k ==> flows[l] != null && flows[l] in Repr) &&
      (forall l :: 0 <= l < k ==> Nodes(flows[l]) <= Repr && flows[l].Valid() && flows[l].Cells() == t[l]) &&
      (forall l, m :: 0 <= l < m < k ==> flows[l] != flows[m])
    }

    ghost predicate Valid()
      reads this, Repr
      ensures Valid() ==> this in Repr
    {
      size > 0 && Holds(FLOW_NUM, Table(seen, size))
    }

    /** flow_struct_init */
    constructor (size: nat)
      requires size > 0
      ensures Valid() && seen == [] && this.size == size && fresh(Repr)
    {
      this.size := size;
      flows := new FlowList?[FLOW_NUM](_ => null);
      seen := [];
      Repr := {};
      new;
      Repr := {this, flows};
      ghost var t := Table([], size);
      assert forall l :: 0 <= l < FLOW_NUM ==> t[l] == Empty(size);
      hide Table;
      var i := 0;
      while i < FLOW_NUM
        invariant 0 <= i <= FLOW_NUM && fresh(Repr) && seen == [] && Holds(i, t)
      {
        Allocate(i, size, t);
        i := i + 1;
      }
    }

    method Allocate(i: nat, size: nat, ghost t: seq<seq<Cell>>)
      requires size > 0 && i < FLOW_NUM && |t| == FLOW_NUM && t[i] == Empty(size) && Holds(i, t)
      modifies this`Repr, flows
      ensures Holds(i + 1, t) && fresh(Repr - old(Repr))
    {
      hide Empty, Nodes, FlowList.Valid, FlowList.Cells;
      var l := NewList(size);
      flows[i] := l;
      Repr := Repr + Nodes(l);
    }

    /** The per-packet body of linked_list. */
    method Count(p: Packet)
      requires Valid()
      modifies Repr
      ensures Valid() && fresh(Repr - old(Repr)) && seen == old(seen) + [p]
    {
      hide Table, Hit;
      var f := flows[p.low];
      f.CountLinkedList(p.high);
      TableNext(seen, p, size);
      seen := seen + [p];
      Repr := Repr + Nodes(f);
    }

    /** The flow count of handler. */
    method CountFlows() returns (sum: nat)
      requires Valid()
      ensures sum + Forgotten(seen, FLOW_NUM) == |Distinct(seen)|
      ensures sum == |Distinct(seen)| <==> !AnyForgotten(seen)
    {
      hide Active;
      sum := 0;
      ghost var t := Table(seen, size);
      var i := 0;
      while i < FLOW_NUM
        invariant 0 <= i <= FLOW_NUM && sum == SumOver(t, i, Active)
      {
        var n := flows[i].CountActive();
        sum := sum + n;
        i := i + 1;
      }
      EarlyStopCountsFlows(seen, size);
    }

    /** The report of the run-to-completion monitor, which walks the chains to their ends. */
    method CountEntries() returns (fls: nat, sum: nat)
      requires Valid()
      ensures sum == |seen|
      ensures fls + Forgotten(seen, FLOW_NUM) == |Distinct(seen)|
      ensures fls == |Distinct(seen)| <==> !AnyForgotten(seen)
    {
      hide Used, Total, Active, Table, Nodes, FlowList.Valid, FlowList.Cells;
      fls, sum := 0, 0;
      ghost var t := Table(seen, size);
      var i := 0;
      while i < FLOW_NUM
        invariant 0 <= i <= FLOW_NUM && fls == SumOver(t, i, Used) && sum == SumOver(t, i, Total)
      {
        var n, s := flows[i].CountAll();
        fls := fls + n;
        sum := sum + s;
        i := i + 1;
      }
      AllPacketsCounted(seen, size);
      UsedIsActiveEverywhere(seen, size);
      EarlyStopCountsFlows(seen, size);
    }
  }

  // ---------------------------------------------------------------- HASH_LIST

  /** struct pkt_count of HASH_LIST: two flows in place, the others in a chain. */
  datatype PktCount = PktCount(hiF1: u16, hiF2: u16, ctr0: nat, ctr1: nat, flows: FlowList?)

  ghost function BucketCells(b: PktCount): seq<Cell>
    requires b.flows != null
    reads b.flows, b.flows.spine
  {
    [Cell(b.hiF1, b.ctr0), Cell(b.hiF2, b.ctr1)] + b.flows.Cells()
  }

  lemma BucketParts(b: PktCount)
    requires b.flows != null
    ensures BucketCells(b) == [Cell(b.hiF1, b.ctr0), Cell(b.hiF2, b.ctr1)] + b.flows.Cells()
    ensures BucketCells(b)[2..] == b.flows.Cells()
  {
  }

  /** The two slots behave like two more cells in front of the chain. */
  lemma SlotsAreCells(c: seq<Cell>, h: u16)
    requires |c| >= 2
    ensures c[0].high == 0 || c[0].high == h ==> Hit(c, h) == c[0 := Cell(h, c[0].ctr + 1)]
    ensures c[0].high != 0 && c[0].high != h && (c[1].high == 0 || c[1].high == h) ==>
              Hit(c, h) == c[1 := Cell(h, c[1].ctr + 1)]
    ensures c[0].high != 0 && c[0].high != h && c[1].high != 0 && c[1].high != h ==>
              Hit(c, h) == c[..2] + Hit(c[2..], h)
  {
    if c[0].high == 0 || c[0].high == h {
      HitAt(c, h, 0);
    } else if c[1].high == 0 || c[1].high == h {
      HitAt(c, h, 1);
    } else {
      assert c[1..][1..] == c[2..];
    }
  }

  lemma SlotsCount(c: seq<Cell>)
    requires |c| >= 2
    ensures Used(c) == (if c[0].ctr > 0 then 1 else 0) + (if c[1].ctr > 0 then 1 else 0) + Used(c[2..])
    ensures Total(c) == c[0].ctr + c[1].ctr + Total(c[2..])
  {
    assert c[1..][1..] == c[2..];
  }

  lemma {:induction false} SumOverSame(t: seq<seq<Cell>>, n: nat, f: seq<Cell> -> nat, g: seq<Cell> -> nat)
    requires n <= |t| && forall i :: 0 <= i < n ==> f(t[i]) == g(t[i])
    ensures SumOver(t, n, f) == SumOver(t, n, g)
  {
    if n > 0 {
      SumOverSame(t, n - 1, f, g);
    }
  }

  method NewBucket(entries: nat) returns (b: PktCount)
    requires entries > 0
    ensures b.flows != null && fresh(Nodes(b.flows)) && b.flows in Nodes(b.flows) && b.flows.Valid()
    ensures BucketCells(b) == [Cell(0, 0), Cell(0, 0)] + Empty(entries)
  {
    var l := new FlowList(entries);
    b := PktCount(0, 0, 0, 0, l);
  }

  /** The search of hash_list as far as the two slots. */
  method CountInSlots(b: PktCount, h: u16) returns (r: PktCount, hit: bool)
    requires b.flows != null
    ensures r.flows == b.flows
    ensures hit ==> BucketCells(r) == Hit(BucketCells(b), h)
    ensures !hit ==> r == b && Hit(BucketCells(b), h) == BucketCells(b)[..2] + Hit(b.flows.Cells(), h)
  {
    ghost var c := BucketCells(b);
    BucketParts(b);
    SlotsAreCells(c, h);
    hide Hit, BucketCells, FlowList.Cells;
    r, hit := b, true;
    if b.hiF1 == 0 {
      r := b.(hiF1 := h, ctr0 := b.ctr0 + 1);
    } else if b.hiF2 == 0 && b.hiF1 != h {
      r := b.(hiF2 := h, ctr1 := b.ctr1 + 1);
    } else {
      if b.hiF1 == h {
        r := b.(ctr0 := b.ctr0 + 1);
      } else if b.hiF2 == h {
        r := b.(ctr1 := b.ctr1 + 1);
      } else {
        hit := false;
      }
    }
    BucketParts(r);
  }

  /** pkt_ctr[] of the HASH_LIST design. */
  class HashListTable {
    const pktCtr: array<PktCount>
    ghost const entries: nat // preallocated chain entries per bucket
    ghost var seen: seq<Packet>
    ghost var Repr: set<object>

    /** The first k buckets are separate, valid and hold the cells t. */
    ghost predicate Holds(k: nat, t: seq<seq<Cell>>)
      requires k <= FLOW_NUM && |t| == FLOW_NUM
      reads this, Repr
    {
      this in Repr && pktCtr in Repr && pktCtr.Length == FLOW_NUM &&
      (forall l :: 0 <= l < k ==> pktCtr[l].flows != null && pktCtr[l].flows in Repr) &&
      (forall l :: 0 <= l < k ==>
        Nodes(pktCtr[l].flows) <= Repr && pktCtr[l].flows.Valid() && BucketCells(pktCtr[l]) == t[l]) &&
      (forall l, m :: 0 <= l < m < k ==> pktCtr[l].flows != pktCtr[m].flows)
    }

    ghost predicate Valid()
      reads this, Repr
      ensures Valid() ==> this in Repr
    {
      entries > 0 && Holds(FLOW_NUM, Table(seen, 2 + entries))
    }

    /** The HASH_LIST initialisation of port_init. */
    constructor (entries: nat)
      requires entries > 0
      ensures Valid() && seen == [] && this.entries == entries && fresh(Repr)
    {
      this.entries := entries;
      pktCtr := new PktCount[FLOW_NUM](_ => PktCount(0, 0, 0, 0, null));
      seen := [];
      Repr := {};
      new;
      Repr := {this, pktCtr};
      ghost var t := Table([], 2 + entries);
      assert [Cell(0, 0), Cell(0, 0)] + Empty(entries) == Empty(2 + entries);
      assert forall l :: 0 <= l < FLOW_NUM ==> t[l] == [Cell(0, 0), Cell(0, 0)] + Empty(entries);
      hide Table;
      var i := 0;
      while i < FLOW_NUM
        invariant 0 <= i <= FLOW_NUM && fresh(Repr) && seen == [] && Holds(i, t)
      {
        Allocate(i, entries, t);
        i := i + 1;
      }
    }

    method Allocate(i: nat, entries: nat, ghost t: seq<seq<Cell>>)
      requires entries > 0 && i < FLOW_NUM && |t| == FLOW_NUM && Holds(i, t)
      requires t[i] == [Cell(0, 0), Cell(0, 0)] + Empty(entries)
      modifies this`Repr, pktCtr
      ensures Holds(i + 1, t) && fresh(Repr - old(Repr))
    {
      hide Empty, BucketCells, Nodes, FlowList.Valid, FlowList.Cells;
      var b := NewBucket(entries);
      pktCtr[i] := b;
      Repr := Repr + Nodes(b.flows);
    }

    /** The search of hash_list in bucket l. */
    method CountInBucket(l: u16, h: u16)
      requires pktCtr.Length == FLOW_NUM && pktCtr[l].flows != null && pktCtr[l].flows.Valid()
      modifies pktCtr, pktCtr[l].flows, pktCtr[l].flows.spine
      ensures pktCtr[l].flows == old(pktCtr[l].flows) && pktCtr[l].flows.Valid()
      ensures BucketCells(pktCtr[l]) == Hit(old(BucketCells(pktCtr[l])), h)
      ensures forall m :: 0 <= m < FLOW_NUM && m != l ==> pktCtr[m] == old(pktCtr[m])
      ensures forall e :: e in pktCtr[l].flows.spine ==> e in old(pktCtr[l].flows.spine) || fresh(e)
    {
      hide Hit, BucketCells, FlowList.Valid, FlowList.Cells;
      var b, hit := CountInSlots(pktCtr[l], h);
      pktCtr[l] := b;
      if !hit {
        BucketParts(b);
        b.flows.CountHashList(h);
        BucketParts(b);
      }
    }

    /** The per-packet body of hash_list. */
    method Count(p: Packet)
      requires Valid()
      modifies Repr
      ensures Valid() && fresh(Repr - old(Repr)) && seen == old(seen) + [p]
    {
      hide Table, Hit, BucketCells, FlowList.Cells;
      TableNext(seen, p, 2 + entries);
      ghost var t := Table(seen + [p], 2 + entries);
      CountInBucket(p.low, p.high);
      assert BucketCells(pktCtr[p.low]) == t[p.low];
      seen := seen + [p];
      Repr := Repr + Nodes(pktCtr[p.low].flows);
    }

    /** One bucket of the report of handler. */
    method CountBucket(l: u16) returns (n: nat, sum: nat)
      requires Valid()
      ensures n == Used(Table(seen, 2 + entries)[l]) && sum == Total(Table(seen, 2 + entries)[l])
    {
      hide Table;
      ghost var c := BucketCells(pktCtr[l]);
      SlotsCount(c);
      assert c[2..] == pktCtr[l].flows.Cells();
      hide Used, Total;
      n, sum := 0, 0;
      if pktCtr[l].ctr0 > 0 {
        n := n + 1;
        sum := sum + pktCtr[l].ctr0;
      }
      if pktCtr[l].ctr1 > 0 {
        n := n + 1;
        sum := sum + pktCtr[l].ctr1;
      }
      var k, s := pktCtr[l].flows.CountAll();
      n := n + k;
      sum := sum + s;
    }

    /** The flow and packet counts of handler. */
    method CountFlows() returns (flows: nat, sum: nat)
      requires Valid()
      ensures sum == |seen|
      ensures flows + Forgotten(seen, FLOW_NUM) == |Distinct(seen)|
      ensures flows == |Distinct(seen)| <==> !AnyForgotten(seen)
    {
      hide Active, Used, Total;
      flows, sum := 0, 0;
      ghost var t := Table(seen, 2 + entries);
      var i := 0;
      while i < FLOW_NUM
        invariant 0 <= i <= FLOW_NUM && flows == SumOver(t, i, Used) && sum == SumOver(t, i, Total)
      {
        var n, s := CountBucket(i);
        flows := flows + n;
        sum := sum + s;
        i := i + 1;
      }
      AllPacketsCounted(seen, 2 + entries);
      UsedIsActiveEverywhere(seen, 2 + entries);
      EarlyStopCountsFlows(seen, 2 + entries);
    }
  }

  lemma UsedIsActiveEverywhere(ps: seq<Packet>, size: nat)
    ensures SumOver(Table(ps, size), FLOW_NUM, Used) == SumOver(Table(ps, size), FLOW_NUM, Active)
  {
    hide Used, Active;
    var t := Table(ps, size);
    forall l | 0 <= l < FLOW_NUM ensures Used(t[l]) == Active(t[l]) {
      TableWellFormed(ps, size, l);
      UsedIsActive(t[l]);
    }
    SumOverSame(t, FLOW_NUM, Used, Active);
  }

  // ---------------------------------------------------------------- DOUBLE_HASH

  /** pkt_ctr[] of the DOUBLE_HASH design. */
  class DoubleHashTable {
    const pktCtr: array<Slots>
    ghost var seen: seq<Packet>

    ghost predicate Valid()
      reads this, pktCtr
    {
      pktCtr.Length == FLOW_NUM && forall l: u16 :: pktCtr[l] == DoubleCounted(Highs(seen, l))
    }

    constructor ()
      ensures Valid() && seen == [] && fresh(pktCtr)
    {
      pktCtr := new Slots[FLOW_NUM](_ => Slots(0, 0, 0, 0, 0));
      seen := [];
    }

    /** The search of double_hash in bucket l. */
    method CountInBucket(l: u16, h: u16)
      requires pktCtr.Length == FLOW_NUM
      modifies pktCtr
      ensures pktCtr[..] == old(pktCtr[..])[l := DoubleHit(old(pktCtr[l]), h)]
    {
      var b := pktCtr[l];
      if b.hi1 == 0 {
        pktCtr[l] := b.(hi1 := h, ctr0 := b.ctr0 + 1);
      } else if b.hi2 == 0 && b.hi1 != h {
        pktCtr[l] := b.(hi2 := h, ctr1 := b.ctr1 + 1);
      } else {
        if b.hi1 == h {
          pktCtr[l] := b.(ctr0 := b.ctr0 + 1);
        } else if b.hi2 == h {
          pktCtr[l] := b.(ctr1 := b.ctr1 + 1);
        } else {
          pktCtr[l] := b.(ctr2 := b.ctr2 + 1);
        }
      }
    }

    /** The per-packet body of double_hash. */
    method Count(p: Packet)
      requires Valid()
      modifies this, pktCtr
      ensures Valid() && seen == old(seen) + [p]
    {
      hide DoubleHit, DoubleCounted, Highs;
      ghost var before := pktCtr[..];
      CountInBucket(p.low, p.high);
      forall l: u16 ensures pktCtr[l] == DoubleCounted(Highs(seen + [p], l)) {
        DoubleNext(seen, p, l);
        assert pktCtr[..][l] == pktCtr[l] && before[l] == DoubleCounted(Highs(seen, l));
      }
      seen := seen + [p];
    }

    /** The total of miscounted packets of handler. */
    method CountMiscounted() returns (sum: nat)
      requires Valid()
      ensures sum == Overflow(seen, FLOW_NUM)
    {
      sum := 0;
      var i := 0;
      while i < FLOW_NUM
        invariant 0 <= i <= FLOW_NUM && sum == Overflow(seen, i)
      {
        sum := sum + pktCtr[i].ctr2;
        i := i + 1;
      }
    }
  }

  function Overflow(ps: seq<Packet>, n: nat): nat
    requires n <= FLOW_NUM
  {
    if n == 0 then 0 else Overflow(ps, n - 1) + DoubleCounted(Highs(ps, n - 1)).ctr2
  }

  /** The packets of flows that are not among the first two of their bucket. */
  function Miscounted(ps: seq<Packet>, n: nat): nat
    requires n <= FLOW_NUM
  {
    if n == 0 then 0 else
    var s := Highs(ps, n - 1);
    Miscounted(ps, n - 1) + OfOthers(s, Arrivals(s))
  }

  /** The shortfalls of the first n buckets. */
  function Shortfalls(ps: seq<Packet>, n: nat): int
    requires n <= FLOW_NUM
  {
    if n == 0 then 0 else Shortfalls(ps, n - 1) + Shortfall(Highs(ps, n - 1))
  }

  /** The reported total is exact up to the shortfalls of the buckets, and without packets
      with upper half 0 there are none. */
  lemma {:induction false} OverflowIsMiscounted(ps: seq<Packet>, n: nat)
    requires n <= FLOW_NUM
    ensures Miscounted(ps, n) == Overflow(ps, n) + Shortfalls(ps, n)
    ensures NoZeroHigh(ps) ==> Shortfalls(ps, n) == 0
  {
    hide Shortfall, DoubleCounted, OfOthers;
    if n > 0 {
      OverflowIsMiscounted(ps, n - 1);
      var s := Highs(ps, n - 1);
      OverflowShortfall(s);
      if NoZeroHigh(ps) {
        NoZeroHighNotLate(ps);
        NoShortfall(s);
      }
    }
  }

  lemma NoShortfall(s: seq<u16>)
    requires 0 !in s
    ensures Shortfall(s) == 0
  {
    ArrivalsAreKeys(s);
  }

  /** Every bucket of DOUBLE_HASH summarises the same bucket of HASH_LIST, after any packets. */
  lemma TablesAgree(ps: seq<Packet>, l: u16, entries: nat)
    ensures Summarises(DoubleCounted(Highs(ps, l)), Table(ps, 2 + entries)[l])
  {
    DoubleHashSimulates(Highs(ps, l), 2 + entries);
  }

  // ---------------------------------------------------------------- against the plain map

  /** Reading a flow's counter off the heap gives the plain map's count for every flow,
      or there is a late flow. In every bucket no key occurs twice. */
  lemma HashListRefinesLua(t: HashListTable)
    requires t.Valid()
    ensures forall l: u16 :: t.pktCtr[l].flows != null && WellFormed(BucketCells(t.pktCtr[l]))
    ensures (forall p: Packet :: CountOf(BucketCells(t.pktCtr[p.low]), p.high) == Lookup(Lua(t.seen), p)) <==>
            !AnyLateFlow(t.seen)
  {
    hide Table, BucketCells, WellFormed, Lookup, Lua, AnyLateFlow, Nodes, FlowList.Valid;
    var table := Table(t.seen, 2 + t.entries);
    TableRefinesLua(t.seen, 2 + t.entries);
    forall l: u16 ensures WellFormed(table[l]) {
      TableWellFormed(t.seen, 2 + t.entries, l);
    }
    assert forall l: u16 :: BucketCells(t.pktCtr[l]) == table[l];
  }

  lemma LinkedListRefinesLua(t: LinkedListTable)
    requires t.Valid()
    ensures forall l: u16 :: t.flows[l] != null && WellFormed(t.flows[l].Cells())
    ensures (forall p: Packet :: CountOf(t.flows[p.low].Cells(), p.high) == Lookup(Lua(t.seen), p)) <==>
            !AnyLateFlow(t.seen)
  {
    hide Table, WellFormed, Lookup, Lua, AnyLateFlow, Nodes, FlowList.Valid, FlowList.Cells;
    var table := Table(t.seen, t.size);
    TableRefinesLua(t.seen, t.size);
    forall l: u16 ensures WellFormed(table[l]) {
      TableWellFormed(t.seen, t.size, l);
    }
    assert forall l: u16 :: t.flows[l].Cells() == table[l];
  }

  /** Two tables that got the same packets in every bucket, however interleaved, hold the same. */
  lemma InterleavingIrrelevant(a: HashListTable, b: HashListTable)
    requires a.Valid() && b.Valid() && a.entries == b.entries
    requires forall l: u16 :: Highs(a.seen, l) == Highs(b.seen, l)
    ensures forall l: u16 :: a.pktCtr[l].flows != null && b.pktCtr[l].flows != null &&
                             BucketCells(a.pktCtr[l]) == BucketCells(b.pktCtr[l])
  {
  }

  lemma ChainsIgnoreInterleaving(a: LinkedListTable, b: LinkedListTable)
    requires a.Valid() && b.Valid() && a.size == b.size
    requires forall l: u16 :: Highs(a.seen, l) == Highs(b.seen, l)
    ensures forall l: u16 :: a.flows[l] != null && b.flows[l] != null && a.flows[l].Cells() == b.flows[l].Cells()
  {
  }

  // ---------------------------------------------------------------- whole runs

  /** LINKED_LIST from start to report, with both reports. */
  method MonitorLinkedList(ps: seq<Packet>, entries: nat) returns (flows: nat, fls: nat, sum: nat)
    requires entries > 0
    ensures sum == |ps|
    ensures flows == fls && flows + Forgotten(ps, FLOW_NUM) == |Distinct(ps)|
    ensures flows == |Distinct(ps)| <==> !AnyForgotten(ps)
  {
    hide AnyForgotten, Forgotten, Distinct;
    var t := new LinkedListTable(entries);
    for i := 0 to |ps|
      invariant t.Valid() && fresh(t.Repr) && t.seen == ps[..i]
    {
      t.Count(ps[i]);
    }
    assert ps[..|ps|] == ps;
    flows := t.CountFlows();
    fls, sum := t.CountEntries();
  }

  /** HASH_LIST from start to report. */
  method MonitorHashList(ps: seq<Packet>, entries: nat) returns (flows: nat, sum: nat)
    requires entries > 0
    ensures sum == |ps|
    ensures flows + Forgotten(ps, FLOW_NUM) == |Distinct(ps)|
    ensures flows == |Distinct(ps)| <==> !AnyForgotten(ps)
  {
    hide AnyForgotten, Forgotten, Distinct;
    var t := new HashListTable(entries);
    for i := 0 to |ps|
      invariant t.Valid() && fresh(t.Repr) && t.seen == ps[..i]
    {
      t.Count(ps[i]);
    }
    assert ps[..|ps|] == ps;
    flows, sum := t.CountFlows();
  }

  /** DOUBLE_HASH from start to report. */
  method MonitorDoubleHash(ps: seq<Packet>) returns (miscounted: nat)
    ensures miscounted + Shortfalls(ps, FLOW_NUM) == Miscounted(ps, FLOW_NUM)
    ensures NoZeroHigh(ps) ==> miscounted == Miscounted(ps, FLOW_NUM)
  {
    hide NoZeroHigh, Miscounted, Overflow, Shortfalls;
    var t := new DoubleHashTable();
    for i := 0 to |ps|
      invariant t.Valid() && fresh(t) && fresh(t.pktCtr) && t.seen == ps[..i]
    {
      t.Count(ps[i]);
    }
    assert ps[..|ps|] == ps;
    miscounted := t.CountMiscounted();
    OverflowIsMiscounted(ps, FLOW_NUM);
  }
}
