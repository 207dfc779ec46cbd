/** The pipelined monitor: rx threads hand bursts to rings, monitors empty the rings,
    count the packets and sleep when they find nothing. Every step of a thread is a
    step of the system, so a run is any interleaving. */
module Pipeline {
  import opened FlowCells
  import opened FlowTables

  const BURST_SIZE := 256 // also MAX_PKT_BURST

  /** A packet buffer, by its place in the pool, and the hash of the packet in it. */
  datatype Mbuf = Mbuf(id: nat, hash: Packet)

  /** rings[t] are the channels of rx thread t; every channel belongs to one rx thread. */
  datatype Config = Config(rings: seq<seq<nat>>, owner: seq<nat>, capacity: nat, pool: set<nat>)

  predicate Wired(cfg: Config) {
    (forall t :: 0 <= t < |cfg.rings| ==> |cfg.rings[t]| > 0) &&
    (forall t, w :: 0 <= t < |cfg.rings| && 0 <= w < |cfg.rings[t]| ==>
      cfg.rings[t][w] < |cfg.owner| && cfg.owner[cfg.rings[t][w]] == t) &&
    (forall c :: 0 <= c < |cfg.owner| ==> cfg.owner[c] < |cfg.rings|)
  }

  /** Where an rx thread is in its loop body: it has received burst; it has enqueued ret
      packets and rest did not fit; it is freeing rest. */
  datatype Stage = Polling | Holding(burst: seq<Mbuf>) | Enqueued(ret: nat, rest: seq<Mbuf>) | Dropping(rest: seq<Mbuf>)

  /** chosen is history: the values worker has taken, one for each burst. */
  datatype RxThread = RxThread(worker: nat, stage: Stage, chosen: seq<nat>)

  /** A monitor that found its ring empty is about to wait, and then waits. */
  datatype Phase = Running | SawEmpty | Waiting

  /** A ring with its monitor. queue and len are the program's; held is the burst the
      monitor is working on. The rest is history: everything enqueued and processed, the
      packets enqueued since the last signal, the distances of past signals, and whether
      a signal came while the monitor was about to wait with packets in the ring. */
  datatype Channel = Channel(queue: seq<Mbuf>, len: nat, phase: Phase, held: seq<Mbuf>,
                             sent: seq<Mbuf>, done: seq<Mbuf>, sinceSignal: nat, distances: seq<nat>, lost: bool)

  /** re[t] counts what the monitors fed by rx thread t have dequeued. received and freed
      are histories; counted lists the packets in the order they entered the table. */
  datatype State = State(rx: seq<RxThread>, chans: seq<Channel>, free: set<nat>, ringLoss: nat, re: seq<nat>,
                         table: seq<Slots>, received: seq<Mbuf>, freed: seq<Mbuf>, counted: seq<Packet>)

  datatype Action =
    | Receive(t: nat, burst: seq<Mbuf>)
    | Enqueue(t: nat)
    | Signal(t: nat)
    | Drop(t: nat)
    | Dequeue(c: nat)
    | Process(c: nat)
    | Block(c: nat)

  function Start(cfg: Config): State {
    State(seq(|cfg.rings|, _ => RxThread(0, Polling, [])),
          seq(|cfg.owner|, _ => Channel([], 0, Running, [], [], [], 0, [], false)),
          cfg.pool, 0, seq(|cfg.rings|, _ => 0), seq(FLOW_NUM, _ => Slots(0, 0, 0, 0, 0)), [], [], [])
  }

  /** How often buffer x is among ms. */
  function Times(ms: seq<Mbuf>, x: nat): nat {
    if ms == [] then 0 else Times(ms[..|ms| - 1], x) + if ms[|ms| - 1].id == x then 1 else 0
  }

  function One(b: bool): nat { if b then 1 else 0 }

  /** The ring an rx thread is working on. */
  function Current(cfg: Config, s: State, t: nat): nat
    requires Wired(cfg) && Shape(cfg, s) && t < |s.rx|
  {
    cfg.rings[t][s.rx[t].worker]
  }

  predicate Shape(cfg: Config, s: State) {
    |s.rx| == |s.re| == |cfg.rings| && |s.chans| == |cfg.owner| && |s.table| == FLOW_NUM &&
    forall t :: 0 <= t < |s.rx| ==> s.rx[t].worker < |cfg.rings[t]|
  }

  ghost predicate Enabled(cfg: Config, s: State, a: Action)
    requires Wired(cfg) && Shape(cfg, s)
  {
    match a
    case Receive(t, burst) =>
      t < |s.rx| && s.rx[t].stage.Polling? && 0 < |burst| <= BURST_SIZE &&
      forall x: nat :: Times(burst, x) <= One(x in s.free)
    case Enqueue(t) => t < |s.rx| && s.rx[t].stage.Holding?
    case Signal(t) => t < |s.rx| && s.rx[t].stage.Enqueued?
    case Drop(t) => t < |s.rx| && s.rx[t].stage.Dropping? && s.rx[t].stage.rest != []
    case Dequeue(c) => c < |s.chans| && s.chans[c].phase.Running? && s.chans[c].held == []
    case Process(c) => c < |s.chans| && s.chans[c].held != []
    case Block(c) => c < |s.chans| && s.chans[c].phase.SawEmpty?
  }

  function Min(a: nat, b: nat): nat { if a < b then a else b }

  function Room(cfg: Config, ch: Channel): nat {
    if |ch.queue| < cfg.capacity then cfg.capacity - |ch.queue| else 0
  }

  /** rte_ring_sp_enqueue_burst: as many as fit, in order. */
  function Accept(ch: Channel, ms: seq<Mbuf>): Channel {
    ch.(queue := ch.queue + ms, sent := ch.sent + ms, sinceSignal := ch.sinceSignal + |ms|)
  }

  /** The len[] bookkeeping after ret packets, with the signal it may send. A waiting
      monitor wakes up; a signal to one that is not waiting yet has no effect. */
  function Notify(ch: Channel, ret: nat): Channel {
    if ch.len + ret >= BURST_SIZE then
      ch.(len := 0, sinceSignal := 0, distances := ch.distances + [ch.sinceSignal],
          phase := if ch.phase.Waiting? then Running else ch.phase,
          lost := if ch.phase.Waiting? then false else ch.lost || (ch.phase.SawEmpty? && ch.queue != []))
    else ch.(len := ch.len + ret)
  }

  /** rte_ring_sc_dequeue_burst. */
  function Take(ch: Channel): Channel {
    var n := Min(BURST_SIZE, |ch.queue|);
    if n > 0 then ch.(queue := ch.queue[n..], held := ch.queue[..n])
    else ch.(phase := SawEmpty, lost := false)
  }

  ghost function Step(cfg: Config, s: State, a: Action): State
    requires Wired(cfg) && Shape(cfg, s) && Enabled(cfg, s, a)
  {
    match a
    case Receive(t, burst) =>
      var worker := (s.rx[t].worker + 1) % |cfg.rings[t]|;
      s.(rx := s.rx[t := RxThread(worker, Holding(burst), s.rx[t].chosen + [worker])],
         free := s.free - (set m | m in burst :: m.id), received := s.received + burst)
    case Enqueue(t) =>
      var c := Current(cfg, s, t);
      var burst := s.rx[t].stage.burst;
      var ret := Min(|burst|, Room(cfg, s.chans[c]));
      s.(rx := s.rx[t := s.rx[t].(stage := Enqueued(ret, burst[ret..]))],
         chans := s.chans[c := Accept(s.chans[c], burst[..ret])])
    case Signal(t) =>
      var c := Current(cfg, s, t);
      var rest := s.rx[t].stage.rest;
      s.(rx := s.rx[t := s.rx[t].(stage := if rest == [] then Polling else Dropping(rest))],
         chans := s.chans[c := Notify(s.chans[c], s.rx[t].stage.ret)], ringLoss := s.ringLoss + |rest|)
    case Drop(t) =>
      var rest := s.rx[t].stage.rest;
      s.(rx := s.rx[t := s.rx[t].(stage := if |rest| == 1 then Polling else Dropping(rest[1..]))],
         free := s.free + {rest[0].id}, freed := s.freed + [rest[0]])
    case Dequeue(c) =>
      var t := cfg.owner[c];
      s.(chans := s.chans[c := Take(s.chans[c])], re := s.re[t := s.re[t] + Min(BURST_SIZE, |s.chans[c].queue|)])
    case Process(c) =>
      var ch := s.chans[c];
      var m := ch.held[0];
      s.(chans := s.chans[c := ch.(held := ch.held[1..], done := ch.done + [m])],
         table := s.table[m.hash.low := DoubleHit(s.table[m.hash.low], m.hash.high)],
         free := s.free + {m.id}, freed := s.freed + [m], counted := s.counted + [m.hash])
    case Block(c) =>
      s.(chans := s.chans[c := s.chans[c].(phase := Waiting)])
  }

  // ---------------------------------------------------------------- sums over threads and rings

  function Sum<T>(s: seq<T>, f: T -> nat): nat {
    if s == [] then 0 else Sum(s[..|s| - 1], f) + f(s[|s| - 1])
  }

  lemma {:induction false} SumUpdate<T>(s: seq<T>, f: T -> nat, i: nat, v: T)
    requires i < |s|
    ensures Sum(s[i := v], f) + f(s[i]) == Sum(s, f) + f(v)
  {
    var k := |s| - 1;
    if i == k {
      assert s[i := v][..k] == s[..k];
    } else {
      assert s[i := v][..k] == s[..k][i := v];
      SumUpdate(s[..k], f, i, v);
    }
  }

  lemma {:induction false} TimesConcat(a: seq<Mbuf>, b: seq<Mbuf>, x: nat)
    ensures Times(a + b, x) == Times(a, x) + Times(b, x)
  {
    if b == [] {
      assert a + b == a;
    } else {
      assert (a + b)[..|a + b| - 1] == a + b[..|b| - 1];
      TimesConcat(a, b[..|b| - 1], x);
    }
  }

  lemma TimesSplit(ms: seq<Mbuf>, n: nat, x: nat)
    requires n <= |ms|
    ensures Times(ms, x) == Times(ms[..n], x) + Times(ms[n..], x)
  {
    assert ms == ms[..n] + ms[n..];
    TimesConcat(ms[..n], ms[n..], x);
  }

  lemma {:induction false} TimesIn(ms: seq<Mbuf>, x: nat)
    ensures Times(ms, x) > 0 <==> exists m :: m in ms && m.id == x
  {
    if ms != [] {
      TimesIn(ms[..|ms| - 1], x);
      assert ms == ms[..|ms| - 1] + [ms[|ms| - 1]];
    }
  }

  // What one thread or ring has in its hands.

  function InHand(t: RxThread): seq<Mbuf> {
    match t.stage
    case Polling => []
    case Holding(burst) => burst
    case Enqueued(_, rest) => rest
    case Dropping(rest) => rest
  }

  /** Packets received but neither in a ring nor accounted as lost. */
  function Undecided(t: RxThread): nat {
    match t.stage
    case Holding(burst) => |burst|
    case Enqueued(_, rest) => |rest|
    case _ => 0
  }

  function Taken(ch: Channel): nat { |ch.done| + |ch.held| }

  function Itself(n: nat): nat { n }

  function Queued(ch: Channel): nat { |ch.queue| }

  function Done(ch: Channel): nat { |ch.done| }

  function RxHold(rx: seq<RxThread>, x: nat): nat {
    if rx == [] then 0 else RxHold(rx[..|rx| - 1], x) + Times(InHand(rx[|rx| - 1]), x)
  }

  function ChannelsHold(chans: seq<Channel>, x: nat): nat {
    if chans == [] then 0 else
    var ch := chans[|chans| - 1];
    ChannelsHold(chans[..|chans| - 1], x) + Times(ch.queue, x) + Times(ch.held, x)
  }

  lemma {:induction false} RxHoldUpdate(rx: seq<RxThread>, t: nat, th: RxThread, x: nat)
    requires t < |rx|
    ensures RxHold(rx[t := th], x) == RxHold(rx, x) - Times(InHand(rx[t]), x) + Times(InHand(th), x)
  {
    var k := |rx| - 1;
    if t == k {
      assert rx[t := th][..k] == rx[..k];
    } else {
      assert rx[t := th][..k] == rx[..k][t := th];
      RxHoldUpdate(rx[..k], t, th, x);
    }
  }

  lemma {:induction false} ChannelsHoldUpdate(chans: seq<Channel>, c: nat, ch: Channel, x: nat)
    requires c < |chans|
    ensures ChannelsHold(chans[c := ch], x) ==
            ChannelsHold(chans, x) - Times(chans[c].queue, x) - Times(chans[c].held, x) +
            Times(ch.queue, x) + Times(ch.held, x)
  {
    var k := |chans| - 1;
    if c == k {
      assert chans[c := ch][..k] == chans[..k];
    } else {
      assert chans[c := ch][..k] == chans[..k][c := ch];
      ChannelsHoldUpdate(chans[..k], c, ch, x);
    }
  }

  /** How often buffer x is in the hands of a thread or in a ring. */
  function InFlight(s: State, x: nat): nat {
    RxHold(s.rx, x) + ChannelsHold(s.chans, x)
  }

  // ---------------------------------------------------------------- the invariant

  /** Buffer x of the pool is in exactly one place, free or in flight, and each of its
      receptions but the one still in flight has been freed once. */
  predicate OwnedOnce(cfg: Config, s: State, x: nat) {
    One(x in cfg.pool) == One(x in s.free) + InFlight(s, x) &&
    Times(s.received, x) == Times(s.freed, x) + InFlight(s, x)
  }

  ghost predicate Owned(cfg: Config, s: State) {
    forall x: nat :: OwnedOnce(cfg, s, x)
  }

  /** Nothing gets lost unaccounted. */
  predicate Conserved(s: State) {
    |s.received| == Sum(s.re, Itself) + Sum(s.chans, Queued) + s.ringLoss + Sum(s.rx, Undecided)
  }

  /** A ring delivers what was enqueued, in order. */
  predicate InOrder(ch: Channel) {
    ch.sent == ch.done + ch.held + ch.queue
  }

  /** The table holds the counted packets, which are those the monitors have processed;
      re has those of the bursts still held as well. */
  predicate Counted(s: State)
    requires |s.table| == FLOW_NUM
  {
    |s.counted| == Sum(s.chans, Done) && Sum(s.re, Itself) == Sum(s.chans, Taken) &&
    forall l: u16 :: s.table[l] == DoubleCounted(Highs(s.counted, l))
  }

  /** Packets enqueued on c that its rx thread has not yet added to len. */
  function Pending(cfg: Config, s: State, c: nat): nat
    requires Wired(cfg) && Shape(cfg, s) && c < |s.chans|
  {
    var t := cfg.owner[c];
    if s.rx[t].stage.Enqueued? && Current(cfg, s, t) == c then s.rx[t].stage.ret else 0
  }

  /** Signals and backlog of one ring, when pending packets are not yet in len. */
  predicate Signalled(ch: Channel, pending: nat) {
    ch.len < BURST_SIZE && pending <= BURST_SIZE && ch.sinceSignal == ch.len + pending &&
    (forall i :: 0 <= i < |ch.distances| ==> BURST_SIZE <= ch.distances[i] < 2 * BURST_SIZE) &&
    (!ch.phase.Running? ==> ch.held == [] && (ch.lost <==> |ch.queue| > ch.len + pending))
  }

  /** What holds of every single ring. */
  predicate ChannelInv(cfg: Config, s: State, c: nat)
    requires Wired(cfg) && Shape(cfg, s) && c < |s.chans|
  {
    InOrder(s.chans[c]) && Signalled(s.chans[c], Pending(cfg, s, c))
  }

  /** worker goes round the rings of its thread. */
  predicate TakesTurns(cfg: Config, s: State, t: nat)
    requires Wired(cfg) && Shape(cfg, s) && t < |s.rx|
  {
    var n, th := |cfg.rings[t]|, s.rx[t];
    th.worker == |th.chosen| % n && forall k :: 0 <= k < |th.chosen| ==> th.chosen[k] == (k + 1) % n
  }

  /** a is a subsequence of r: some of r's elements in r's order. */
  predicate Among(a: seq<Mbuf>, r: seq<Mbuf>) {
    a == [] ||
    (r != [] && (Among(a, r[..|r| - 1]) || (a[|a| - 1] == r[|r| - 1] && Among(a[..|a| - 1], r[..|r| - 1]))))
  }

  /** The burst that an rx thread has received for ring c and not enqueued yet. */
  function Bound(cfg: Config, s: State, c: nat): seq<Mbuf>
    requires Wired(cfg) && Shape(cfg, s) && c < |s.chans|
  {
    var t := cfg.owner[c];
    if s.rx[t].stage.Holding? && Current(cfg, s, t) == c then s.rx[t].stage.burst else []
  }

  /** A ring is given packets in the order of their reception. */
  predicate Arrived(cfg: Config, s: State, c: nat)
    requires Wired(cfg) && Shape(cfg, s) && c < |s.chans|
  {
    Among(s.chans[c].sent + Bound(cfg, s, c), s.received)
  }

  predicate BurstsFit(s: State) {
    forall t :: 0 <= t < |s.rx| && s.rx[t].stage.Holding? ==> |s.rx[t].stage.burst| <= BURST_SIZE
  }

  ghost predicate Inv(cfg: Config, s: State) {
    Wired(cfg) && Shape(cfg, s) && Owned(cfg, s) && Conserved(s) && Counted(s) &&
    (forall c :: 0 <= c < |s.chans| ==> ChannelInv(cfg, s, c) && Arrived(cfg, s, c)) && BurstsFit(s) &&
    (forall t :: 0 <= t < |s.rx| ==> TakesTurns(cfg, s, t))
  }

  // ---------------------------------------------------------------- every step keeps it

  lemma OwnedReceive(cfg: Config, s: State, t: nat, burst: seq<Mbuf>, x: nat)
    requires Wired(cfg) && Shape(cfg, s) && OwnedOnce(cfg, s, x) && Enabled(cfg, s, Receive(t, burst))
    ensures OwnedOnce(cfg, Step(cfg, s, Receive(t, burst)), x)
  {
    var r := Step(cfg, s, Receive(t, burst));
    RxHoldUpdate(s.rx, t, r.rx[t], x);
    TimesConcat(s.received, burst, x);
    TimesIn(burst, x);
    assert x in (set m | m in burst :: m.id) <==> exists m :: m in burst && m.id == x;
  }

  lemma OwnedEnqueue(cfg: Config, s: State, t: nat, x: nat)
    requires Wired(cfg) && Shape(cfg, s) && OwnedOnce(cfg, s, x) && Enabled(cfg, s, Enqueue(t))
    ensures OwnedOnce(cfg, Step(cfg, s, Enqueue(t)), x)
  {
    var r := Step(cfg, s, Enqueue(t));
    var c := Current(cfg, s, t);
    var burst := s.rx[t].stage.burst;
    var ret := Min(|burst|, Room(cfg, s.chans[c]));
    RxHoldUpdate(s.rx, t, r.rx[t], x);
    ChannelsHoldUpdate(s.chans, c, r.chans[c], x);
    TimesSplit(burst, ret, x);
    TimesConcat(s.chans[c].queue, burst[..ret], x);
  }

  lemma OwnedSignal(cfg: Config, s: State, t: nat, x: nat)
    requires Wired(cfg) && Shape(cfg, s) && OwnedOnce(cfg, s, x) && Enabled(cfg, s, Signal(t))
    ensures OwnedOnce(cfg, Step(cfg, s, Signal(t)), x)
  {
    var r := Step(cfg, s, Signal(t));
    var c := Current(cfg, s, t);
    RxHoldUpdate(s.rx, t, r.rx[t], x);
    ChannelsHoldUpdate(s.chans, c, r.chans[c], x);
  }

  lemma OwnedDrop(cfg: Config, s: State, t: nat, x: nat)
    requires Wired(cfg) && Shape(cfg, s) && OwnedOnce(cfg, s, x) && Enabled(cfg, s, Drop(t))
    ensures OwnedOnce(cfg, Step(cfg, s, Drop(t)), x)
  {
    var r := Step(cfg, s, Drop(t));
    var rest := s.rx[t].stage.rest;
    RxHoldUpdate(s.rx, t, r.rx[t], x);
    TimesSplit(rest, 1, x);
    TimesConcat(s.freed, [rest[0]], x);
    assert rest[..1] == [rest[0]];
    OneTimes(rest[0], x);
    RxHoldsAtLeast(s.rx, t, x);
  }

  lemma OneTimes(m: Mbuf, x: nat)
    ensures Times([m], x) == One(m.id == x)
  {
    assert [m][..0] == [];
  }

  lemma {:induction false} RxHoldsAtLeast(rx: seq<RxThread>, t: nat, x: nat)
    requires t < |rx|
    ensures RxHold(rx, x) >= Times(InHand(rx[t]), x)
  {
    if t < |rx| - 1 {
      RxHoldsAtLeast(rx[..|rx| - 1], t, x);
    }
  }

  lemma {:induction false} ChannelsHoldAtLeast(chans: seq<Channel>, c: nat, x: nat)
    requires c < |chans|
    ensures ChannelsHold(chans, x) >= Times(chans[c].held, x)
  {
    if c < |chans| - 1 {
      ChannelsHoldAtLeast(chans[..|chans| - 1], c, x);
    }
  }

  lemma OwnedDequeue(cfg: Config, s: State, c: nat, x: nat)
    requires Wired(cfg) && Shape(cfg, s) && OwnedOnce(cfg, s, x) && Enabled(cfg, s, Dequeue(c))
    ensures OwnedOnce(cfg, Step(cfg, s, Dequeue(c)), x)
  {
    var r := Step(cfg, s, Dequeue(c));
    ChannelsHoldUpdate(s.chans, c, r.chans[c], x);
    TimesSplit(s.chans[c].queue, Min(BURST_SIZE, |s.chans[c].queue|), x);
  }

  lemma OwnedProcess(cfg: Config, s: State, c: nat, x: nat)
    requires Wired(cfg) && Shape(cfg, s) && OwnedOnce(cfg, s, x) && Enabled(cfg, s, Process(c))
    ensures OwnedOnce(cfg, Step(cfg, s, Process(c)), x)
  {
    hide DoubleHit;
    var r := Step(cfg, s, Process(c));
    var held := s.chans[c].held;
    ChannelsHoldUpdate(s.chans, c, r.chans[c], x);
    TimesSplit(held, 1, x);
    TimesConcat(s.freed, [held[0]], x);
    assert held[..1] == [held[0]];
    OneTimes(held[0], x);
    ChannelsHoldAtLeast(s.chans, c, x);
  }

  lemma OwnedBlock(cfg: Config, s: State, c: nat, x: nat)
    requires Wired(cfg) && Shape(cfg, s) && OwnedOnce(cfg, s, x) && Enabled(cfg, s, Block(c))
    ensures OwnedOnce(cfg, Step(cfg, s, Block(c)), x)
  {
    ChannelsHoldUpdate(s.chans, c, Step(cfg, s, Block(c)).chans[c], x);
  }

  lemma KeepsOwned(cfg: Config, s: State, a: Action)
    requires Inv(cfg, s) && Enabled(cfg, s, a)
    ensures Owned(cfg, Step(cfg, s, a))
  {
    assert Wired(cfg) && Shape(cfg, s) && Owned(cfg, s);
    hide Inv, Enabled, Step, OwnedOnce, Shape, Wired;
    forall x: nat ensures OwnedOnce(cfg, Step(cfg, s, a), x) {
      match a {
        case Receive(t, burst) => OwnedReceive(cfg, s, t, burst, x);
        case Enqueue(t) => OwnedEnqueue(cfg, s, t, x);
        case Signal(t) => OwnedSignal(cfg, s, t, x);
        case Drop(t) => OwnedDrop(cfg, s, t, x);
        case Dequeue(c) => OwnedDequeue(cfg, s, c, x);
        case Process(c) => OwnedProcess(cfg, s, c, x);
        case Block(c) => OwnedBlock(cfg, s, c, x);
      }
    }
  }

  lemma KeepsShape(cfg: Config, s: State, a: Action)
    requires Wired(cfg) && Shape(cfg, s) && Enabled(cfg, s, a)
    ensures Shape(cfg, Step(cfg, s, a))
  {
    hide DoubleHit, Notify, Take, Accept;
  }

  lemma ConservedOnRings(cfg: Config, s: State, a: Action, c: nat)
    requires Wired(cfg) && Shape(cfg, s) && Conserved(s) && Enabled(cfg, s, a) && c < |s.chans|
    requires a == Dequeue(c) || a == Process(c) || a == Block(c)
    ensures Conserved(Step(cfg, s, a))
  {
    hide DoubleHit;
    var r := Step(cfg, s, a);
    var t := cfg.owner[c];
    SumUpdate(s.re, Itself, t, r.re[t]);
    SumUpdate(s.chans, Queued, c, r.chans[c]);
  }

  lemma ConservedOnRx(cfg: Config, s: State, a: Action, t: nat)
    requires Wired(cfg) && Shape(cfg, s) && Conserved(s) && Enabled(cfg, s, a) && t < |s.rx|
    requires a == Enqueue(t) || a == Signal(t) || a == Drop(t) || (a.Receive? && a.t == t)
    ensures Conserved(Step(cfg, s, a))
  {
    var r := Step(cfg, s, a);
    var c := Current(cfg, s, t);
    SumUpdate(s.rx, Undecided, t, r.rx[t]);
    if a.Enqueue? || a.Signal? {
      SumUpdate(s.chans, Queued, c, r.chans[c]);
    }
  }

  lemma KeepsConserved(cfg: Config, s: State, a: Action)
    requires Wired(cfg) && Shape(cfg, s) && Conserved(s) && Enabled(cfg, s, a)
    ensures Conserved(Step(cfg, s, a))
  {
    hide Step, Conserved, Shape, Wired;
    match a {
      case Receive(t, burst) => ConservedOnRx(cfg, s, a, t);
      case Enqueue(t) => ConservedOnRx(cfg, s, a, t);
      case Signal(t) => ConservedOnRx(cfg, s, a, t);
      case Drop(t) => ConservedOnRx(cfg, s, a, t);
      case Dequeue(c) => ConservedOnRings(cfg, s, a, c);
      case Process(c) => ConservedOnRings(cfg, s, a, c);
      case Block(c) => ConservedOnRings(cfg, s, a, c);
    }
  }

  lemma DoneTakenUpdate(chans: seq<Channel>, c: nat, ch: Channel)
    requires c < |chans|
    ensures Sum(chans[c := ch], Done) == Sum(chans, Done) - Done(chans[c]) + Done(ch)
    ensures Sum(chans[c := ch], Taken) == Sum(chans, Taken) - Taken(chans[c]) + Taken(ch)
  {
    SumUpdate(chans, Done, c, ch);
    SumUpdate(chans, Taken, c, ch);
  }

  lemma CountedProcess(cfg: Config, s: State, c: nat)
    requires Wired(cfg) && Shape(cfg, s) && Counted(s) && Enabled(cfg, s, Process(c))
    ensures var r := Step(cfg, s, Process(c)); |r.table| == FLOW_NUM && Counted(r)
  {
    hide DoubleHit, DoubleCounted, Highs;
    var r := Step(cfg, s, Process(c));
    DoneTakenUpdate(s.chans, c, r.chans[c]);
    forall l: u16 ensures r.table[l] == DoubleCounted(Highs(r.counted, l)) {
      DoubleNext(s.counted, s.chans[c].held[0].hash, l);
    }
  }

  lemma CountedDequeue(cfg: Config, s: State, c: nat)
    requires Wired(cfg) && Shape(cfg, s) && Counted(s) && Enabled(cfg, s, Dequeue(c))
    ensures var r := Step(cfg, s, Dequeue(c)); |r.table| == FLOW_NUM && Counted(r)
  {
    hide DoubleHit, DoubleCounted, Highs;
    var r := Step(cfg, s, Dequeue(c));
    DoneTakenUpdate(s.chans, c, r.chans[c]);
    SumUpdate(s.re, Itself, cfg.owner[c], r.re[cfg.owner[c]]);
  }

  /** A step that leaves counted, re and table alone, and each ring's processed and held packets. */
  lemma CountedElsewhere(cfg: Config, s: State, a: Action)
    requires Wired(cfg) && Shape(cfg, s) && Counted(s) && Enabled(cfg, s, a) && !a.Process? && !a.Dequeue?
    ensures var r := Step(cfg, s, a); |r.table| == FLOW_NUM && Counted(r)
  {
    hide DoubleHit, DoubleCounted, Highs;
    var r := Step(cfg, s, a);
    match a {
      case Receive(t, burst) =>
      case Drop(t) =>
      case Enqueue(t) => DoneTakenUpdate(s.chans, Current(cfg, s, t), r.chans[Current(cfg, s, t)]);
      case Signal(t) => DoneTakenUpdate(s.chans, Current(cfg, s, t), r.chans[Current(cfg, s, t)]);
      case Block(c) => DoneTakenUpdate(s.chans, c, r.chans[c]);
    }
  }

  lemma KeepsCounted(cfg: Config, s: State, a: Action)
    requires Wired(cfg) && Shape(cfg, s) && Counted(s) && Enabled(cfg, s, a)
    ensures |Step(cfg, s, a).table| == FLOW_NUM && Counted(Step(cfg, s, a))
  {
    hide Step, Enabled, Counted;
    match a {
      case Process(c) => CountedProcess(cfg, s, c);
      case Dequeue(c) => CountedDequeue(cfg, s, c);
      case _ => CountedElsewhere(cfg, s, a);
    }
  }

  lemma AcceptKeeps(ch: Channel, ms: seq<Mbuf>)
    requires InOrder(ch) && Signalled(ch, 0) && |ms| <= BURST_SIZE
    ensures InOrder(Accept(ch, ms)) && Signalled(Accept(ch, ms), |ms|)
  {
    assert ch.done + ch.held + ch.queue + ms == ch.done + ch.held + (ch.queue + ms);
  }

  lemma NotifyKeeps(ch: Channel, ret: nat)
    requires InOrder(ch) && Signalled(ch, ret)
    ensures InOrder(Notify(ch, ret)) && Signalled(Notify(ch, ret), 0)
  {
    var r := Notify(ch, ret);
    assert forall i :: 0 <= i < |ch.distances| ==> r.distances[i] == ch.distances[i];
  }

  lemma TakeKeeps(ch: Channel, pending: nat)
    requires InOrder(ch) && Signalled(ch, pending) && ch.phase.Running? && ch.held == []
    ensures InOrder(Take(ch)) && Signalled(Take(ch), pending)
  {
    var n := Min(BURST_SIZE, |ch.queue|);
    assert ch.queue == ch.queue[..n] + ch.queue[n..];
    assert ch.done + [] + ch.queue == ch.done + ch.queue[..n] + ch.queue[n..];
  }

  lemma ProcessKeeps(ch: Channel, pending: nat)
    requires InOrder(ch) && Signalled(ch, pending) && ch.held != []
    ensures var r := ch.(held := ch.held[1..], done := ch.done + [ch.held[0]]);
            InOrder(r) && Signalled(r, pending)
  {
    assert ch.held == [ch.held[0]] + ch.held[1..];
    assert ch.done + ch.held == ch.done + [ch.held[0]] + ch.held[1..];
  }

  /** The owner of a channel other than t's current one keeps its pending packets. */
  lemma PendingElsewhere(cfg: Config, s: State, a: Action, t: nat, c: nat)
    requires Wired(cfg) && Shape(cfg, s) && Enabled(cfg, s, a) && t < |s.rx| && c < |s.chans|
    requires a == Enqueue(t) || a == Signal(t) || a == Drop(t) || (a.Receive? && a.t == t)
    requires a.Drop? || a.Receive? || c != Current(cfg, s, t)
    ensures Shape(cfg, Step(cfg, s, a)) && Pending(cfg, Step(cfg, s, a), c) == Pending(cfg, s, c)
    ensures Step(cfg, s, a).chans[c] == s.chans[c]
  {
    hide Notify, Accept;
    KeepsShape(cfg, s, a);
  }

  lemma KeepsChannel(cfg: Config, s: State, a: Action, c: nat)
    requires Wired(cfg) && Shape(cfg, s) && Enabled(cfg, s, a) && c < |s.chans| && ChannelInv(cfg, s, c)
    requires BurstsFit(s)
    ensures Shape(cfg, Step(cfg, s, a)) && ChannelInv(cfg, Step(cfg, s, a), c)
  {
    hide InOrder, Signalled, Notify, Accept, Take, DoubleHit;
    KeepsShape(cfg, s, a);
    match a {
      case Receive(t, burst) => PendingElsewhere(cfg, s, a, t, c);
      case Drop(t) => PendingElsewhere(cfg, s, a, t, c);
      case Enqueue(t) =>
        if c != Current(cfg, s, t) {
          PendingElsewhere(cfg, s, a, t, c);
        } else {
          var burst := s.rx[t].stage.burst;
          AcceptKeeps(s.chans[c], burst[..Min(|burst|, Room(cfg, s.chans[c]))]);
        }
      case Signal(t) =>
        if c != Current(cfg, s, t) {
          PendingElsewhere(cfg, s, a, t, c);
        } else {
          NotifyKeeps(s.chans[c], s.rx[t].stage.ret);
        }
      case Dequeue(d) =>
        if c == d {
          TakeKeeps(s.chans[c], Pending(cfg, s, c));
        }
      case Process(d) =>
        if c == d {
          ProcessKeeps(s.chans[c], Pending(cfg, s, c));
        }
      case Block(d) =>
        if c == d {
          BlockKeeps(s.chans[c], Pending(cfg, s, c));
        }
    }
  }

  lemma BlockKeeps(ch: Channel, pending: nat)
    requires InOrder(ch) && Signalled(ch, pending) && ch.phase.SawEmpty?
    ensures InOrder(ch.(phase := Waiting)) && Signalled(ch.(phase := Waiting), pending)
  {
  }

  lemma KeepsBurstSize(cfg: Config, s: State, a: Action)
    requires Wired(cfg) && Shape(cfg, s) && Enabled(cfg, s, a) && BurstsFit(s)
    ensures BurstsFit(Step(cfg, s, a))
  {
    hide Notify, Accept, Take, DoubleHit;
  }

  lemma {:induction false} AmongMore(a: seq<Mbuf>, r: seq<Mbuf>, b: seq<Mbuf>)
    requires Among(a, r)
    ensures Among(a, r + b) && Among(a + b, r + b)
  {
    if b == [] {
      assert a + b == a && r + b == r;
    } else {
      var k := |b| - 1;
      AmongMore(a, r, b[..k]);
      assert (r + b)[..|r| + k] == r + b[..k] && (a + b)[..|a| + k] == a + b[..k];
      assert (r + b)[|r| + k] == b[k] == (a + b)[|a| + k];
    }
  }

  lemma {:induction false} AmongFewer(a: seq<Mbuf>, b: seq<Mbuf>, r: seq<Mbuf>)
    requires Among(a + b, r)
    ensures Among(a, r)
    decreases |r|
  {
    var z := |a + b| - 1;
    if b == [] {
      assert a + b == a;
    } else if Among(a + b, r[..|r| - 1]) {
      AmongFewer(a, b, r[..|r| - 1]);
    } else {
      assert (a + b)[..z] == a + b[..|b| - 1];
      AmongFewer(a, b[..|b| - 1], r[..|r| - 1]);
    }
  }

  lemma KeepsArrived(cfg: Config, s: State, a: Action, c: nat)
    requires Wired(cfg) && Shape(cfg, s) && Enabled(cfg, s, a) && c < |s.chans| && Arrived(cfg, s, c)
    ensures Shape(cfg, Step(cfg, s, a)) && Arrived(cfg, Step(cfg, s, a), c)
  {
    hide Among, DoubleHit;
    KeepsShape(cfg, s, a);
    var ch, bound := s.chans[c], Bound(cfg, s, c);
    match a {
      case Receive(t, burst) =>
        AmongMore(ch.sent + bound, s.received, burst);
        assert cfg.owner[c] == t ==> ch.sent + bound == ch.sent;
        assert ch.sent + [] == ch.sent;
      case Enqueue(t) =>
        if c == Current(cfg, s, t) {
          var ret := Min(|bound|, Room(cfg, ch));
          assert ch.sent + bound == ch.sent + bound[..ret] + bound[ret..];
          AmongFewer(ch.sent + bound[..ret], bound[ret..], s.received);
          assert ch.sent + bound[..ret] + [] == ch.sent + bound[..ret];
        }
      case _ =>
    }
  }

  lemma NoMultipleBetween(n: int, d: int)
    requires n > 0 && -n < n * d < n
    ensures d == 0
  {
  }

  lemma Remainder(x: int, n: int, q: int, r: int)
    requires x == n * q + r && 0 <= r < n
    ensures x % n == r
  {
    var p := x / n;
    assert n * (q - p) == x % n - r;
    NoMultipleBetween(n, q - p);
  }

  lemma NextTurn(k: nat, n: nat)
    requires n > 0
    ensures (k % n + 1) % n == (k + 1) % n
  {
    var q, r := k / n, k % n;
    assert k + 1 == n * q + (r + 1);
    if r + 1 == n {
      assert n * (q + 1) == n * q + n;
      Remainder(k + 1, n, q + 1, 0);
      Remainder(n, n, 1, 0);
    } else {
      Remainder(k + 1, n, q, r + 1);
      Remainder(r + 1, n, 0, r + 1);
    }
  }

  lemma KeepsTurns(cfg: Config, s: State, a: Action, t: nat)
    requires Wired(cfg) && Shape(cfg, s) && Enabled(cfg, s, a) && t < |s.rx| && TakesTurns(cfg, s, t)
    ensures Shape(cfg, Step(cfg, s, a)) && TakesTurns(cfg, Step(cfg, s, a), t)
  {
    hide Notify, Accept, Take, DoubleHit;
    KeepsShape(cfg, s, a);
    NextTurn(|s.rx[t].chosen|, |cfg.rings[t]|);
  }

  lemma KeepsInv(cfg: Config, s: State, a: Action)
    requires Inv(cfg, s) && Enabled(cfg, s, a)
    ensures Inv(cfg, Step(cfg, s, a))
  {
    hide Owned, Conserved, Counted, ChannelInv, Arrived, TakesTurns, BurstsFit, Step, Enabled, Wired;
    KeepsShape(cfg, s, a);
    KeepsBurstSize(cfg, s, a);
    KeepsOwned(cfg, s, a);
    KeepsConserved(cfg, s, a);
    KeepsCounted(cfg, s, a);
    forall c | 0 <= c < |s.chans| ensures ChannelInv(cfg, Step(cfg, s, a), c) && Arrived(cfg, Step(cfg, s, a), c) {
      KeepsChannel(cfg, s, a, c);
      KeepsArrived(cfg, s, a, c);
    }
    forall t | 0 <= t < |s.rx| ensures TakesTurns(cfg, Step(cfg, s, a), t) {
      KeepsTurns(cfg, s, a, t);
    }
  }

  // ---------------------------------------------------------------- reachable states

  /** Performs the actions one after the other, skipping those that are not possible. */
  ghost function Run(cfg: Config, actions: seq<Action>): (s: State)
    requires Wired(cfg)
    ensures Inv(cfg, s)
  {
    if actions == [] then
      StartInv(cfg);
      Start(cfg)
    else
      var s := Run(cfg, actions[..|actions| - 1]);
      var a := actions[|actions| - 1];
      if Enabled(cfg, s, a) then
        KeepsInv(cfg, s, a);
        Step(cfg, s, a)
      else s
  }

  lemma {:induction false} SumOfZero<T>(s: seq<T>, f: T -> nat)
    requires forall i :: 0 <= i < |s| ==> f(s[i]) == 0
    ensures Sum(s, f) == 0
  {
    if s != [] {
      SumOfZero(s[..|s| - 1], f);
    }
  }

  lemma {:induction false} NothingInFlight(rx: seq<RxThread>, chans: seq<Channel>, x: nat)
    requires forall t :: 0 <= t < |rx| ==> InHand(rx[t]) == []
    requires forall c :: 0 <= c < |chans| ==> chans[c].queue == chans[c].held == []
    ensures RxHold(rx, x) == 0 && ChannelsHold(chans, x) == 0
  {
    if rx != [] {
      NothingInFlight(rx[..|rx| - 1], chans, x);
    } else if chans != [] {
      NothingInFlight(rx, chans[..|chans| - 1], x);
    }
  }

  lemma StartInv(cfg: Config)
    requires Wired(cfg)
    ensures Inv(cfg, Start(cfg))
  {
    var s := Start(cfg);
    SumOfZero(s.chans, Taken);
    SumOfZero(s.re, Itself);
    SumOfZero(s.chans, Queued);
    SumOfZero(s.chans, Done);
    SumOfZero(s.rx, Undecided);
    forall x: nat ensures OwnedOnce(cfg, s, x) {
      NothingInFlight(s.rx, s.chans, x);
    }
  }

  // ---------------------------------------------------------------- what every run guarantees

  /** Between rx iterations every packet received has been counted in re, waits in a
      ring, or was dropped because a ring was full. */
  lemma PacketsConserved(cfg: Config, actions: seq<Action>)
    requires Wired(cfg)
    ensures var s := Run(cfg, actions);
            (forall t :: 0 <= t < |s.rx| ==> s.rx[t].stage.Polling? || s.rx[t].stage.Dropping?) ==>
              |s.received| == Sum(s.re, Itself) + Sum(s.chans, Queued) + s.ringLoss
  {
    var s := Run(cfg, actions);
    if forall t :: 0 <= t < |s.rx| ==> s.rx[t].stage.Polling? || s.rx[t].stage.Dropping? {
      SumOfZero(s.rx, Undecided);
    }
  }

  /** A buffer is free or in one pair of hands, never both, and has been freed once for
      every completed reception. */
  lemma BuffersOwnedOnce(cfg: Config, actions: seq<Action>, x: nat)
    requires Wired(cfg)
    ensures var s := Run(cfg, actions);
            (x in cfg.pool ==> (x in s.free <==> InFlight(s, x) == 0) && InFlight(s, x) <= 1) &&
            (x !in cfg.pool ==> x !in s.free && InFlight(s, x) == 0) &&
            Times(s.received, x) - Times(s.freed, x) == InFlight(s, x)
  {
    assert OwnedOnce(cfg, Run(cfg, actions), x);
  }

  function SlotsTotal(b: Slots): nat { b.ctr0 + b.ctr1 + b.ctr2 }

  /** When no monitor is inside a burst, the counters of the table add up to re. */
  lemma TableMatchesRe(cfg: Config, actions: seq<Action>)
    requires Wired(cfg)
    ensures var s := Run(cfg, actions);
            (forall c :: 0 <= c < |s.chans| ==> s.chans[c].held == []) ==> Sum(s.table, SlotsTotal) == Sum(s.re, Itself)
  {
    var s := Run(cfg, actions);
    if forall c :: 0 <= c < |s.chans| ==> s.chans[c].held == [] {
      SumSame(s.chans, Taken, Done);
      TableTotal(s.table, s.counted);
    }
  }

  lemma {:induction false} SumSame<T>(s: seq<T>, f: T -> nat, g: T -> nat)
    requires forall i :: 0 <= i < |s| ==> f(s[i]) == g(s[i])
    ensures Sum(s, f) == Sum(s, g)
  {
    if s != [] {
      SumSame(s[..|s| - 1], f, g);
    }
  }

  lemma TableTotal(table: seq<Slots>, ps: seq<Packet>)
    requires |table| == FLOW_NUM && forall l: u16 :: table[l] == DoubleCounted(Highs(ps, l))
    ensures Sum(table, SlotsTotal) == |ps|
  {
    hide DoubleCounted, Highs, SlotsTotal;
    AllPacketsCounted(ps, 2);
    assert table[..FLOW_NUM] == table;
    SumsAgree(table, ps, FLOW_NUM);
  }

  lemma {:induction false} SumsAgree(table: seq<Slots>, ps: seq<Packet>, n: nat)
    requires n <= |table| == FLOW_NUM && forall l: u16 :: table[l] == DoubleCounted(Highs(ps, l))
    ensures Sum(table[..n], SlotsTotal) == SumOver(Table(ps, 2), n, Total)
  {
    hide DoubleCounted, Highs;
    if n > 0 {
      SumsAgree(table, ps, n - 1);
      assert table[..n][..n - 1] == table[..n - 1];
      var l: u16 := n - 1;
      DoubleHashSimulates(Highs(ps, l), 2);
      var c := Table(ps, 2)[l];
      assert Total(c) == c[0].ctr + (c[1].ctr + Total(c[2..])) by {
        assert c[1..][1..] == c[2..];
      }
    }
  }

  /** Every ring is a queue: what its monitor has processed, holds and has yet to dequeue
      is what was enqueued, in that order. */
  lemma RingsKeepOrder(cfg: Config, actions: seq<Action>, c: nat)
    requires Wired(cfg) && c < |cfg.owner|
    ensures var ch := Run(cfg, actions).chans[c];
            ch.done + ch.held + ch.queue == ch.sent
  {
    assert ChannelInv(cfg, Run(cfg, actions), c);
  }

  /** Between arrival and monitor no ring reorders packets. */
  lemma ProcessedInArrivalOrder(cfg: Config, actions: seq<Action>, c: nat)
    requires Wired(cfg) && c < |cfg.owner|
    ensures var s := Run(cfg, actions); Among(s.chans[c].done, s.received)
  {
    hide Run, Owned, Conserved, Counted, BurstsFit, TakesTurns, Among;
    var s := Run(cfg, actions);
    var ch := s.chans[c];
    assert ChannelInv(cfg, s, c) && Arrived(cfg, s, c);
    assert ch.done + (ch.held + ch.queue + Bound(cfg, s, c)) == ch.sent + Bound(cfg, s, c);
    AmongFewer(ch.done, ch.held + ch.queue + Bound(cfg, s, c), s.received);
  }

  /** Of any n successive bursts of an rx thread with n rings, no two go to the same ring. */
  lemma RingsTakeTurns(cfg: Config, actions: seq<Action>, t: nat, j: nat, k: nat)
    requires Wired(cfg) && t < |cfg.rings|
    ensures var chosen := Run(cfg, actions).rx[t].chosen;
            j < k < |chosen| && k - j < |cfg.rings[t]| ==> chosen[j] != chosen[k]
  {
    hide Run, Owned, Conserved, Counted, ChannelInv, Arrived, BurstsFit;
    var s := Run(cfg, actions);
    assert TakesTurns(cfg, s, t);
    var chosen, n := s.rx[t].chosen, |cfg.rings[t]|;
    if j < k < |chosen| && k - j < n && chosen[j] == chosen[k] {
      SameTurn(j + 1, k + 1, n);
    }
  }

  lemma SameTurn(j: nat, k: nat, n: nat)
    requires n > 0 && j <= k < j + n && j % n == k % n
    ensures j == k
  {
    var d := k / n - j / n;
    assert k - j == n * d;
    NoMultipleBetween(n, d);
  }

  /** a is a signal for ring c that reaches its monitor between finding the ring empty and
      waiting, while packets are in the ring. */
  ghost predicate Wasted(cfg: Config, s: State, a: Action, c: nat)
    requires Wired(cfg) && Shape(cfg, s) && c < |s.chans|
  {
    a.Signal? && Enabled(cfg, s, a) && Current(cfg, s, a.t) == c &&
    s.chans[c].len + s.rx[a.t].stage.ret >= BURST_SIZE && s.chans[c].phase.SawEmpty? && s.chans[c].queue != []
  }

  /** Action i was such a signal, and the monitor has not run since. */
  ghost predicate MissedAt(cfg: Config, actions: seq<Action>, i: nat, c: nat)
    requires Wired(cfg) && c < |cfg.owner| && i < |actions|
  {
    Wasted(cfg, Run(cfg, actions[..i]), actions[i], c) &&
    forall k :: i < k <= |actions| ==> !Run(cfg, actions[..k]).chans[c].phase.Running?
  }

  ghost predicate SignalMissed(cfg: Config, actions: seq<Action>, c: nat)
    requires Wired(cfg) && c < |cfg.owner|
  {
    exists i :: 0 <= i < |actions| && MissedAt(cfg, actions, i, c)
  }

  lemma StepLost(cfg: Config, s: State, a: Action, c: nat)
    requires Wired(cfg) && Shape(cfg, s) && Enabled(cfg, s, a) && c < |s.chans|
    ensures Shape(cfg, Step(cfg, s, a))
    ensures var ch, r := s.chans[c], Step(cfg, s, a).chans[c];
            !r.phase.Running? ==> (r.lost <==> (!ch.phase.Running? && ch.lost) || Wasted(cfg, s, a, c))
  {
    hide DoubleHit;
    KeepsShape(cfg, s, a);
  }

  lemma MissedAtNext(cfg: Config, actions: seq<Action>, a: Action, i: nat, c: nat)
    requires Wired(cfg) && c < |cfg.owner| && i <= |actions|
    ensures var running := Run(cfg, actions + [a]).chans[c].phase.Running?;
            MissedAt(cfg, actions + [a], i, c) <==>
              !running && if i < |actions| then MissedAt(cfg, actions, i, c) else Wasted(cfg, Run(cfg, actions), a, c)
  {
    hide Run, Wasted, Owned, Conserved, Counted, ChannelInv, Arrived, TakesTurns, BurstsFit;
    var all := actions + [a];
    assert all[..|all|] == all;
    forall k | 0 <= k <= |actions| ensures all[..k] == actions[..k] {
    }
    assert actions[..|actions|] == actions;
  }

  lemma MissedNext(cfg: Config, actions: seq<Action>, a: Action, c: nat)
    requires Wired(cfg) && c < |cfg.owner|
    ensures SignalMissed(cfg, actions + [a], c) <==>
              !Run(cfg, actions + [a]).chans[c].phase.Running? &&
              (SignalMissed(cfg, actions, c) || Wasted(cfg, Run(cfg, actions), a, c))
  {
    hide Run, Wasted, MissedAt, Owned, Conserved, Counted, ChannelInv, Arrived, TakesTurns, BurstsFit;
    MissedAtNext(cfg, actions, a, |actions|, c);
    if SignalMissed(cfg, actions + [a], c) {
      var i :| 0 <= i < |actions + [a]| && MissedAt(cfg, actions + [a], i, c);
      MissedAtNext(cfg, actions, a, i, c);
    }
    if SignalMissed(cfg, actions, c) {
      var i :| 0 <= i < |actions| && MissedAt(cfg, actions, i, c);
      MissedAtNext(cfg, actions, a, i, c);
    }
  }

  lemma {:induction false} LostIfMissed(cfg: Config, actions: seq<Action>, c: nat)
    requires Wired(cfg) && c < |cfg.owner|
    ensures var ch := Run(cfg, actions).chans[c];
            SignalMissed(cfg, actions, c) <==> !ch.phase.Running? && ch.lost
  {
    hide Step, Enabled, Wasted, MissedAt, Owned, Conserved, Counted, ChannelInv, Arrived, TakesTurns, BurstsFit;
    if actions != [] {
      var before, a := actions[..|actions| - 1], actions[|actions| - 1];
      assert actions == before + [a];
      LostIfMissed(cfg, before, c);
      MissedNext(cfg, before, a, c);
      var s := Run(cfg, before);
      if Enabled(cfg, s, a) {
        StepLost(cfg, s, a, c);
      } else {
        NotWasted(cfg, s, a, c);
      }
    }
  }

  lemma NotWasted(cfg: Config, s: State, a: Action, c: nat)
    requires Wired(cfg) && Shape(cfg, s) && c < |s.chans| && !Enabled(cfg, s, a)
    ensures !Wasted(cfg, s, a, c)
  {
  }

  /** A waiting monitor's ring holds at most the len packets not yet signalled, so at most
      255 between rx iterations, unless a signal reached the monitor after it had found
      the ring empty but before it waited; then it always holds more. */
  lemma BacklogBound(cfg: Config, actions: seq<Action>, c: nat)
    requires Wired(cfg) && c < |cfg.owner|
    ensures var s := Run(cfg, actions);
            var ch := s.chans[c];
            ch.len <= 255 &&
            (ch.phase.Waiting? ==> (|ch.queue| <= ch.len + Pending(cfg, s, c) <==> !SignalMissed(cfg, actions, c)))
  {
    hide Run, SignalMissed, Owned, Conserved, Counted, Arrived, TakesTurns, BurstsFit;
    var s := Run(cfg, actions);
    assert ChannelInv(cfg, s, c);
    LostIfMissed(cfg, actions, c);
  }

  /** Consecutive signals on a ring are 256 to 511 enqueued packets apart. */
  lemma SignalSpacing(cfg: Config, actions: seq<Action>, c: nat)
    requires Wired(cfg) && c < |cfg.owner|
    ensures var s := Run(cfg, actions);
            forall i :: 0 <= i < |s.chans[c].distances| ==> 256 <= s.chans[c].distances[i] <= 511
  {
    var s := Run(cfg, actions);
    assert ChannelInv(cfg, s, c);
  }

  /** No other thread gets a turn between a monitor finding its ring empty and waiting. */
  ghost predicate WaitsAtOnce(cfg: Config, actions: seq<Action>)
    requires Wired(cfg)
  {
    actions == [] ||
    (var before := actions[..|actions| - 1];
     WaitsAtOnce(cfg, before) &&
     forall c :: 0 <= c < |cfg.owner| && Run(cfg, before).chans[c].phase.SawEmpty? ==>
                   actions[|actions| - 1] == Block(c))
  }

  lemma StepLosesNothing(cfg: Config, s: State, a: Action, c: nat)
    requires Wired(cfg) && Shape(cfg, s) && Enabled(cfg, s, a) && c < |s.chans|
    requires s.chans[c].phase.SawEmpty? ==> a == Block(c)
    requires s.chans[c].phase.Running? || !s.chans[c].lost
    ensures Shape(cfg, Step(cfg, s, a))
    ensures var ch := Step(cfg, s, a).chans[c]; ch.phase.Running? || !ch.lost
  {
    hide DoubleHit;
    KeepsShape(cfg, s, a);
  }

  /** Finding the ring empty and waiting in one step, no signal is ever lost. */
  lemma NothingLost(cfg: Config, actions: seq<Action>, c: nat)
    requires Wired(cfg) && c < |cfg.owner| && WaitsAtOnce(cfg, actions)
    ensures !SignalMissed(cfg, actions, c)
  {
    hide Run, SignalMissed, WaitsAtOnce, Inv;
    NeverLost(cfg, actions, c);
    LostIfMissed(cfg, actions, c);
  }

  lemma {:induction false} NeverLost(cfg: Config, actions: seq<Action>, c: nat)
    requires Wired(cfg) && c < |cfg.owner| && WaitsAtOnce(cfg, actions)
    ensures var ch := Run(cfg, actions).chans[c]; ch.phase.Running? || !ch.lost
  {
    hide Wired, Step, Enabled, Owned, Conserved, Counted, ChannelInv, Arrived, TakesTurns, BurstsFit;
    if actions != [] {
      var before, a := actions[..|actions| - 1], actions[|actions| - 1];
      NeverLost(cfg, before, c);
      var s := Run(cfg, before);
      assert Inv(cfg, s);
      if Enabled(cfg, s, a) {
        StepLosesNothing(cfg, s, a, c);
      }
    }
  }

  /** Then a waiting monitor's ring never holds more than len packets between rx
      iterations, hence at most 255. */
  lemma AtomicBacklogBound(cfg: Config, actions: seq<Action>, c: nat)
    requires Wired(cfg) && c < |cfg.owner| && WaitsAtOnce(cfg, actions)
    ensures var s := Run(cfg, actions);
            var ch := s.chans[c];
            ch.phase.Waiting? && !s.rx[cfg.owner[c]].stage.Enqueued? ==> |ch.queue| <= ch.len <= 255
  {
    NothingLost(cfg, actions, c);
    BacklogBound(cfg, actions, c);
  }

  /** n packets of one flow in buffers 0, 1, ... */
  function Packets(n: nat): seq<Mbuf> {
    if n == 0 then [] else Packets(n - 1) + [Mbuf(n - 1, Packet(0, 1))]
  }

  lemma {:induction false} PacketsTimes(n: nat, x: nat)
    ensures |Packets(n)| == n && Times(Packets(n), x) == One(x < n)
  {
    if n > 0 {
      PacketsTimes(n - 1, x);
      assert Packets(n)[..n - 1] == Packets(n - 1);
    }
  }

  lemma RunNext(cfg: Config, actions: seq<Action>, a: Action)
    requires Wired(cfg) && Enabled(cfg, Run(cfg, actions), a)
    ensures Run(cfg, actions + [a]) == Step(cfg, Run(cfg, actions), a)
  {
    hide Inv, Step, Enabled;
    assert (actions + [a])[..|actions|] == actions;
  }

  /** One rx thread and one ring; a ring of 65536 * 4 slots keeps one of them free. */
  const SMALL := Config([[0]], [0], 65536 * 4 - 1, set i | 0 <= i < 256)

  predicate At(s: State, stage: Stage, ch: Channel) {
    Shape(SMALL, s) && s.rx[0].stage == stage && s.chans[0] == ch
  }

  lemma RaceStart()
    ensures Wired(SMALL)
    ensures var s := Run(SMALL, []);
            Enabled(SMALL, s, Dequeue(0)) &&
            var r := Step(SMALL, s, Dequeue(0));
            Shape(SMALL, r) && r.rx[0].stage == Polling && r.free == SMALL.pool &&
            r.chans[0].queue == [] && r.chans[0].len == 0 && r.chans[0].phase.SawEmpty?
  {
    hide Inv;
    KeepsShape(SMALL, Start(SMALL), Dequeue(0));
  }

  lemma RaceReceive(s: State, ch: Channel)
    requires At(s, Polling, ch) && s.free == SMALL.pool && Wired(SMALL)
    ensures Enabled(SMALL, s, Receive(0, Packets(256)))
    ensures At(Step(SMALL, s, Receive(0, Packets(256))), Holding(Packets(256)), ch)
  {
    hide Packets;
    forall x: nat ensures Times(Packets(256), x) == One(x < 256) {
      PacketsTimes(256, x);
    }
    PacketsTimes(256, 0);
    assert Enabled(SMALL, s, Receive(0, Packets(256)));
    KeepsShape(SMALL, s, Receive(0, Packets(256)));
  }

  lemma RaceHandOver(s: State, ch: Channel)
    requires At(s, Holding(Packets(256)), ch) && Wired(SMALL) && ch.queue == [] && ch.len == 0 && ch.phase.SawEmpty?
    ensures Enabled(SMALL, s, Enqueue(0))
    ensures var r := Step(SMALL, s, Enqueue(0));
            Shape(SMALL, r) && Enabled(SMALL, r, Signal(0)) &&
            var u := Step(SMALL, r, Signal(0));
            Shape(SMALL, u) && u.rx[0].stage == Polling && u.chans[0].phase.SawEmpty? &&
            u.chans[0].len == 0 && u.chans[0].queue == Packets(256)
  {
    hide Packets;
    PacketsTimes(256, 0);
    KeepsShape(SMALL, s, Enqueue(0));
    var r := Step(SMALL, s, Enqueue(0));
    assert Packets(256)[..256] == Packets(256);
    assert [] + Packets(256) == Packets(256);
    assert r.rx[0].stage == Enqueued(256, Packets(256)[256..]) && r.chans[0].queue == Packets(256);
    KeepsShape(SMALL, r, Signal(0));
  }

  lemma RaceBlock(s: State)
    requires Wired(SMALL) && Shape(SMALL, s) && s.chans[0].phase.SawEmpty?
    ensures Enabled(SMALL, s, Block(0))
    ensures Step(SMALL, s, Block(0)).chans[0] == s.chans[0].(phase := Waiting) && Step(SMALL, s, Block(0)).rx == s.rx
  {
  }

  /** The window between the two is real. A monitor finds its ring empty, a full burst
      arrives with its signal, and only then does the monitor wait: it sleeps on 256
      packets while len is 0, and the next signal is another 256 packets away. */
  lemma LostWakeup()
    ensures Wired(SMALL)
    ensures var s := Run(SMALL, [Dequeue(0), Receive(0, Packets(256)), Enqueue(0), Signal(0), Block(0)]);
            var ch := s.chans[0];
            s.rx[0].stage.Polling? && ch.phase.Waiting? && ch.len == 0 && |ch.queue| == 256
  {
    hide Inv, Packets, Enabled, Step, Run;
    RaceStart();
    var a1, a2, a3, a4 := Dequeue(0), Receive(0, Packets(256)), Enqueue(0), Signal(0);
    RunNext(SMALL, [], a1);
    assert [] + [a1] == [a1];
    var s1 := Run(SMALL, [a1]);
    RaceReceive(s1, s1.chans[0]);
    RunNext(SMALL, [a1], a2);
    var s2 := Run(SMALL, [a1, a2]);
    assert [a1] + [a2] == [a1, a2];
    RaceHandOver(s2, s2.chans[0]);
    RunNext(SMALL, [a1, a2], a3);
    assert [a1, a2] + [a3] == [a1, a2, a3];
    RunNext(SMALL, [a1, a2, a3], a4);
    assert [a1, a2, a3] + [a4] == [a1, a2, a3, a4];
    var s4 := Run(SMALL, [a1, a2, a3, a4]);
    RaceBlock(s4);
    RunNext(SMALL, [a1, a2, a3, a4], Block(0));
    assert [a1, a2, a3, a4] + [Block(0)] == [a1, a2, a3, a4, Block(0)];
    PacketsTimes(256, 0);
  }
}
