/** What the pipeline's rings refuse and deliver: packets are lost to full rings only,
    ring_loss counts exactly those, and no thread ever gets stuck. */
module PipelineRings {
  import FlowCells
  import FlowTables
  import opened Pipeline

  // ---------------------------------------------------------------- full rings

  predicate RingsFit(cfg: Config, s: State) {
    forall c :: 0 <= c < |s.chans| ==> |s.chans[c].queue| <= cfg.capacity
  }

  lemma KeepsRingsFit(cfg: Config, s: State, a: Action)
    requires Wired(cfg) && Shape(cfg, s) && Enabled(cfg, s, a) && RingsFit(cfg, s)
    ensures RingsFit(cfg, Step(cfg, s, a))
  {
    hide FlowCells.DoubleHit;
  }

  /** No ring ever holds more than its capacity. */
  lemma {:induction false} RingsNeverOverfull(cfg: Config, actions: seq<Action>)
    requires Wired(cfg)
    ensures RingsFit(cfg, Run(cfg, actions))
  {
    hide Step, Enabled, Owned, Conserved, Counted, ChannelInv, Arrived, TakesTurns, BurstsFit, RingsFit;
    if actions != [] {
      var before, a := actions[..|actions| - 1], actions[|actions| - 1];
      RingsNeverOverfull(cfg, before);
      var s := Run(cfg, before);
      if Enabled(cfg, s, a) {
        KeepsRingsFit(cfg, s, a);
      }
    } else {
      StartFits(cfg);
    }
  }

  lemma StartFits(cfg: Config)
    ensures RingsFit(cfg, Start(cfg))
  {
  }

  lemma EnqueueFills(cfg: Config, s: State, t: nat)
    requires Wired(cfg) && Shape(cfg, s) && Enabled(cfg, s, Enqueue(t)) && RingsFit(cfg, s)
    ensures var r := Step(cfg, s, Enqueue(t));
            var c := Current(cfg, s, t);
            |r.rx| == |s.rx| && |r.chans| == |s.chans| && r.rx[t].stage.Enqueued? &&
            var queue, rest := r.chans[c].queue, r.rx[t].stage.rest;
            queue + rest == s.chans[c].queue + s.rx[t].stage.burst &&
            r.rx[t].stage.ret == |queue| - |s.chans[c].queue| &&
            |queue| <= cfg.capacity && (rest != [] ==> |queue| == cfg.capacity)
  {
    var c := Current(cfg, s, t);
    assert |s.chans[c].queue| <= cfg.capacity;
    var burst := s.rx[t].stage.burst;
    var ret := Min(|burst|, Room(cfg, s.chans[c]));
    assert burst == burst[..ret] + burst[ret..];
  }

  /** Whenever an rx thread hands over its burst, ring and leftover together are the old ring
      followed by the burst, and only a full ring leaves anything over. */
  lemma OnlyFullRingsRefuse(cfg: Config, actions: seq<Action>, t: nat)
    requires Wired(cfg) && t < |cfg.rings| && Run(cfg, actions).rx[t].stage.Holding?
    ensures var s, r := Run(cfg, actions), Run(cfg, actions + [Enqueue(t)]);
            var c := Current(cfg, s, t);
            var queue := r.chans[c].queue;
            r.rx[t].stage.Enqueued? && queue + r.rx[t].stage.rest == s.chans[c].queue + s.rx[t].stage.burst &&
            r.rx[t].stage.ret == |queue| - |s.chans[c].queue| &&
            |queue| <= cfg.capacity && (r.rx[t].stage.rest != [] ==> |queue| == cfg.capacity)
  {
    hide Inv, Step, Run;
    RingsNeverOverfull(cfg, actions);
    RunShape(cfg, actions);
    RunNext(cfg, actions, Enqueue(t));
    EnqueueFills(cfg, Run(cfg, actions), t);
  }

  lemma RunShape(cfg: Config, actions: seq<Action>)
    requires Wired(cfg)
    ensures Shape(cfg, Run(cfg, actions))
  {
  }

  /** How many packets action a finds no room for. */
  function Refused(cfg: Config, s: State, a: Action): nat
    requires Wired(cfg) && Shape(cfg, s)
  {
    if a.Enqueue? && a.t < |s.rx| && s.rx[a.t].stage.Holding? then
      var needed := |s.chans[Current(cfg, s, a.t)].queue| + |s.rx[a.t].stage.burst|;
      if needed > cfg.capacity then needed - cfg.capacity else 0
    else 0
  }

  ghost function RefusedIn(cfg: Config, actions: seq<Action>): nat
    requires Wired(cfg)
  {
    if actions == [] then 0 else
    var before := actions[..|actions| - 1];
    RefusedIn(cfg, before) + Refused(cfg, Run(cfg, before), actions[|actions| - 1])
  }

  /** Refused packets not yet added to ring_loss. */
  function Unreported(th: RxThread): nat {
    if th.stage.Enqueued? then |th.stage.rest| else 0
  }

  lemma RefusedNext(cfg: Config, s: State, a: Action)
    requires Wired(cfg) && Shape(cfg, s) && Enabled(cfg, s, a) && RingsFit(cfg, s)
    ensures var r := Step(cfg, s, a);
            r.ringLoss + Sum(r.rx, Unreported) == s.ringLoss + Sum(s.rx, Unreported) + Refused(cfg, s, a)
  {
    hide FlowCells.DoubleHit, Notify, Accept, Take;
    var r := Step(cfg, s, a);
    if a.Receive? || a.Enqueue? || a.Signal? || a.Drop? {
      SumUpdate(s.rx, Unreported, a.t, r.rx[a.t]);
    }
    if a.Enqueue? {
      var c := Current(cfg, s, a.t);
      assert |s.chans[c].queue| <= cfg.capacity;
    }
  }

  /** ring_loss counts exactly the packets that found no room. */
  lemma {:induction false} RingLossExact(cfg: Config, actions: seq<Action>)
    requires Wired(cfg)
    ensures var s := Run(cfg, actions);
            (forall t :: 0 <= t < |s.rx| ==> !s.rx[t].stage.Enqueued?) ==> s.ringLoss == RefusedIn(cfg, actions)
    ensures var s := Run(cfg, actions); s.ringLoss + Sum(s.rx, Unreported) == RefusedIn(cfg, actions)
  {
    hide Step, Enabled, Refused, Owned, Conserved, Counted, ChannelInv, Arrived, TakesTurns, BurstsFit, RingsFit;
    var s := Run(cfg, actions);
    if forall t :: 0 <= t < |s.rx| ==> !s.rx[t].stage.Enqueued? {
      SumOfZero(s.rx, Unreported);
    }
    if actions != [] {
      var before, a := actions[..|actions| - 1], actions[|actions| - 1];
      RingLossExact(cfg, before);
      RingsNeverOverfull(cfg, before);
      if Enabled(cfg, Run(cfg, before), a) {
        RefusedNext(cfg, Run(cfg, before), a);
      } else {
        NothingRefused(cfg, Run(cfg, before), a);
      }
    } else {
      SumOfZero(Start(cfg).rx, Unreported);
    }
  }

  lemma NothingRefused(cfg: Config, s: State, a: Action)
    requires Wired(cfg) && Shape(cfg, s) && !Enabled(cfg, s, a)
    ensures Refused(cfg, s, a) == 0
  {
  }

  // ---------------------------------------------------------------- rings as large as the pool

  lemma {:induction false} DistinctAreFew(ms: seq<Mbuf>, pool: set<nat>)
    requires forall x: nat :: Times(ms, x) <= One(x in pool)
    ensures |ms| <= |pool|
  {
    if ms != [] {
      var last := ms[|ms| - 1].id;
      assert Times(ms, last) >= 1;
      forall x: nat ensures Times(ms[..|ms| - 1], x) <= One(x in pool - {last}) {
        assert Times(ms, x) <= One(x in pool);
      }
      DistinctAreFew(ms[..|ms| - 1], pool - {last});
    }
  }

  lemma {:induction false} ChannelsHoldQueue(chans: seq<Channel>, c: nat, x: nat)
    requires c < |chans|
    ensures ChannelsHold(chans, x) >= Times(chans[c].queue, x)
  {
    if c < |chans| - 1 {
      ChannelsHoldQueue(chans[..|chans| - 1], c, x);
    }
  }

  /** What is in a ring or about to be put there is in distinct buffers of the pool. */
  lemma QueueAndBurstDistinct(cfg: Config, s: State, t: nat)
    requires Wired(cfg) && Shape(cfg, s) && Owned(cfg, s) && t < |s.rx| && s.rx[t].stage.Holding?
    ensures |s.chans[Current(cfg, s, t)].queue| + |s.rx[t].stage.burst| <= |cfg.pool|
  {
    var c := Current(cfg, s, t);
    var ms := s.chans[c].queue + s.rx[t].stage.burst;
    forall x: nat ensures Times(ms, x) <= One(x in cfg.pool) {
      assert OwnedOnce(cfg, s, x);
      TimesConcat(s.chans[c].queue, s.rx[t].stage.burst, x);
      ChannelsHoldQueue(s.chans, c, x);
      RxHoldsAtLeast(s.rx, t, x);
    }
    DistinctAreFew(ms, cfg.pool);
  }

  /** If a ring has room for the whole pool, no packet is ever lost. */
  lemma {:induction false} LargeRingsLoseNothing(cfg: Config, actions: seq<Action>)
    requires Wired(cfg) && |cfg.pool| <= cfg.capacity
    ensures RefusedIn(cfg, actions) == 0 && Run(cfg, actions).ringLoss == 0
  {
    hide Step, Enabled, Owned, Conserved, Counted, ChannelInv, Arrived, TakesTurns, BurstsFit;
    RingLossExact(cfg, actions);
    if actions != [] {
      var before, a := actions[..|actions| - 1], actions[|actions| - 1];
      LargeRingsLoseNothing(cfg, before);
      var s := Run(cfg, before);
      if a.Enqueue? && a.t < |s.rx| && s.rx[a.t].stage.Holding? {
        QueueAndBurstDistinct(cfg, s, a.t);
      }
    }
  }

  // ---------------------------------------------------------------- dequeuing

  lemma DequeueTakes(cfg: Config, s: State, c: nat)
    requires Wired(cfg) && Shape(cfg, s) && Enabled(cfg, s, Dequeue(c))
    ensures var r := Step(cfg, s, Dequeue(c));
            var t := cfg.owner[c];
            |r.chans| == |s.chans| && |r.re| == |s.re| &&
            var ch := r.chans[c];
            ch.held + ch.queue == s.chans[c].queue && |ch.held| <= 256 && (ch.queue != [] ==> |ch.held| == 256) &&
            (ch.phase.SawEmpty? <==> s.chans[c].queue == []) && r.re[t] == s.re[t] + |ch.held|
  {
    var queue := s.chans[c].queue;
    var n := Min(BURST_SIZE, |queue|);
    assert queue == queue[..n] + queue[n..];
  }

  /** A monitor takes up to 256 packets, the oldest first, leaves some only if it got 256, and
      is about to wait exactly if it found none. */
  lemma DequeueTakesMost(cfg: Config, actions: seq<Action>, c: nat)
    requires Wired(cfg) && c < |cfg.owner|
    requires Run(cfg, actions).chans[c].phase.Running? && Run(cfg, actions).chans[c].held == []
    ensures var s, r := Run(cfg, actions), Run(cfg, actions + [Dequeue(c)]);
            var ch, t := r.chans[c], cfg.owner[c];
            ch.held + ch.queue == s.chans[c].queue && |ch.held| <= 256 && (ch.queue != [] ==> |ch.held| == 256) &&
            (ch.phase.SawEmpty? <==> s.chans[c].queue == []) && r.re[t] == s.re[t] + |ch.held|
  {
    hide Inv, Step, Run;
    RunShape(cfg, actions);
    RunNext(cfg, actions, Dequeue(c));
    DequeueTakes(cfg, Run(cfg, actions), c);
  }

  /** What the monitors of rx thread t have dequeued from the first |chans| rings. */
  function TakenFrom(chans: seq<Channel>, owner: seq<nat>, t: nat): nat
    requires |chans| <= |owner|
  {
    if chans == [] then 0 else
    var k := |chans| - 1;
    TakenFrom(chans[..k], owner, t) + if owner[k] == t then Taken(chans[k]) else 0
  }

  lemma {:induction false} TakenFromUpdate(chans: seq<Channel>, owner: seq<nat>, t: nat, c: nat, ch: Channel)
    requires c < |chans| <= |owner|
    ensures TakenFrom(chans[c := ch], owner, t) ==
            TakenFrom(chans, owner, t) + if owner[c] == t then Taken(ch) - Taken(chans[c]) else 0
  {
    var k := |chans| - 1;
    if c == k {
      assert chans[c := ch][..k] == chans[..k];
    } else {
      assert chans[c := ch][..k] == chans[..k][c := ch];
      TakenFromUpdate(chans[..k], owner, t, c, ch);
    }
  }

  lemma KeepsRe(cfg: Config, s: State, a: Action, t: nat)
    requires Wired(cfg) && Shape(cfg, s) && Enabled(cfg, s, a) && t < |s.re|
    requires s.re[t] == TakenFrom(s.chans, cfg.owner, t)
    ensures var r := Step(cfg, s, a);
            |r.chans| == |cfg.owner| && |r.re| == |s.re| && r.re[t] == TakenFrom(r.chans, cfg.owner, t)
  {
    hide FlowCells.DoubleHit;
    var r := Step(cfg, s, a);
    match a {
      case Receive(_, _) =>
      case Drop(_) =>
      case Enqueue(u) => TakenFromUpdate(s.chans, cfg.owner, t, Current(cfg, s, u), r.chans[Current(cfg, s, u)]);
      case Signal(u) => TakenFromUpdate(s.chans, cfg.owner, t, Current(cfg, s, u), r.chans[Current(cfg, s, u)]);
      case Dequeue(c) => TakenFromUpdate(s.chans, cfg.owner, t, c, r.chans[c]);
      case Block(c) => TakenFromUpdate(s.chans, cfg.owner, t, c, r.chans[c]);
      case Process(c) => TakenFromUpdate(s.chans, cfg.owner, t, c, r.chans[c]);
    }
  }

  lemma {:induction false} NothingTaken(chans: seq<Channel>, owner: seq<nat>, t: nat)
    requires |chans| <= |owner| && forall c :: 0 <= c < |chans| ==> Taken(chans[c]) == 0
    ensures TakenFrom(chans, owner, t) == 0
  {
    if chans != [] {
      NothingTaken(chans[..|chans| - 1], owner, t);
    }
  }

  /** Each rx thread's re counts what its own monitors have dequeued. */
  lemma {:induction false} RePerThread(cfg: Config, actions: seq<Action>, t: nat)
    requires Wired(cfg) && t < |cfg.rings|
    ensures var s := Run(cfg, actions); s.re[t] == TakenFrom(s.chans, cfg.owner, t)
  {
    hide Step, Enabled, Owned, Conserved, Counted, ChannelInv, Arrived, TakesTurns, BurstsFit, Taken, TakenFrom;
    if actions != [] {
      var before, a := actions[..|actions| - 1], actions[|actions| - 1];
      RePerThread(cfg, before, t);
      var s := Run(cfg, before);
      if Enabled(cfg, s, a) {
        KeepsRe(cfg, s, a, t);
      }
    } else {
      StartTakes(cfg, t);
    }
  }

  lemma StartTakes(cfg: Config, t: nat)
    ensures TakenFrom(Start(cfg).chans, cfg.owner, t) == 0
  {
    NothingTaken(Start(cfg).chans, cfg.owner, t);
  }

  // ---------------------------------------------------------------- no thread is stuck

  predicate DropsSomething(s: State) {
    forall t :: 0 <= t < |s.rx| && s.rx[t].stage.Dropping? ==> s.rx[t].stage.rest != []
  }

  lemma KeepsDropping(cfg: Config, s: State, a: Action)
    requires Wired(cfg) && Shape(cfg, s) && Enabled(cfg, s, a) && DropsSomething(s)
    ensures DropsSomething(Step(cfg, s, a))
  {
    hide FlowCells.DoubleHit, Notify, Accept, Take;
  }

  lemma {:induction false} RunDropsSomething(cfg: Config, actions: seq<Action>)
    requires Wired(cfg)
    ensures DropsSomething(Run(cfg, actions))
  {
    hide Step, Enabled, Owned, Conserved, Counted, ChannelInv, Arrived, TakesTurns, BurstsFit, DropsSomething;
    if actions != [] {
      var before, a := actions[..|actions| - 1], actions[|actions| - 1];
      RunDropsSomething(cfg, before);
      var s := Run(cfg, before);
      if Enabled(cfg, s, a) {
        KeepsDropping(cfg, s, a);
      }
    } else {
      StartDropsNothing(cfg);
    }
  }

  lemma StartDropsNothing(cfg: Config)
    ensures DropsSomething(Start(cfg))
  {
  }

  /** The step an rx thread is to make; burst is what it receives next. */
  function NextOfRx(s: State, t: nat, burst: seq<Mbuf>): Action
    requires t < |s.rx|
  {
    match s.rx[t].stage
    case Polling => Receive(t, burst)
    case Holding(_) => Enqueue(t)
    case Enqueued(_, _) => Signal(t)
    case Dropping(_) => Drop(t)
  }

  /** The step a monitor is to make unless it waits. */
  function NextOfMonitor(s: State, c: nat): Action
    requires c < |s.chans|
  {
    if s.chans[c].held != [] then Process(c) else if s.chans[c].phase.Running? then Dequeue(c) else Block(c)
  }

  /** In every reachable state every rx thread can make its next step, receiving any 1 to 256
      distinct free buffers, and so can every monitor that does not wait. */
  lemma NobodyStuck(cfg: Config, actions: seq<Action>, t: nat, burst: seq<Mbuf>, c: nat)
    requires Wired(cfg) && t < |cfg.rings| && c < |cfg.owner|
    ensures var s := Run(cfg, actions);
            (!s.rx[t].stage.Polling? || (0 < |burst| <= 256 && forall x: nat :: Times(burst, x) <= One(x in s.free)) ==>
              Enabled(cfg, s, NextOfRx(s, t, burst))) &&
            (!s.chans[c].phase.Waiting? ==> Enabled(cfg, s, NextOfMonitor(s, c)))
  {
    hide Owned, Conserved, Counted, ChannelInv, Arrived, TakesTurns, BurstsFit;
    RunShape(cfg, actions);
    RunDropsSomething(cfg, actions);
    hide Run;
  }

  // ---------------------------------------------------------------- what is counted

  /** How many of ms carry hash h. */
  function Carrying(ms: seq<Mbuf>, h: FlowTables.Packet): nat {
    if ms == [] then 0 else Carrying(ms[..|ms| - 1], h) + if ms[|ms| - 1].hash == h then 1 else 0
  }

  /** How many processed packets carry hash h. */
  function Processed(chans: seq<Channel>, h: FlowTables.Packet): nat {
    if chans == [] then 0 else Processed(chans[..|chans| - 1], h) + Carrying(chans[|chans| - 1].done, h)
  }

  lemma {:induction false} ProcessedUpdate(chans: seq<Channel>, c: nat, ch: Channel, h: FlowTables.Packet)
    requires c < |chans|
    ensures Processed(chans[c := ch], h) == Processed(chans, h) - Carrying(chans[c].done, h) + Carrying(ch.done, h)
  {
    var k := |chans| - 1;
    if c == k {
      assert chans[c := ch][..k] == chans[..k];
    } else {
      assert chans[c := ch][..k] == chans[..k][c := ch];
      ProcessedUpdate(chans[..k], c, ch, h);
    }
  }

  predicate CountsProcessed(s: State, h: FlowTables.Packet) {
    multiset(s.counted)[h] == Processed(s.chans, h)
  }

  lemma CarryingNext(ms: seq<Mbuf>, m: Mbuf, counted: seq<FlowTables.Packet>, h: FlowTables.Packet)
    ensures Carrying(ms + [m], h) - Carrying(ms, h) == multiset(counted + [m.hash])[h] - multiset(counted)[h]
  {
    assert (ms + [m])[..|ms|] == ms;
  }

  lemma KeepsCountsProcessed(cfg: Config, s: State, a: Action, h: FlowTables.Packet)
    requires Wired(cfg) && Shape(cfg, s) && Enabled(cfg, s, a) && CountsProcessed(s, h)
    ensures CountsProcessed(Step(cfg, s, a), h)
  {
    hide FlowCells.DoubleHit, Processed, Carrying;
    var r := Step(cfg, s, a);
    match a {
      case Receive(t, burst) =>
      case Drop(t) =>
      case Enqueue(t) => ProcessedUpdate(s.chans, Current(cfg, s, t), r.chans[Current(cfg, s, t)], h);
      case Signal(t) => ProcessedUpdate(s.chans, Current(cfg, s, t), r.chans[Current(cfg, s, t)], h);
      case Dequeue(c) => ProcessedUpdate(s.chans, c, r.chans[c], h);
      case Block(c) => ProcessedUpdate(s.chans, c, r.chans[c], h);
      case Process(c) =>
        ProcessedUpdate(s.chans, c, r.chans[c], h);
        CarryingNext(s.chans[c].done, s.chans[c].held[0], s.counted, h);
    }
  }

  lemma {:induction false} NothingProcessed(chans: seq<Channel>, h: FlowTables.Packet)
    requires forall c :: 0 <= c < |chans| ==> chans[c].done == []
    ensures Processed(chans, h) == 0
  {
    if chans != [] {
      NothingProcessed(chans[..|chans| - 1], h);
    }
  }

  /** At any time the table is what the double hash makes of the processed packets: of a
      sequence that has every hash as often as the monitors have processed it. */
  lemma {:induction false} TableOfProcessed(cfg: Config, actions: seq<Action>, h: FlowTables.Packet)
    requires Wired(cfg)
    ensures var s := Run(cfg, actions);
            multiset(s.counted)[h] == Processed(s.chans, h) &&
            forall l: FlowCells.u16 ::
              s.table[l] == FlowCells.DoubleCounted(FlowTables.Highs(s.counted, l))
  {
    hide Step, Enabled, Owned, Conserved, ChannelInv, Arrived, TakesTurns, BurstsFit;
    hide Processed, FlowCells.DoubleCounted, FlowTables.Highs;
    if actions != [] {
      var before, a := actions[..|actions| - 1], actions[|actions| - 1];
      TableOfProcessed(cfg, before, h);
      var s := Run(cfg, before);
      if Enabled(cfg, s, a) {
        KeepsCountsProcessed(cfg, s, a, h);
      }
    } else {
      NothingProcessed(Start(cfg).chans, h);
    }
  }
}
