/** When a marker of the P-square estimator can be left behind: after its turn, a whole
    position or more below its desired one although the next position is free. */
module P2Behind {
  import opened P2
  import opened P2Positions

  /** The markers as get_qt finds them with sample x counted, after the samples seen. */
  function Incoming(seen: seq<real>, x: real, p: real): (s: Markers)
    requires |seen| >= 5
    ensures Placed(s)
  {
    var m := After(seen, p);
    Sampled(m.(q := InsertUpTo(m.q, 5)), x, p)
  }

  /** After its turn marker i lags by a whole position behind a free one. */
  predicate LeftBehind(s: Markers, i: nat)
    requires Placed(s) && 1 <= i <= 3
  {
    var r := Turns(s, i);
    Lag(r, i) >= 1.0 && r.n[i] + 1 < r.n[i + 1]
  }

  /** The quantiles for which that never happens. */
  predicate KeepsPace(p: real) {
    p < 4.0 / 7.0 || 0.6 <= p < 0.625
  }

  // ---------------------------------------------------------------- why it does not happen

  /** Desired positions with k samples after the first and t = k p. */
  predicate Aims(m: Markers, k: real, t: real) {
    |m.n1| == 5 && m.n1[1] == 1.0 + t / 2.0 && m.n1[2] == 1.0 + t && m.n1[3] == 1.0 + (k + t) / 2.0
  }

  lemma ScheduleAims(m: Markers, count: nat, p: real)
    requires OnSchedule(m, count, p)
    ensures Aims(m, (count - 1) as real, (count - 1) as real * p)
  {
    var k := (count - 1) as real;
    assert k * (p / 2.0) == k * p / 2.0 && k * ((p + 1.0) / 2.0) == (k * p + k) / 2.0;
  }

  /** Markers 1 and 2, when they lag by a whole position, have at most one free position before
      them; and where the markers stand after the sixth and seventh sample for p from 3/5 on. */
  predicate Pressing(m: Markers, count: nat, p: real)
    requires Placed(m)
  {
    (Lag(m, 1) >= 1.0 ==> m.n[2] <= m.n[1] + 2) && (Lag(m, 2) >= 1.0 ==> m.n[3] <= m.n[2] + 2) &&
    (p >= 0.6 && count == 6 ==> m.n[3] == 5) && (p >= 0.6 && count == 7 ==> m.n[2] >= 4)
  }

  lemma Scaled(a: real, b: real, c: real)
    requires a >= b && c >= 0.0
    ensures a * c >= b * c
  {
    assert (a - b) * c >= 0.0;
  }

  /** With marker 2 two positions behind a full gap there are at most nine samples. */
  lemma FewSamples(k: real, p: real)
    requires 0.0 < p < 0.625 && k - k * p < 2.0 + 2.0 * p
    ensures k < 9.0
  {
    if k >= 9.0 {
      Scaled(k, 9.0, 1.0 - p);
    }
  }

  lemma FullGap(m: Markers, k: real, t: real, p: real)
    requires Placed(m) && Aims(m, k, t) && Lag(m, 3) < 1.0 && m.n[3] == m.n[2] + 2 && Lag(m, 2) + p >= 2.0
    ensures k - t < 2.0 + 2.0 * p
  {
  }

  /** Marker 2 cannot be two positions behind with two free ones before it. */
  lemma SecondKeepsUp(m: Markers, count: nat, p: real)
    requires Placed(m) && count >= 5 && 0.0 < p && KeepsPace(p) && Aims(m, (count - 1) as real, (count - 1) as real * p)
    requires m.n[0] == 1 && m.n[4] == count && Lag(m, 3) < 1.0 && Pressing(m, count, p)
    requires m.n[3] == m.n[2] + 2
    ensures Lag(m, 2) + p < 2.0
  {
    if Lag(m, 2) + p >= 2.0 {
      var k := (count - 1) as real;
      FullGap(m, k, k * p, p);
      FewSamples(k, p);
      assert count <= 9;
      SmallCounts(m, count, p);
    }
  }

  lemma SmallCounts(m: Markers, count: nat, p: real)
    requires Placed(m) && 5 <= count <= 9 && 0.0 < p && KeepsPace(p)
    requires Aims(m, (count - 1) as real, (count - 1) as real * p)
    requires m.n[0] == 1 && Lag(m, 3) < 1.0 && Pressing(m, count, p)
    requires m.n[3] == m.n[2] + 2
    ensures Lag(m, 2) + p < 2.0
  {
    assert m.n[2] >= 3;
    if count == 5 {
    } else if count == 6 {
    } else if count == 7 {
    } else if count == 8 {
    } else {
      assert count == 9;
    }
  }

  /** Nor can marker 1. */
  lemma FirstKeepsUp(m: Markers, count: nat, p: real)
    requires Placed(m) && count >= 5 && 0.0 < p < 0.625 && Aims(m, (count - 1) as real, (count - 1) as real * p)
    requires m.n[0] == 1 && Lag(m, 3) < 1.0 && Pressing(m, count, p)
    requires m.n[2] == m.n[1] + 2
    ensures Lag(m, 1) + p / 2.0 < 2.0
  {
    var k := (count - 1) as real;
    if k >= 6.0 + p {
      Scaled(k, 6.0 + p, 1.0 - p);
    } else {
      Scaled(6.0 + p, k, p);
    }
  }

  /** In step with the schedule, and pressing. */
  predicate Pacing(m: Markers, count: nat, p: real) {
    Placed(m) && OnSchedule(m, count, p) && count >= 5 && Close(m) && Pressing(m, count, p)
  }

  lemma NobodyLeftBehind(m: Markers, x: real, p: real, count: nat, i: nat)
    requires Pacing(m, count, p) && 0.0 < p && KeepsPace(p) && 1 <= i <= 3
    ensures !LeftBehind(Sampled(m, x, p), i)
  {
    hide Sampled, Cell, Turns, OnSchedule, LeadsBlocked, KeepsPace;
    StillLags(m, x, p, i);
    SampleShifts(m, x, p);
    ScheduleAims(m, count, p);
    ScheduleStart(m, count, p);
    PaceBelow(p);
    if m.n[2] == m.n[1] + 2 {
      FirstKeepsUp(m, count, p);
    }
    if m.n[3] == m.n[2] + 2 {
      SecondKeepsUp(m, count, p);
    }
  }

  lemma PaceBelow(p: real)
    requires KeepsPace(p)
    ensures p < 0.625
  {
  }

  lemma ScheduleStart(m: Markers, count: nat, p: real)
    requires OnSchedule(m, count, p)
    ensures m.n[0] == 1 && m.n[4] == count
  {
  }

  /** If nobody is left behind the gaps stay small. */
  lemma GapsStaySmall(s: Markers)
    requires Placed(s) && !LeftBehind(s, 1) && !LeftBehind(s, 2)
    ensures var r := Adjust(Adjust(Adjust(s, 1), 2), 3);
            (Lag(r, 1) >= 1.0 ==> r.n[2] <= r.n[1] + 2) && (Lag(r, 2) >= 1.0 ==> r.n[3] <= r.n[2] + 2)
  {
    hide Adjust, Turns;
    TurnsAre(s);
    AdjustMoves(s, 1);
    AdjustMoves(Adjust(s, 1), 2);
    AdjustMoves(Adjust(Adjust(s, 1), 2), 3);
  }

  /** The third marker after the sixth sample, and the second after the seventh. */
  lemma EarlyMoves(s: Markers, count: nat, p: real)
    requires Placed(s) && 0.6 <= p < 0.625 && Aims(s, (count - 1) as real, (count - 1) as real * p)
    requires s.n[0] == 1 && s.n[4] == count && (count == 7 ==> s.n[3] >= 5)
    ensures var r := Adjust(Adjust(Adjust(s, 1), 2), 3);
            (count == 6 ==> r.n[3] == 5) && (count == 7 ==> r.n[2] >= 4)
  {
    hide Adjust;
    AdjustMoves(s, 1);
    AdjustMoves(Adjust(s, 1), 2);
    AdjustMoves(Adjust(Adjust(s, 1), 2), 3);
  }

  /** If nobody is left behind the markers stay pressing. */
  lemma KeepsPressing(m: Markers, x: real, p: real, count: nat)
    requires Pacing(m, count, p) && 0.0 < p < 0.625
    requires forall i :: 1 <= i <= 3 ==> !LeftBehind(Sampled(m, x, p), i)
    ensures Pressing(GetQtSpec(m, x, p), count + 1, p)
  {
    hide Sampled, Cell, Adjust, OnSchedule, Close, LeftBehind, Lag, Aims;
    var s := Sampled(m, x, p);
    GapsStaySmall(s);
    SampleShifts(m, x, p);
    SampleKeepsSchedule(m, x, p, count);
    var c := count + 1;
    ScheduleAims(s, c, p);
    ScheduleStart(s, c, p);
    if p >= 0.6 {
      EarlyMoves(s, c, p);
    }
  }

  lemma {:induction false} StreamPaces(seen: seq<real>, p: real)
    requires |seen| >= 5 && 0.0 < p && KeepsPace(p)
    ensures Pacing(After(seen, p), |seen|, p)
  {
    hide GetQtSpec, OnSchedule, KeepsPace, Close, Pressing;
    PaceBelow(p);
    AfterOnSchedule(seen, p);
    AfterClose(seen, p);
    if |seen| == 5 {
      StartPresses(seen, p);
    } else {
      var k := |seen| - 1;
      StreamPaces(seen[..k], p);
      var m := After(seen[..k], p);
      var s := m.(q := InsertUpTo(m.q, 5));
      PacingIgnoresHeights(m, s, k, p);
      forall i | 1 <= i <= 3 ensures !LeftBehind(Sampled(s, seen[k], p), i) {
        NobodyLeftBehind(s, seen[k], p, k, i);
      }
      KeepsPressing(s, seen[k], p, k);
    }
  }

  lemma StartPresses(seen: seq<real>, p: real)
    requires |seen| == 5
    ensures Pressing(After(seen, p), 5, p)
  {
  }

  lemma PacingIgnoresHeights(m: Markers, s: Markers, count: nat, p: real)
    requires Pacing(m, count, p) && |s.q| == 5 && s.n == m.n && s.n1 == m.n1
    ensures Pacing(s, count, p)
  {
    hide Dn;
  }

  // ---------------------------------------------------------------- how it happens otherwise

  /** Gaps that grow evenly: 10, 20, 30 and so on. */
  function Ramp(n: nat): (s: seq<real>)
    ensures |s| == n
  {
    seq(n, i => 10.0 * (i + 1) as real)
  }

  /** Every height is ten times the position. */
  predicate OnLine(m: Markers) {
    Placed(m) && forall i :: 0 <= i < 5 ==> m.q[i] == 10.0 * m.n[i] as real
  }

  lemma LineIsQuadratic(x: real)
    ensures Quadratic(0.0, 10.0, 0.0, x) == 10.0 * x
  {
  }

  lemma AdjustKeepsLine(m: Markers, i: nat)
    requires OnLine(m) && 1 <= i <= 3
    ensures OnLine(Adjust(m, i))
  {
    hide Quadratic, Direction, Height;
    var r := Adjust(m, i);
    forall x ensures Quadratic(0.0, 10.0, 0.0, x) == 10.0 * x {
      LineIsQuadratic(x);
    }
    AdjustHeight(m, i, 0.0, 10.0, 0.0);
    AdjustMoves(m, i);
  }

  /** One more step of the ramp counts for the last marker only. */
  lemma RampStep(n: nat, p: real) returns (s: Markers)
    requires n >= 5 && OnLine(After(Ramp(n), p))
    ensures Placed(s) && s.n == After(Ramp(n), p).n[4 := n + 1] && Aims(s, n as real, n as real * p)
    ensures After(Ramp(n + 1), p) == Adjust(Adjust(Adjust(s, 1), 2), 3) && OnLine(After(Ramp(n + 1), p))
  {
    hide After, Adjust;
    var m, x := After(Ramp(n), p), 10.0 * (n + 1) as real;
    AfterOnSchedule(Ramp(n), p);
    assert Ramp(n + 1) == Ramp(n) + [x];
    AfterNext(Ramp(n), x, p);
    s := Sampled(m, x, p);
    SampleCounts(m, x, p);
    SampleKeepsSchedule(m, x, p, n);
    ScheduleAims(s, n + 1, p);
    assert (n + 1 - 1) as real == n as real;
    assert s.q == m.q[4 := x];
    AdjustKeepsLine(s, 1);
    AdjustKeepsLine(Adjust(s, 1), 2);
    AdjustKeepsLine(Adjust(Adjust(s, 1), 2), 3);
  }

  lemma RampStart(p: real)
    ensures OnLine(After(Ramp(5), p)) && After(Ramp(5), p).n == [1, 2, 3, 4, 5]
  {
    assert Ramp(5) == [10.0, 20.0, 30.0, 40.0, 50.0];
  }

  lemma RampSix(p: real)
    requires 4.0 / 7.0 <= p < 1.0
    ensures OnLine(After(Ramp(6), p))
    ensures After(Ramp(6), p).n == if p < 0.6 then [1, 2, 3, 4, 6] else [1, 2, 3, 5, 6]
  {
    hide After, Adjust, OnLine;
    RampStart(p);
    var s := RampStep(5, p);
    AdjustMoves(s, 1);
    AdjustMoves(Adjust(s, 1), 2);
    AdjustMoves(Adjust(Adjust(s, 1), 2), 3);
  }

  lemma RampSeven(p: real)
    requires 4.0 / 7.0 <= p < 2.0 / 3.0
    ensures OnLine(After(Ramp(7), p))
    ensures After(Ramp(7), p).n == if p < 0.6 then [1, 2, 3, 5, 7] else [1, 2, 4, 5, 7]
  {
    hide After, Adjust, OnLine;
    RampSix(p);
    var s := RampStep(6, p);
    AdjustMoves(s, 1);
    AdjustMoves(Adjust(s, 1), 2);
    AdjustMoves(Adjust(Adjust(s, 1), 2), 3);
  }

  lemma RampEight(p: real)
    requires 0.625 <= p < 2.0 / 3.0
    ensures OnLine(After(Ramp(8), p)) && After(Ramp(8), p).n == [1, 3, 4, 6, 8]
  {
    hide After, Adjust, OnLine;
    RampSeven(p);
    var s := RampStep(7, p);
    AdjustMoves(s, 1);
    AdjustMoves(Adjust(s, 1), 2);
    AdjustMoves(Adjust(Adjust(s, 1), 2), 3);
  }

  /** A gap of 45 after that pulls the upper markers away from marker 2. */
  lemma PulledAway(n: nat, p: real)
    requires n >= 5 && OnLine(After(Ramp(n), p))
    requires var m := After(Ramp(n), p);
             m.n[2] <= 4 && m.n[3] >= 5 && m.n[3] == m.n[2] + 2 && 1.0 + n as real * p >= m.n[2] as real + 2.0
    ensures LeftBehind(Incoming(Ramp(n), 45.0, p), 2)
  {
    hide After, Turns, OnSchedule;
    var m := After(Ramp(n), p);
    var c := n + 1;
    AfterOnSchedule(Ramp(n), p);
    SortedIsFixed(m.q, 5);
    SampleCounts(m, 45.0, p);
    SampleKeepsSchedule(m, 45.0, p, n);
    ScheduleAims(Sampled(m, 45.0, p), c, p);
    assert Sampled(m, 45.0, p).n1[2] == 1.0 + n as real * p;
    hide Sampled, Aims;
    StillLags(m, 45.0, p, 2);
  }

  /** The number of steps of the ramp that leaves marker 2 behind for a given p. */
  function RampLength(p: real): nat {
    if p >= 2.0 / 3.0 then 6 else if p < 0.6 then 7 else 8
  }

  lemma RampLeavesBehind(p: real)
    requires 0.0 < p < 1.0 && !KeepsPace(p)
    ensures LeftBehind(Incoming(Ramp(RampLength(p)), 45.0, p), 2)
  {
    hide After, Incoming, LeftBehind;
    if p >= 2.0 / 3.0 {
      RampSix(p);
    } else if p < 0.6 {
      RampSeven(p);
    } else {
      RampEight(p);
    }
    PulledAway(RampLength(p), p);
  }

  /** For 0 < p < 1 no marker is ever left behind, whatever the samples, if and only if p is
      below 4/7 or at least 3/5 and below 5/8. */
  lemma PaceExact(p: real)
    requires 0.0 < p < 1.0
    ensures KeepsPace(p) <==>
            forall seen: seq<real>, x, i | |seen| >= 5 && 1 <= i <= 3 :: !LeftBehind(Incoming(seen, x, p), i)
  {
    if KeepsPace(p) {
      forall seen: seq<real>, x, i | |seen| >= 5 && 1 <= i <= 3 ensures !LeftBehind(Incoming(seen, x, p), i) {
        IncomingPaces(seen, x, p, i);
      }
    } else {
      RampLeavesBehind(p);
    }
  }

  lemma IncomingPaces(seen: seq<real>, x: real, p: real, i: nat)
    requires |seen| >= 5 && 0.0 < p && KeepsPace(p) && 1 <= i <= 3
    ensures !LeftBehind(Incoming(seen, x, p), i)
  {
    hide After, LeftBehind, Pacing, KeepsPace;
    var m := After(seen, p);
    var s := m.(q := InsertUpTo(m.q, 5));
    StreamPaces(seen, p);
    PacingIgnoresHeights(m, s, |seen|, p);
    NobodyLeftBehind(s, x, p, |seen|, i);
  }

  /** With the 0.99 of the source the seventh of these gaps leaves marker 2 behind. */
  lemma SeventhGap()
    ensures LeftBehind(Incoming(Samples([10, 20, 30, 40, 50, 60]), 45.0, 0.99), 2)
  {
    assert Samples([10, 20, 30, 40, 50, 60]) == Ramp(6);
    hide Incoming, LeftBehind;
    RampLeavesBehind(0.99);
  }
}
