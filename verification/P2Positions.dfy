/** Where the markers of the P-square estimator stand: which of them a sample counts
    for, when an inner one moves, and how far it can be from its desired position. */
module P2Positions {
  import opened P2

  // ---------------------------------------------------------------- one sample

  /** Before any adjustment a sample counts for the markers at or above it: for marker 1 if
      it is below, for marker 2 if it is not above, for marker 3 if it is below or not above
      marker 2; for marker 4 always, for marker 0 never. */
  lemma SampleCounts(m: Markers, x: real, p: real)
    requires Placed(m) && Ascending(m.q)
    ensures var r := Sampled(m, x, p).n;
            r[0] == m.n[0] && r[4] == m.n[4] + 1 &&
            r[1] == m.n[1] + (if x < m.q[1] then 1 else 0) &&
            r[2] == m.n[2] + (if x <= m.q[2] then 1 else 0) &&
            r[3] == m.n[3] + if x < m.q[3] || x <= m.q[2] then 1 else 0
  {
  }

  /** The desired positions divide the way from 1 to count as the quantiles 0, p/2, p,
      (1 + p)/2 and 1 do. */
  lemma DesiredMidway(seen: seq<real>, p: real)
    requires |seen| >= 5
    ensures var n1 := After(seen, p).n1;
            n1[0] == 1.0 && n1[4] == |seen| as real && n1[2] == 1.0 + p * (|seen| - 1) as real &&
            2.0 * n1[1] == n1[0] + n1[2] && 2.0 * n1[3] == n1[2] + n1[4]
  {
    hide After;
    AfterOnSchedule(seen, p);
    var k := (|seen| - 1) as real;
    assert k * (p / 2.0) == k * p / 2.0 && k * ((p + 1.0) / 2.0) == (k * p + k) / 2.0;
  }

  // ---------------------------------------------------------------- one adjustment

  /** How far marker i is behind its desired position. */
  function Lag(m: Markers, i: nat): real
    requires Placed(m) && 1 <= i <= 3
  {
    m.n1[i] - m.n[i] as real
  }

  /** Marker i moves up exactly if it lags by a whole position and the next one is free, down
      exactly if it leads by a whole position and the previous one is free. */
  lemma AdjustMoves(m: Markers, i: nat)
    requires Placed(m) && 1 <= i <= 3
    ensures var r := Adjust(m, i);
            r.n == m.n[i := r.n[i]] && -1 <= r.n[i] - m.n[i] <= 1 &&
            (r.n[i] == m.n[i] + 1 <==> Lag(m, i) >= 1.0 && m.n[i] + 1 < m.n[i + 1]) &&
            (r.n[i] == m.n[i] - 1 <==> Lag(m, i) <= -1.0 && m.n[i - 1] < m.n[i] - 1)
  {
    hide Height;
  }

  /** A marker that moves gets the height that every quadratic through it and its neighbours
      has at its new position, if that is strictly between the neighbours' heights; otherwise
      the height of the straight line to the neighbour it moves towards. */
  lemma AdjustHeight(m: Markers, i: nat, a: real, b: real, c: real)
    requires Placed(m) && 1 <= i <= 3
    requires forall j :: i - 1 <= j <= i + 1 ==> m.q[j] == Quadratic(a, b, c, m.n[j] as real)
    ensures var r := Adjust(m, i);
            var d, v := r.n[i] - m.n[i], Quadratic(a, b, c, r.n[i] as real);
            d != 0 ==>
              if m.q[i - 1] < v < m.q[i + 1] then r.q[i] == v
              else (r.q[i] - m.q[i]) * (m.n[i + d] - m.n[i]) as real == d as real * (m.q[i + d] - m.q[i])
  {
    hide Parabolic, Quadratic;
    var d := Direction(m, i);
    if d != 0 {
      ParabolicIsQuadratic(a, b, c, m.n[i - 1] as real, m.n[i] as real, m.n[i + 1] as real, d as real);
      assert m.n[i] as real + d as real == (m.n[i] + d) as real;
    }
  }

  /** The markers when the first i inner ones have had their turns. */
  function Turns(s: Markers, i: nat): (r: Markers)
    requires Placed(s) && i <= 3
    ensures Placed(r)
  {
    if i == 0 then s else Adjust(Turns(s, i - 1), i)
  }

  lemma {:induction false} TurnsLeave(s: Markers, i: nat)
    requires Placed(s) && i <= 3
    ensures Turns(s, i).n1 == s.n1 && forall j :: i < j < 5 ==> Turns(s, i).n[j] == s.n[j]
  {
    hide Adjust;
    if i > 0 {
      TurnsLeave(s, i - 1);
      AdjustMoves(Turns(s, i - 1), i);
    }
  }

  lemma TurnsAre(s: Markers)
    requires Placed(s)
    ensures Turns(s, 1) == Adjust(s, 1) && Turns(s, 2) == Adjust(Adjust(s, 1), 2)
    ensures Turns(s, 3) == Adjust(Adjust(Adjust(s, 1), 2), 3)
  {
    hide Adjust;
    assert Turns(s, 0) == s && Turns(s, 1) == Adjust(Turns(s, 0), 1);
    assert Turns(s, 2) == Adjust(Turns(s, 1), 2);
    assert Turns(s, 3) == Adjust(Turns(s, 2), 3);
  }

  /** After its turn in get_qt marker i still lags by a whole position behind a free one
      exactly if, with the sample counted, it lagged by two behind two free ones. */
  lemma StillLags(m: Markers, x: real, p: real, i: nat)
    requires Placed(m) && 1 <= i <= 3
    ensures var s := Sampled(m, x, p);
            var r := Turns(s, i);
            Lag(r, i) >= 1.0 && r.n[i] + 1 < r.n[i + 1] <==> Lag(s, i) >= 2.0 && s.n[i] + 2 < s.n[i + 1]
  {
    hide Adjust, Sampled;
    var s := Sampled(m, x, p);
    TurnsLeave(s, i - 1);
    AdjustMoves(Turns(s, i - 1), i);
    assert Turns(s, i) == Adjust(Turns(s, i - 1), i);
    hide Turns;
  }

  // ---------------------------------------------------------------- a stream of samples

  /** A marker that leads by a whole position or more stands directly above its predecessor. */
  predicate LeadsBlocked(m: Markers, i: nat)
    requires Placed(m) && 1 <= i <= 3
  {
    Lag(m, i) <= -1.0 ==> m.n[i] == m.n[i - 1] + 1
  }

  /** Marker 1 leads, and marker 3 lags, by less than a position; no marker leads by more
      than it is forced to. */
  predicate Close(m: Markers) {
    Placed(m) && Lag(m, 1) > -1.0 && Lag(m, 3) < 1.0 && LeadsBlocked(m, 2) && LeadsBlocked(m, 3)
  }

  lemma DnBetween(p: real, i: nat)
    requires 0.0 < p < 1.0 && 1 <= i <= 3
    ensures 0.0 < Dn(p, i) < 1.0
  {
  }

  /** The first desired position is above 1, the third below the last. */
  lemma DesiredInside(m: Markers, count: nat, p: real)
    requires OnSchedule(m, count, p) && count >= 5 && 0.0 < p < 1.0
    ensures m.n1[1] > 1.0 && m.n1[3] < m.n[4] as real
  {
    hide Dn;
    DnBetween(p, 1);
    DnBetween(p, 3);
    ShareOfWay((count - 1) as real, Dn(p, 1));
    ShareOfWay((count - 1) as real, Dn(p, 3));
    assert (m.n[4] - 1) as real == m.n[4] as real - 1.0;
  }

  lemma ShareOfWay(k: real, d: real)
    requires k > 0.0 && 0.0 < d < 1.0
    ensures 0.0 < k * d < k
  {
    assert k * (1.0 - d) > 0.0;
  }

  /** What a sample in cell k does to the positions. */
  lemma SampleShifts(m: Markers, x: real, p: real)
    requires Placed(m)
    ensures var s, k := Sampled(m, x, p), Cell(m.q, x).1;
            forall i :: 0 <= i < 5 ==> s.n[i] == m.n[i] + (if i > k then 1 else 0) && s.n1[i] == m.n1[i] + Dn(p, i)
  {
  }

  lemma CloseAfterSample(m: Markers, x: real, p: real, count: nat)
    requires OnSchedule(m, count, p) && count >= 5 && 0.0 < p < 1.0 && Close(m)
    ensures Close(GetQtSpec(m, x, p))
  {
    hide Sampled, Adjust, Cell, Dn, OnSchedule;
    var s, k := Sampled(m, x, p), Cell(m.q, x).1;
    SampleShifts(m, x, p);
    SampleKeepsSchedule(m, x, p, count);
    DesiredInside(s, count + 1, p);
    DnBetween(p, 1);
    DnBetween(p, 2);
    DnBetween(p, 3);
    var s1, s2 := Adjust(s, 1), Adjust(Adjust(s, 1), 2);
    AdjustMoves(s, 1);
    AdjustMoves(s1, 2);
    AdjustMoves(s2, 3);
  }

  /** With 0 < p < 1, on every stream: marker 1 is never a whole position above its desired
      one, nor marker 3 below its own; and an inner marker that is a whole position or more
      above its desired one has its predecessor directly below it. */
  lemma {:induction false} AfterClose(seen: seq<real>, p: real)
    requires |seen| >= 5 && 0.0 < p < 1.0
    ensures var m := After(seen, p);
            m.n[1] as real < m.n1[1] + 1.0 && m.n1[3] < m.n[3] as real + 1.0 &&
            forall i :: 1 <= i <= 3 && m.n[i] as real >= m.n1[i] + 1.0 ==> m.n[i - 1] == m.n[i] - 1
    ensures Close(After(seen, p))
  {
    hide GetQtSpec, OnSchedule;
    if |seen| > 5 {
      var k := |seen| - 1;
      var m := After(seen[..k], p);
      AfterClose(seen[..k], p);
      AfterOnSchedule(seen[..k], p);
      var s := m.(q := InsertUpTo(m.q, 5));
      ScheduleIgnoresHeights(m, s, k, p);
      CloseAfterSample(s, seen[k], p, k);
    }
  }

  /** Ascending heights stay as they are until get_qt. */
  lemma AfterNext(seen: seq<real>, x: real, p: real)
    requires |seen| >= 5 && Ascending(After(seen, p).q)
    ensures After(seen + [x], p) == GetQtSpec(After(seen, p), x, p)
  {
    hide GetQtSpec;
    assert (seen + [x])[..|seen|] == seen;
    SortedIsFixed(After(seen, p).q, 5);
  }
}
