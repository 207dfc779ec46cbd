/** The P-square quantile estimator (Jain and Chlamtac, CACM 1985) as the monitor
    keeps it per flow: five markers with heights q, positions n and desired
    positions n1. Doubles and floats are real numbers here. */
module P2 {

  // ---------------------------------------------------------------- C conversions

  /** Conversion to int drops the fraction. */
  function Trunc(x: real): int {
    if x >= 0.0 then x.Floor else -((-x).Floor)
  }

  predicate FitsInt(x: real) {
    -2147483648.0 <= x <= 2147483647.0 && x.Floor as real == x
  }

  /** double to int as x86-64 does it: out of range gives the smallest int. */
  function ToInt(x: real): int {
    if -2147483649.0 < x < 2147483648.0 then Trunc(x) else -2147483648
  }

  lemma ToIntFits(x: real)
    ensures FitsInt(ToInt(x) as real)
    ensures FitsInt(x) ==> ToInt(x) as real == x
  {
  }

  /** int64_t to uint64_t */
  function ToUint64(x: int): nat {
    x % 0x1_0000_0000_0000_0000
  }

  // ---------------------------------------------------------------- insertSort

  /** The inner loop: moves s[j] to the left as long as it is smaller. The value
      passes through an int on every swap. */
  function Insert(s: seq<real>, j: nat): (r: seq<real>)
    requires j < |s|
    ensures |r| == |s|
    decreases j
  {
    if j > 0 && s[j] < s[j - 1] then Insert(s[j := s[j - 1]][j - 1 := ToInt(s[j]) as real], j - 1) else s
  }

  function InsertUpTo(s: seq<real>, i: nat): (r: seq<real>)
    requires i <= |s|
    ensures |r| == |s|
  {
    if i == 0 then s else Insert(InsertUpTo(s, i - 1), i - 1)
  }

  predicate Sorted(s: seq<real>) {
    forall i, j :: 0 <= i <= j < |s| ==> s[i] <= s[j]
  }

  /** The conversion of x to int is no larger than x. */
  predicate Sinks(x: real) {
    ToInt(x) as real <= x
  }

  lemma {:induction false} InsertIntoSorted(s: seq<real>, j: nat)
    requires j < |s| && Sorted(s[..j]) && (j > 0 && s[j] < s[j - 1] ==> Sinks(s[j]))
    ensures Sorted(Insert(s, j)[..j + 1])
    decreases j
  {
    if j > 0 && s[j] < s[j - 1] {
      var v := ToInt(s[j]) as real;
      ToIntFits(s[j]);
      ToIntFits(v);
      var t := s[j := s[j - 1]][j - 1 := v];
      assert t[..j - 1] == s[..j - 1];
      InsertIntoSorted(t, j - 1);
      InsertStaysBelow(t, j - 1, s[j - 1]);
      InsertTop(s, j);
      var r := Insert(t, j - 1);
      assert r[..j + 1] == r[..j] + [r[j]];
      assert forall k :: 0 <= k < j ==> r[..j][k] == r[k];
    }
  }

  /** Only the values up to j move. */
  lemma {:induction false} InsertKeeps(s: seq<real>, j: nat)
    requires j < |s|
    ensures Insert(s, j)[j + 1..] == s[j + 1..]
    decreases j
  {
    if j > 0 && s[j] < s[j - 1] {
      var t := s[j := s[j - 1]][j - 1 := ToInt(s[j]) as real];
      InsertKeeps(t, j - 1);
      assert Insert(t, j - 1)[j..][1..] == Insert(t, j - 1)[j + 1..];
      assert t[j..][1..] == s[j + 1..];
    }
  }

  /** If s[j] moves, the value before it takes its place. */
  lemma InsertTop(s: seq<real>, j: nat)
    requires j < |s|
    ensures Insert(s, j)[j] == if j > 0 && s[j] < s[j - 1] then s[j - 1] else s[j]
  {
    if j > 0 && s[j] < s[j - 1] {
      var t := s[j := s[j - 1]][j - 1 := ToInt(s[j]) as real];
      InsertKeeps(t, j - 1);
      assert Insert(t, j - 1)[j..][0] == t[j..][0];
    }
  }

  lemma {:induction false} InsertStaysBelow(s: seq<real>, j: nat, top: real)
    requires j < |s| && (forall k :: 0 <= k <= j ==> s[k] <= top)
    requires j > 0 && s[j] < s[j - 1] ==> Sinks(s[j])
    ensures forall k :: 0 <= k <= j ==> Insert(s, j)[k] <= top
    decreases j
  {
    if j > 0 && s[j] < s[j - 1] {
      var v := ToInt(s[j]) as real;
      ToIntFits(s[j]);
      ToIntFits(v);
      InsertStaysBelow(s[j := s[j - 1]][j - 1 := v], j - 1, top);
      InsertTop(s, j);
    }
  }

  /** One insertion exchanges the moved value for its int conversion, and nothing else. */
  lemma {:induction false} InsertMultiset(s: seq<real>, j: nat)
    requires j < |s|
    ensures multiset(Insert(s, j)[..j + 1]) ==
            multiset(s[..j]) + multiset{if j > 0 && s[j] < s[j - 1] then ToInt(s[j]) as real else s[j]}
    decreases j
  {
    hide ToInt, FitsInt;
    if j > 0 && s[j] < s[j - 1] {
      var v := ToInt(s[j]) as real;
      ToIntFits(s[j]);
      ToIntFits(v);
      var t := s[j := s[j - 1]][j - 1 := v];
      InsertMultiset(t, j - 1);
      InsertTop(s, j);
      assert t[..j - 1] == s[..j - 1] && t[j - 1] == v;
      MovedPrefix(s, j, Insert(t, j - 1), v);
    } else {
      assert s[..j + 1] == s[..j] + [s[j]];
    }
  }

  lemma MovedPrefix<T>(s: seq<T>, j: nat, r: seq<T>, v: T)
    requires 0 < j < |s| == |r| && r[j] == s[j - 1] && multiset(r[..j]) == multiset(s[..j - 1]) + multiset{v}
    ensures multiset(r[..j + 1]) == multiset(s[..j]) + multiset{v}
  {
    assert r[..j + 1] == r[..j] + [s[j - 1]] && s[..j] == s[..j - 1] + [s[j - 1]];
  }

  /** A larger value stands before s[i], so sorting has to move s[i] to the left. */
  ghost predicate Displaced(s: seq<real>, i: nat)
    requires i < |s|
  {
    exists j :: 0 <= j < i && s[j] > s[i]
  }

  ghost predicate DisplacedFit(s: seq<real>, upTo: nat)
    requires upTo <= |s|
  {
    forall i :: 0 <= i < upTo && Displaced(s, i) ==> FitsInt(s[i])
  }

  ghost predicate DisplacedSink(s: seq<real>, upTo: nat)
    requires upTo <= |s|
  {
    forall i :: 0 <= i < upTo && Displaced(s, i) ==> Sinks(s[i])
  }

  /** The values with every displaced one converted to int. */
  ghost function Converted(s: seq<real>): (r: seq<real>)
    ensures |r| == |s|
  {
    seq(|s|, i requires 0 <= i < |s| => if Displaced(s, i) then ToInt(s[i]) as real else s[i])
  }

  lemma FitSinks(s: seq<real>, upTo: nat)
    requires upTo <= |s| && DisplacedFit(s, upTo)
    ensures DisplacedSink(s, upTo) && Converted(s)[..upTo] == s[..upTo]
  {
    forall i | 0 <= i < |s| ensures FitsInt(s[i]) ==> ToInt(s[i]) as real == s[i] {
      ToIntFits(s[i]);
    }
  }

  ghost predicate IsLeast(v: real, s: seq<real>) {
    v in s && forall i :: 0 <= i < |s| ==> v <= s[i]
  }

  ghost predicate IsGreatest(v: real, s: seq<real>) {
    v in s && forall i :: 0 <= i < |s| ==> s[i] <= v
  }

  lemma {:induction false} SortPrefix(s: seq<real>, i: nat)
    requires i <= |s| && DisplacedSink(s, i)
    ensures Sorted(InsertUpTo(s, i)[..i]) && InsertUpTo(s, i)[i..] == s[i..]
    ensures multiset(InsertUpTo(s, i)[..i]) == multiset(Converted(s)[..i])
    ensures i > 0 ==> IsGreatest(InsertUpTo(s, i)[i - 1], s[..i])
  {
    if i > 0 {
      var k := i - 1;
      SortPrefix(s, k);
      var t := InsertUpTo(s, k);
      assert t[k] == t[k..][0] == s[k..][0] == s[k];
      MovesIfDisplaced(s, t, k);
      hide Insert, Displaced, Sinks, ToInt;
      InsertIntoSorted(t, k);
      InsertKeeps(t, k);
      assert t[i..] == t[k..][1..] == s[k..][1..] == s[i..];
      InsertMultiset(t, k);
      assert Converted(s)[..i] == Converted(s)[..k] + [Converted(s)[k]];
      InsertTop(t, k);
      GreatestNext(s, k, if k > 0 then t[k - 1] else s[k]);
    }
  }

  lemma GreatestNext(s: seq<real>, k: nat, v: real)
    requires k < |s| && (if k > 0 then IsGreatest(v, s[..k]) else v == s[k])
    ensures IsGreatest(if s[k] < v then v else s[k], s[..k + 1])
  {
    assert s[..k + 1] == s[..k] + [s[k]];
  }

  /** With the largest value so far in front of it, s[i] moves exactly if it is displaced. */
  lemma MovesIfDisplaced(s: seq<real>, t: seq<real>, i: nat)
    requires |t| == |s| && i < |s| && t[i] == s[i] && (i > 0 ==> IsGreatest(t[i - 1], s[..i]))
    ensures i > 0 && t[i] < t[i - 1] <==> Displaced(s, i)
  {
    if i > 0 {
      var j :| 0 <= j < |s[..i]| && s[..i][j] == t[i - 1];
      assert s[j] == t[i - 1];
      if Displaced(s, i) {
        var k :| 0 <= k < i && s[k] > s[i];
        assert s[..i][k] == s[k];
      }
    }
  }

  /** What insertSort does: it sorts, with every displaced value converted to int. */
  lemma InsertSortConverts(s: seq<real>)
    requires DisplacedSink(s, |s|)
    ensures Sorted(InsertUpTo(s, |s|)) && multiset(InsertUpTo(s, |s|)) == multiset(Converted(s))
    ensures s != [] ==> IsGreatest(InsertUpTo(s, |s|)[|s| - 1], s)
  {
    SortPrefix(s, |s|);
    var r := InsertUpTo(s, |s|);
    assert r[..|s|] == r && Converted(s)[..|s|] == Converted(s) && s[..|s|] == s;
  }

  /** Whatever does not fit an int never becomes more frequent. */
  lemma {:induction false} UnfitNeverGained(s: seq<real>, i: nat, k: nat, e: real)
    requires i <= k <= |s| && !FitsInt(e)
    ensures multiset(InsertUpTo(s, k))[e] <= multiset(InsertUpTo(s, i))[e]
    decreases k
  {
    if i < k {
      UnfitNeverGained(s, i, k - 1, e);
      UnfitNotGained(InsertUpTo(s, k - 1), k - 1, e);
    }
  }

  lemma UnfitNotGained(s: seq<real>, j: nat, e: real)
    requires j < |s| && !FitsInt(e)
    ensures multiset(Insert(s, j))[e] <= multiset(s)[e]
    ensures j > 0 && s[j] < s[j - 1] && s[j] == e ==> multiset(Insert(s, j))[e] < multiset(s)[e]
  {
    InsertExchange(s, j);
    ToIntFits(s[j]);
    hide FitsInt, ToInt, Insert;
    var x, y := s[j], if j > 0 && s[j] < s[j - 1] then ToInt(s[j]) as real else s[j];
    assert (multiset(Insert(s, j)) + multiset{x})[e] == (multiset(s) + multiset{y})[e];
  }

  lemma InsertExchange(s: seq<real>, j: nat)
    requires j < |s|
    ensures multiset(Insert(s, j)) + multiset{s[j]} ==
            multiset(s) + multiset{if j > 0 && s[j] < s[j - 1] then ToInt(s[j]) as real else s[j]}
  {
    InsertMultiset(s, j);
    InsertKeeps(s, j);
    var y := if j > 0 && s[j] < s[j - 1] then ToInt(s[j]) as real else s[j];
    hide Insert, ToInt;
    ExchangedParts(s, Insert(s, j), j, y);
  }

  lemma ExchangedParts<T>(s: seq<T>, r: seq<T>, j: nat, y: T)
    requires j < |s| == |r| && multiset(r[..j + 1]) == multiset(s[..j]) + multiset{y} && r[j + 1..] == s[j + 1..]
    ensures multiset(r) + multiset{s[j]} == multiset(s) + multiset{y}
  {
    assert r == r[..j + 1] + r[j + 1..];
    assert s == s[..j] + [s[j]] + s[j + 1..];
  }

  /** insertSort keeps its values exactly when every value it has to move fits an int. */
  lemma InsertSortExact(s: seq<real>)
    ensures DisplacedFit(s, |s|) <==> multiset(InsertUpTo(s, |s|)) == multiset(s)
    ensures DisplacedFit(s, |s|) ==> Sorted(InsertUpTo(s, |s|))
  {
    if DisplacedFit(s, |s|) {
      FitSinks(s, |s|);
      InsertSortConverts(s);
      assert Converted(s)[..|s|] == Converted(s) && s[..|s|] == s;
    } else {
      var i := FirstUnfit(s, |s|);
      UnfitLost(s, i);
    }
  }

  lemma UnfitLost(s: seq<real>, i: nat)
    requires i < |s| && DisplacedFit(s, i) && Displaced(s, i) && !FitsInt(s[i])
    ensures multiset(InsertUpTo(s, |s|))[s[i]] < multiset(s)[s[i]]
  {
    FitSinks(s, i);
    SortPrefix(s, i);
    var t := InsertUpTo(s, i);
    assert t[i] == t[i..][0] == s[i..][0] == s[i];
    MovesIfDisplaced(s, t, i);
    hide Insert, Displaced, DisplacedFit, DisplacedSink, FitsInt, Converted;
    SameParts(t, s, i);
    UnfitNotGained(t, i, s[i]);
    assert InsertUpTo(s, i + 1) == Insert(t, i);
    hide InsertUpTo;
    UnfitNeverGained(s, i + 1, |s|, s[i]);
  }

  lemma SameParts<T>(t: seq<T>, s: seq<T>, i: nat)
    requires i <= |t| && i <= |s| && multiset(t[..i]) == multiset(s[..i]) && t[i..] == s[i..]
    ensures multiset(t) == multiset(s)
  {
    assert t == t[..i] + t[i..] && s == s[..i] + s[i..];
  }

  lemma {:induction false} FirstUnfit(s: seq<real>, n: nat) returns (i: nat)
    requires n <= |s| && !DisplacedFit(s, n)
    ensures i < n && DisplacedFit(s, i) && Displaced(s, i) && !FitsInt(s[i])
  {
    if DisplacedFit(s, n - 1) {
      i := n - 1;
    } else {
      i := FirstUnfit(s, n - 1);
    }
  }

  /** Sorted heights, fractional or not, pass through unchanged. */
  lemma {:induction false} SortedIsFixed(s: seq<real>, i: nat)
    requires Sorted(s) && i <= |s|
    ensures InsertUpTo(s, i) == s
  {
    if i > 0 {
      SortedIsFixed(s, i - 1);
    }
  }

  /** A whole number above the smallest int, as the gaps are. */
  predicate Receivable(x: real) {
    x > -2147483648.0 && x.Floor as real == x
  }

  /** On such values insertSort always sorts and keeps the largest. It keeps the smallest unless
      it moves a value that does not fit an int; then the first value is the smallest int. */
  lemma InsertSortOnGaps(s: seq<real>)
    requires s != [] && forall i :: 0 <= i < |s| ==> Receivable(s[i])
    ensures DisplacedSink(s, |s|)
    ensures var r := InsertUpTo(s, |s|);
            Sorted(r) && IsGreatest(r[|s| - 1], s) && IsLeast(r[0], Converted(s))
    ensures IsLeast(InsertUpTo(s, |s|)[0], s) <==> DisplacedFit(s, |s|)
    ensures !DisplacedFit(s, |s|) ==> IsLeast(-2147483648.0, Converted(s))
  {
    forall i | 0 <= i < |s| ensures Sinks(s[i]) && -2147483648.0 <= Converted(s)[i] {
      ReceivedSinks(s[i]);
    }
    InsertSortConverts(s);
    var r := InsertUpTo(s, |s|);
    FirstOfSorted(r, Converted(s));
    hide InsertUpTo, ToInt;
    if DisplacedFit(s, |s|) {
      FitSinks(s, |s|);
      assert Converted(s)[..|s|] == Converted(s) && s[..|s|] == s;
    } else {
      var i := FirstUnfit(s, |s|);
      ReceivedSinks(s[i]);
      assert Converted(s)[i] == -2147483648.0;
    }
  }

  lemma ReceivedSinks(x: real)
    requires Receivable(x)
    ensures Sinks(x) && ToInt(x) as real >= -2147483648.0 && (!FitsInt(x) ==> ToInt(x) == -2147483648)
  {
  }

  lemma FirstOfSorted(r: seq<real>, s: seq<real>)
    requires r != [] && Sorted(r) && multiset(r) == multiset(s)
    ensures IsLeast(r[0], s)
  {
    assert r[0] in multiset(s);
    forall i | 0 <= i < |s| ensures r[0] <= s[i] {
      assert s[i] in multiset(r);
    }
  }

  // ---------------------------------------------------------------- marker heights

  function Rise(k: real, dy: real, dx: real): real
    requires dx != 0.0
  {
    k * dy / dx
  }

  function Share(d: real, w: real, k: real): real
    requires w != 0.0
  {
    d / w * k
  }

  /** q1 in get_qt, for neighbouring markers at positions x0, x1, x2 with heights y0, y1, y2. */
  function Parabolic(x0: real, x1: real, x2: real, y0: real, y1: real, y2: real, d: real): real
    requires x0 < x1 < x2
  {
    y1 + Share(d, x2 - x0, Rise(x1 - x0 + d, y2 - y1, x2 - x1) + Rise(x2 - x1 - d, y1 - y0, x1 - x0))
  }

  /** The fallback height, towards the neighbour at position x2 with height y2. */
  function Linear(x1: real, x2: real, y1: real, y2: real, d: real): real
    requires x1 != x2
  {
    y1 + d * (y2 - y1) / (x2 - x1)
  }

  function Quadratic(a: real, b: real, c: real, x: real): real {
    a + b * x + c * x * x
  }

  lemma QuadraticSlope(a: real, b: real, c: real, x: real, y: real)
    ensures Quadratic(a, b, c, y) - Quadratic(a, b, c, x) == (b + c * (x + y)) * (y - x)
  {
    assert c * y * y - c * x * x == c * (x + y) * (y - x);
  }

  lemma QuadraticStep(a: real, b: real, c: real, x: real, d: real)
    ensures Quadratic(a, b, c, x + d) == Quadratic(a, b, c, x) + (b + c * (x + (x + d))) * d
  {
    QuadraticSlope(a, b, c, x, x + d);
    assert (x + d) - x == d;
  }

  lemma RiseOfSlope(k: real, slope: real, dy: real, dx: real)
    requires dx != 0.0 && dy == slope * dx
    ensures Rise(k, dy, dx) == k * slope
  {
    assert k * dy == k * slope * dx;
  }

  lemma ShareOfWhole(d: real, w: real, slope: real, whole: real)
    requires w != 0.0 && whole == slope * w
    ensures Share(d, w, whole) == slope * d
  {
    var t := d / w;
    assert t * w == d;
    assert t * (slope * w) == (t * w) * slope;
  }

  /** The parabolic height is the value at x1 + d of every quadratic through the three points. */
  lemma ParabolicIsQuadratic(a: real, b: real, c: real, x0: real, x1: real, x2: real, d: real)
    requires x0 < x1 < x2
    ensures Parabolic(x0, x1, x2, Quadratic(a, b, c, x0), Quadratic(a, b, c, x1), Quadratic(a, b, c, x2), d) ==
            Quadratic(a, b, c, x1 + d)
  {
    hide Quadratic, Rise, Share;
    var y0, y1, y2 := Quadratic(a, b, c, x0), Quadratic(a, b, c, x1), Quadratic(a, b, c, x2);
    var up, down, slope := b + c * (x1 + x2), b + c * (x0 + x1), b + c * (x1 + (x1 + d));
    QuadraticSlope(a, b, c, x1, x2);
    QuadraticSlope(a, b, c, x0, x1);
    QuadraticStep(a, b, c, x1, d);
    RiseOfSlope(x1 - x0 + d, up, y2 - y1, x2 - x1);
    RiseOfSlope(x2 - x1 - d, down, y1 - y0, x1 - x0);
    Telescope(b, c, x0, x1, x2, d);
    var rise := Rise(x1 - x0 + d, y2 - y1, x2 - x1) + Rise(x2 - x1 - d, y1 - y0, x1 - x0);
    ShareOfWhole(d, x2 - x0, slope, rise);
  }

  lemma Telescope(b: real, c: real, r0: real, r1: real, r2: real, d: real)
    ensures (r1 - r0 + d) * (b + c * (r1 + r2)) + (r2 - r1 - d) * (b + c * (r0 + r1)) ==
            (b + c * (r1 + (r1 + d))) * (r2 - r0)
  {
    assert (r1 - r0 + d) * (c * (r1 + r2)) + (r2 - r1 - d) * (c * (r0 + r1)) ==
           c * ((r1 - r0 + d) * (r1 + r2) + (r2 - r1 - d) * (r0 + r1));
    assert (r1 - r0 + d) * (r1 + r2) + (r2 - r1 - d) * (r0 + r1) == (r1 + (r1 + d)) * (r2 - r0);
  }

  /** There is such a quadratic, so the height is determined by the three points. */
  lemma QuadraticExists(x0: real, x1: real, x2: real, y0: real, y1: real, y2: real) returns (a: real, b: real, c: real)
    requires x0 < x1 < x2
    ensures y0 == Quadratic(a, b, c, x0) && y1 == Quadratic(a, b, c, x1) && y2 == Quadratic(a, b, c, x2)
  {
    var s1, s2 := (y1 - y0) / (x1 - x0), (y2 - y1) / (x2 - x1);
    c := (s2 - s1) / (x2 - x0);
    b := s1 - c * (x0 + x1);
    a := y0 - b * x0 - c * x0 * x0;
    assert Quadratic(a, b, c, x0) == y0;
    hide Quadratic;
    QuadraticSlope(a, b, c, x0, x1);
    QuadraticSlope(a, b, c, x1, x2);
    assert b + c * (x0 + x1) == s1 && s1 * (x1 - x0) == y1 - y0;
    assert c * (x2 - x0) == s2 - s1;
    assert c * (x1 + x2) == c * (x0 + x1) + c * (x2 - x0);
    assert b + c * (x1 + x2) == s2 && s2 * (x2 - x1) == y2 - y1;
  }

  /** Up never lowers a marker, down never raises it. */
  lemma ParabolicDirection(x0: real, x1: real, x2: real, y0: real, y1: real, y2: real, d: real)
    requires x0 < x1 < x2 && y0 <= y1 <= y2 && (d == 1.0 || d == -1.0) && x0 <= x1 + d <= x2
    ensures d == 1.0 ==> Parabolic(x0, x1, x2, y0, y1, y2, d) >= y1
    ensures d == -1.0 ==> Parabolic(x0, x1, x2, y0, y1, y2, d) <= y1
  {
    hide Rise, Share;
    RiseNonNegative(x1 - x0 + d, y2 - y1, x2 - x1);
    RiseNonNegative(x2 - x1 - d, y1 - y0, x1 - x0);
    ShareSign(d, x2 - x0, Rise(x1 - x0 + d, y2 - y1, x2 - x1) + Rise(x2 - x1 - d, y1 - y0, x1 - x0));
  }

  lemma ShareSign(d: real, w: real, k: real)
    requires (d == 1.0 || d == -1.0) && w > 0.0 && k >= 0.0
    ensures d == 1.0 ==> Share(d, w, k) >= 0.0
    ensures d == -1.0 ==> Share(d, w, k) <= 0.0
  {
    var f := 1.0 / w;
    ProductNonNegative(f, k);
    assert -1.0 / w == -f;
    assert (-f) * k == -(f * k);
  }

  lemma ProductNonNegative(a: real, b: real)
    requires a >= 0.0 && b >= 0.0
    ensures a * b >= 0.0
  {
  }

  lemma RiseNonNegative(a: real, b: real, c: real)
    requires a >= 0.0 && b >= 0.0 && c > 0.0
    ensures Rise(a, b, c) >= 0.0
  {
    ProductNonNegative(a, b);
  }

  lemma Shrinks(a: real, c: real)
    requires a >= 0.0 && c >= 1.0
    ensures 0.0 <= a / c <= a
  {
    var t := a / c;
    assert t >= 0.0 && t * c == a;
    ProductNonNegative(t, c - 1.0);
  }

  /** The linear height lies between the marker and the neighbour it moves towards. */
  lemma LinearBetween(x1: real, x2: real, y1: real, y2: real, d: real)
    requires (d == 1.0 && x2 - x1 >= 1.0 && y1 <= y2) || (d == -1.0 && x1 - x2 >= 1.0 && y2 <= y1)
    ensures d == 1.0 ==> y1 <= Linear(x1, x2, y1, y2, d) <= y2
    ensures d == -1.0 ==> y2 <= Linear(x1, x2, y1, y2, d) <= y1
  {
    var gap, dist := if d == 1.0 then y2 - y1 else y1 - y2, if d == 1.0 then x2 - x1 else x1 - x2;
    Shrinks(gap, dist);
    if d == 1.0 {
      assert Linear(x1, x2, y1, y2, d) == y1 + gap / dist;
    } else {
      assert gap / -dist == -(gap / dist);
      assert Linear(x1, x2, y1, y2, d) == y1 - gap / dist;
    }
  }

  // ---------------------------------------------------------------- get_qt

  datatype Markers = Markers(q: seq<real>, n: seq<int>, n1: seq<real>)

  /** Five markers at strictly increasing positions. */
  predicate Placed(m: Markers) {
    |m.q| == |m.n| == |m.n1| == 5 && m.n[0] < m.n[1] < m.n[2] < m.n[3] < m.n[4]
  }

  predicate Ascending(q: seq<real>) {
    |q| == 5 && q[0] <= q[1] <= q[2] <= q[3] <= q[4]
  }

  /** How far desired position i moves with every sample: dn0 to dn4. */
  function Dn(p: real, i: nat): real {
    match i
    case 0 => 0.0
    case 1 => p / 2.0
    case 2 => p
    case 3 => (p + 1.0) / 2.0
    case _ => 1.0
  }

  /** The cell k of sample x, and the heights with an end stretched to hold x. */
  function Cell(q: seq<real>, x: real): (r: (seq<real>, nat))
    requires |q| == 5
    ensures |r.0| == 5 && r.1 <= 3
  {
    if x > q[2] then
      if x < q[3] then (q, 2)
      else if x >= q[3] && x <= q[4] then (q, 3)
      else (q[4 := x], 3)
    else
      if x >= q[1] then (q, 1)
      else if q[0] <= x && x < q[1] then (q, 0)
      else (q[0 := x], 0)
  }

  /** One more sample at or below markers k + 1 to 4. */
  function Count(n: seq<int>, k: nat): (r: seq<int>)
    requires |n| == 5
    ensures |r| == 5
  {
    seq(5, i requires 0 <= i < 5 => if i > k then n[i] + 1 else n[i])
  }

  function Advance(n1: seq<real>, p: real): (r: seq<real>)
    requires |n1| == 5
    ensures |r| == 5
  {
    seq(5, i requires 0 <= i < 5 => n1[i] + Dn(p, i))
  }

  /** Which way marker i should move and can: 1, -1 or 0. */
  function Direction(m: Markers, i: nat): int
    requires Placed(m) && 1 <= i <= 3
  {
    var d := Trunc(m.n1[i] - m.n[i] as real);
    if (d >= 1 && m.n[i + 1] - m.n[i] > 1) || (d <= -1 && m.n[i - 1] - m.n[i] < -1)
    then if d > 0 then 1 else -1
    else 0
  }

  function Height(m: Markers, i: nat, d: int): real
    requires Placed(m) && 1 <= i <= 3 && (d == 1 || d == -1)
  {
    var x0, x1, x2 := m.n[i - 1] as real, m.n[i] as real, m.n[i + 1] as real;
    var q1 := Parabolic(x0, x1, x2, m.q[i - 1], m.q[i], m.q[i + 1], d as real);
    if q1 > m.q[i - 1] && q1 < m.q[i + 1] then q1
    else Linear(x1, m.n[i + d] as real, m.q[i], m.q[i + d], d as real)
  }

  function Adjust(m: Markers, i: nat): (r: Markers)
    requires Placed(m) && 1 <= i <= 3
    ensures Placed(r) && r.n[0] == m.n[0] && r.n[4] == m.n[4] && r.n1 == m.n1
  {
    var d := Direction(m, i);
    if d == 0 then m else m.(q := m.q[i := Height(m, i, d)], n := m.n[i := m.n[i] + d])
  }

  function Sampled(m: Markers, x: real, p: real): (r: Markers)
    requires Placed(m)
    ensures Placed(r)
  {
    var (q, k) := Cell(m.q, x);
    Markers(q, Count(m.n, k), Advance(m.n1, p))
  }

  function GetQtSpec(m: Markers, x: real, p: real): (r: Markers)
    requires Placed(m)
    ensures Placed(r)
  {
    Adjust(Adjust(Adjust(Sampled(m, x, p), 1), 2), 3)
  }

  /** Heights follow positions: a marker that moves up does not get lower, one that moves
      down does not get higher, none passes a neighbour, and the others stay put. */
  lemma AdjustFollows(m: Markers, i: nat)
    requires Placed(m) && 1 <= i <= 3 && Ascending(m.q)
    ensures var r := Adjust(m, i);
            Ascending(r.q) && r.q == m.q[i := r.q[i]] && r.n == m.n[i := r.n[i]] && -1 <= r.n[i] - m.n[i] <= 1 &&
            (r.n[i] > m.n[i] ==> m.q[i] <= r.q[i] <= m.q[i + 1]) &&
            (r.n[i] < m.n[i] ==> m.q[i - 1] <= r.q[i] <= m.q[i]) &&
            (r.n[i] == m.n[i] ==> r.q[i] == m.q[i])
  {
    hide Parabolic, Linear;
    var d := Direction(m, i);
    if d != 0 {
      var x0, x1, x2 := m.n[i - 1] as real, m.n[i] as real, m.n[i + 1] as real;
      ParabolicDirection(x0, x1, x2, m.q[i - 1], m.q[i], m.q[i + 1], d as real);
      LinearBetween(x1, m.n[i + d] as real, m.q[i], m.q[i + d], d as real);
    }
  }

  /** The sample ends up inside its cell, and only the end heights react to it. */
  lemma CellHoldsSample(q: seq<real>, x: real)
    requires Ascending(q)
    ensures var (r, k) := Cell(q, x);
            Ascending(r) && r[k] <= x <= r[k + 1] && r[1..4] == q[1..4] &&
            r[0] == (if x < q[0] then x else q[0]) && r[4] == (if x > q[4] then x else q[4])
  {
  }

  // ---------------------------------------------------------------- a stream of samples

  /** Positions and desired positions after count samples. */
  predicate OnSchedule(m: Markers, count: nat, p: real) {
    Placed(m) && m.n[0] == 1 && m.n[4] == count &&
    forall i :: 0 <= i < 5 ==> m.n1[i] == 1.0 + (m.n[4] - 1) as real * Dn(p, i)
  }

  /** Heights that ascend from the least of lows to the greatest of highs. */
  ghost predicate Spans(m: Markers, lows: seq<real>, highs: seq<real>) {
    Ascending(m.q) && IsLeast(m.q[0], lows) && IsGreatest(m.q[4], highs)
  }

  lemma SampleKeepsSchedule(m: Markers, x: real, p: real, count: nat)
    requires OnSchedule(m, count, p)
    ensures OnSchedule(Sampled(m, x, p), count + 1, p)
  {
    hide Dn;
    var s := Sampled(m, x, p);
    assert s.n[0] == m.n[0] && s.n[4] == m.n[4] + 1;
    forall i | 0 <= i < 5 ensures s.n1[i] == 1.0 + (s.n[4] - 1) as real * Dn(p, i) {
      assert s.n1[i] == m.n1[i] + Dn(p, i);
      OneStepOn((m.n[4] - 1) as real, Dn(p, i));
    }
  }

  lemma GetQtKeepsSchedule(m: Markers, x: real, p: real, count: nat)
    requires OnSchedule(m, count, p)
    ensures OnSchedule(GetQtSpec(m, x, p), count + 1, p)
  {
    hide Dn, Sampled, Adjust;
    SampleKeepsSchedule(m, x, p, count);
  }

  lemma OneStepOn(k: real, d: real)
    ensures k * d + d == (k + 1.0) * d
  {
  }

  lemma GetQtKeepsSpan(m: Markers, x: real, p: real, lows: seq<real>, highs: seq<real>)
    requires Placed(m) && Spans(m, lows, highs)
    ensures Spans(GetQtSpec(m, x, p), lows + [x], highs + [x])
  {
    hide Height, Direction, Cell;
    CellHoldsSample(m.q, x);
    var s0 := Sampled(m, x, p);
    var s1, s2 := Adjust(s0, 1), Adjust(Adjust(s0, 1), 2);
    AdjustFollows(s0, 1);
    AdjustFollows(s1, 2);
    AdjustFollows(s2, 3);
    var r := GetQtSpec(m, x, p);
    assert r.q[0] == s0.q[0] && r.q[4] == s0.q[4];
    assert (lows + [x])[|lows|] == x && (highs + [x])[|highs|] == x;
    assert forall i :: 0 <= i < |lows| ==> (lows + [x])[i] == lows[i];
    assert forall i :: 0 <= i < |highs| ==> (highs + [x])[i] == highs[i];
  }

  /** The desired positions init() sets. */
  function Desired(p: real): (r: seq<real>)
    ensures |r| == 5
  {
    [1.0, 1.0 + 2.0 * p, 1.0 + 4.0 * p, 3.0 + 2.0 * p, 5.0]
  }

  /** The markers after five or more samples: the first five as stored, and from then on
      sort and update with every sample. */
  function After(seen: seq<real>, p: real): (m: Markers)
    requires |seen| >= 5
    ensures Placed(m)
  {
    if |seen| == 5 then Markers(seen, [1, 2, 3, 4, 5], Desired(p)) else
    var m := After(seen[..|seen| - 1], p);
    GetQtSpec(m.(q := InsertUpTo(m.q, 5)), seen[|seen| - 1], p)
  }

  lemma DesiredAtStart(p: real)
    ensures forall i :: 0 <= i < 5 ==> Desired(p)[i] == 1.0 + 4.0 * Dn(p, i)
  {
  }

  lemma ScheduleIgnoresHeights(m: Markers, s: Markers, count: nat, p: real)
    requires OnSchedule(m, count, p) && |s.q| == 5 && s.n == m.n && s.n1 == m.n1
    ensures OnSchedule(s, count, p)
  {
  }

  lemma {:induction false} AfterOnSchedule(seen: seq<real>, p: real)
    requires |seen| >= 5
    ensures OnSchedule(After(seen, p), |seen|, p)
  {
    hide GetQtSpec;
    if |seen| == 5 {
      DesiredAtStart(p);
    } else {
      hide OnSchedule;
      var m := After(seen[..|seen| - 1], p);
      AfterOnSchedule(seen[..|seen| - 1], p);
      var s := m.(q := InsertUpTo(m.q, 5));
      ScheduleIgnoresHeights(m, s, |seen| - 1, p);
      GetQtKeepsSchedule(s, seen[|seen| - 1], p, |seen| - 1);
    }
  }

  lemma {:induction false} AfterSpans(seen: seq<real>, p: real)
    requires |seen| > 5 && DisplacedSink(seen[..5], 5)
    ensures Spans(After(seen, p), Converted(seen[..5]) + seen[5..], seen)
  {
    hide GetQtSpec, Insert, Converted, DisplacedSink;
    var k := |seen| - 1;
    var before, x := seen[..k], seen[k];
    var m := After(before, p);
    var s := m.(q := InsertUpTo(m.q, 5));
    var lows := Converted(seen[..5]) + before[5..];
    assert before[..5] == seen[..5] && seen == before + [x];
    assert Converted(seen[..5]) + seen[5..] == lows + [x];
    if k == 5 {
      assert before == seen[..5] && m.q == before && lows == Converted(before);
      InsertSortConverts(before);
      FirstOfSorted(s.q, lows);
    } else {
      AfterSpans(before, p);
      SortedIsFixed(m.q, 5);
    }
    GetQtKeepsSpan(s, x, p, lows, before);
  }

  /** struct quantile */
  class Quantile {
    const p: real          // the quantile being tracked
    const q: array<real>   // heights
    var l: nat             // samples stored before the markers start
    const n: array<int>    // positions
    const n1: array<real>  // desired positions

    ghost var seen: seq<real> // the samples, as the estimator reads them

    /** Three separate arrays of five. */
    predicate Wired() {
      q.Length == n.Length == n1.Length == 5 && q != n1
    }

    ghost predicate Valid()
      reads this, q, n, n1
    {
      Wired() && l == (if |seen| < 5 then |seen| else 5) &&
      (|seen| < 5 ==> q[..l] == seen && n[..] == [1, 2, 3, 4, 5] && n1[..] == Desired(p)) &&
      (|seen| >= 5 ==> State() == After(seen, p))
    }

    ghost function State(): Markers
      requires Wired()
      reads q, n, n1
    {
      Markers(q[..], n[..], n1[..])
    }

    /** Zeroed storage, then init(). */
    constructor (p: real)
      ensures Valid() && seen == [] && this.p == p && fresh(q) && fresh(n) && fresh(n1)
    {
      this.p := p;
      q := new real[5](i => 0.0);
      n := new int[5](i => i + 1);
      n1 := new real[5](i => 0.0);
      l := 0;
      seen := [];
      new;
      n1[0] := 1.0;
      n1[1] := 1.0 + 2.0 * p;
      n1[2] := 1.0 + 4.0 * p;
      n1[3] := 3.0 + 2.0 * p;
      n1[4] := 5.0;
    }

    /** insertSort on the heights */
    method InsertSort()
      requires q.Length == 5
      modifies q
      ensures q[..] == InsertUpTo(old(q[..]), 5)
    {
      ghost var q0 := q[..];
      assert InsertUpTo(q0, 1) == Insert(q0, 0) == q0;
      for i := 1 to 5
        invariant q[..] == InsertUpTo(q0, i)
      {
        ghost var qi := q[..];
        var j := i;
        while j > 0 && q[j] < q[j - 1]
          invariant 0 <= j <= i
          invariant Insert(q[..], j) == Insert(qi, i)
        {
          ghost var qj := q[..];
          var tmp := ToInt(q[j]);
          q[j] := q[j - 1];
          q[j - 1] := tmp as real;
          assert q[..] == qj[j := qj[j - 1]][j - 1 := ToInt(qj[j]) as real];
          j := j - 1;
        }
      }
    }

    /** What get_qt does with a sample before it adjusts the inner markers. */
    method Sample(x: real)
      requires Wired() && Placed(State())
      modifies q, n, n1
      ensures State() == Sampled(old(State()), x, p)
    {
      ghost var m := State();
      var k := 0;
      if x > q[2] {
        if x < q[3] {
          k := 2;
        } else if x >= q[3] && x <= q[4] {
          k := 3;
        } else {
          q[4] := x;
          k := 3;
        }
      } else {
        if x >= q[1] {
          k := 1;
        } else if q[0] <= x && x < q[1] {
          k := 0;
        } else {
          q[0] := x;
          k := 0;
        }
      }
      assert (q[..], k) == Cell(m.q, x);
      CountFrom(k);
      AdvanceDesired();
      assert q[..] == Cell(m.q, x).0 && n[..] == Count(m.n, k);
    }

    /** One more sample lies at or below every marker above the cell. */
    method CountFrom(cell: nat)
      requires n.Length == 5 && cell <= 3
      modifies n
      ensures n[..] == Count(old(n[..]), cell)
    {
      ghost var n0 := n[..];
      var k := cell;
      while k < 4
        invariant cell <= k <= 4
        invariant forall i :: 0 <= i < 5 ==> n[i] == n0[i] + if cell < i <= k then 1 else 0
      {
        n[k + 1] := n[k + 1] + 1;
        k := k + 1;
      }
    }

    /** Moves each desired position on by its share of one sample. */
    method AdvanceDesired()
      requires n1.Length == 5
      modifies n1
      ensures n1[..] == Advance(old(n1[..]), p)
    {
      ghost var d := n1[..];
      n1[0] := n1[0] + 0.0;
      n1[1] := n1[1] + p / 2.0;
      n1[2] := n1[2] + p;
      n1[3] := n1[3] + (p + 1.0) / 2.0;
      n1[4] := n1[4] + 1.0;
      assert n1[0] == d[0] + Dn(p, 0) && n1[1] == d[1] + Dn(p, 1) && n1[2] == d[2] + Dn(p, 2);
      assert n1[3] == d[3] + Dn(p, 3) && n1[4] == d[4] + Dn(p, 4);
    }

    /** The body of the adjustment loop of get_qt. */
    method AdjustMarker(i: nat)
      requires Wired() && Placed(State()) && 1 <= i <= 3
      modifies q, n
      ensures State() == Adjust(old(State()), i)
    {
      hide Parabolic, Linear, Trunc;
      ghost var m := State();
      var d := Trunc(n1[i] - n[i] as real);
      if (d >= 1 && n[i + 1] - n[i] > 1) || (d <= -1 && n[i - 1] - n[i] < -1) {
        d := if d > 0 then 1 else -1;
        assert d == Direction(m, i);
        var q1 := Parabolic(n[i - 1] as real, n[i] as real, n[i + 1] as real, q[i - 1], q[i], q[i + 1], d as real);
        if q1 > q[i - 1] && q1 < q[i + 1] {
          q[i] := q1;
        } else {
          q[i] := Linear(n[i] as real, n[i + d] as real, q[i], q[i + d], d as real);
        }
        n[i] := n[i] + d;
        assert q[..] == m.q[i := Height(m, i, d)] && n[..] == m.n[i := m.n[i] + d] && n1[..] == m.n1;
      } else {
        assert Direction(m, i) == 0;
      }
    }

    method GetQt(x: real)
      requires Wired() && Placed(State())
      modifies q, n, n1
      ensures State() == GetQtSpec(old(State()), x, p)
    {
      Sample(x);
      AdjustMarker(1);
      AdjustMarker(2);
      AdjustMarker(3);
    }

    /** What the monitor does with one inter-packet gap. */
    method Observe(curr: int)
      requires Valid()
      modifies this, q, n, n1
      ensures Valid() && seen == old(seen) + [AsSeen(|old(seen)|, curr)]
    {
      if l < 5 {
        hide Desired;
        ghost var stored := q[..l];
        q[l] := curr as real;
        l := l + 1;
        seen := seen + [curr as real];
        assert q[..l] == stored + [curr as real];
        assert n[..] == old(n[..]) && n1[..] == old(n1[..]);
        assert l == 5 ==> q[..] == q[..l];
      } else {
        Track(ToUint64(curr) as real);
      }
    }

    method Track(x: real)
      requires Valid() && l == 5
      modifies this, q, n, n1
      ensures Valid() && seen == old(seen) + [x]
    {
      hide GetQtSpec, InsertUpTo;
      ghost var m := State();
      InsertSort();
      assert State() == m.(q := InsertUpTo(m.q, 5));
      GetQt(x);
      assert (seen + [x])[..|seen|] == seen;
      seen := seen + [x];
    }
  }

  /** The first five gaps are stored as they are; later ones are passed as uint64_t. */
  function AsSeen(index: nat, curr: int): real {
    if index < 5 then curr as real else ToUint64(curr) as real
  }

  /** The gaps as the estimator reads them. */
  function Samples(gaps: seq<int>): seq<real> {
    seq(|gaps|, i requires 0 <= i < |gaps| => AsSeen(i, gaps[i]))
  }

  /** Of the first five gaps, those with a larger one before them fit an int. */
  predicate MovesFit(gaps: seq<int>)
    requires |gaps| >= 5
  {
    forall i, j :: 0 <= j < i < 5 && gaps[j] > gaps[i] ==> gaps[i] < 0x8000_0000
  }

  lemma MovesFitIsDisplacedFit(gaps: seq<int>)
    requires |gaps| >= 5 && forall i :: 0 <= i < 5 ==> gaps[i] > -0x8000_0000
    ensures MovesFit(gaps) <==> DisplacedFit(Samples(gaps)[..5], 5)
  {
    var s := Samples(gaps)[..5];
    assert forall i :: 0 <= i < 5 ==> s[i] == gaps[i] as real && s[i].Floor == gaps[i];
    forall i, j | 0 <= j < i < 5 && gaps[j] > gaps[i] ensures Displaced(s, i) {
      assert s[j] > s[i];
    }
    forall i | 0 <= i < 5 && Displaced(s, i) ensures exists j :: 0 <= j < i && gaps[j] > gaps[i] {
      var j :| 0 <= j < i && s[j] > s[i];
      assert gaps[j] > gaps[i];
    }
  }

  /** For all streams of six or more gaps of which the first five are above the smallest int,
      the heights ascend and the last one is the largest sample; the first one is the smallest
      sample if and only if insertSort moves only gaps that fit an int. Otherwise it is the
      smallest int, for good. */
  lemma HeightsOfSamples(gaps: seq<int>, p: real)
    requires |gaps| > 5 && forall i :: 0 <= i < 5 ==> gaps[i] > -0x8000_0000
    ensures var q := After(Samples(gaps), p).q;
            Ascending(q) && IsGreatest(q[4], Samples(gaps)) &&
            (IsLeast(q[0], Samples(gaps)) <==> MovesFit(gaps)) && (!MovesFit(gaps) ==> q[0] == -2147483648.0)
  {
    hide After, InsertUpTo, Ascending;
    var seen := Samples(gaps);
    var s := seen[..5];
    assert forall i :: 0 <= i < 5 ==> s[i] == gaps[i] as real && Receivable(s[i]);
    MovesFitIsDisplacedFit(gaps);
    InsertSortOnGaps(s);
    AfterSpans(seen, p);
    assert seen == s + seen[5..];
    hide Receivable, MovesFit, DisplacedSink, DisplacedFit;
    if MovesFit(gaps) {
      FitSinks(s, 5);
      assert Converted(s)[..5] == Converted(s) && s[..5] == s;
    } else {
      assert forall i :: 5 <= i < |seen| ==> seen[i] >= 0.0;
      LeastInFront(After(seen, p).q[0], Converted(s), seen[5..], -2147483648.0);
      assert forall i :: 0 <= i < |seen| ==> seen[i] > -2147483648.0;
    }
  }

  lemma LeastInFront(v: real, a: seq<real>, b: seq<real>, least: real)
    requires IsLeast(v, a + b) && IsLeast(least, a) && forall i :: 0 <= i < |b| ==> least <= b[i]
    ensures v == least
  {
    var i :| 0 <= i < |a| && a[i] == least;
    assert (a + b)[i] == least;
    assert forall k :: 0 <= k < |a + b| ==> least <= (a + b)[k];
  }

  // ---------------------------------------------------------------- samples against gaps

  function Reals(gaps: seq<int>): seq<real> {
    seq(|gaps|, i requires 0 <= i < |gaps| => gaps[i] as real)
  }

  /** Gaps as they occur: above the smallest int, and int64_t. */
  predicate Plausible(gaps: seq<int>) {
    forall i :: 0 <= i < |gaps| ==> -0x8000_0000 < gaps[i] < 0x8000_0000_0000_0000
  }

  /** A negative gap after the fifth, which get_qt takes for one of 2^63 or more. */
  predicate LateNegative(gaps: seq<int>) {
    exists i :: 5 <= i < |gaps| && gaps[i] < 0
  }

  /** No late negative gap is smaller than all of the first five. */
  predicate LateCovered(gaps: seq<int>) {
    forall k :: 5 <= k < |gaps| && gaps[k] < 0 ==> exists i :: 0 <= i < 5 && gaps[i] <= gaps[k]
  }

  lemma SampleOf(gaps: seq<int>, i: nat)
    requires Plausible(gaps) && i < |gaps|
    ensures i < 5 || gaps[i] >= 0 ==> Samples(gaps)[i] == Reals(gaps)[i]
    ensures i >= 5 && gaps[i] < 0 ==> Samples(gaps)[i] == 18446744073709551616.0 + Reals(gaps)[i]
  {
  }

  lemma GreatestGap(gaps: seq<int>, v: real)
    requires |gaps| > 5 && Plausible(gaps) && IsGreatest(v, Samples(gaps))
    ensures IsGreatest(v, Reals(gaps)) <==> !LateNegative(gaps)
  {
    forall i | 0 <= i < |gaps|
      ensures i < 5 || gaps[i] >= 0 ==> Samples(gaps)[i] == Reals(gaps)[i]
      ensures i >= 5 && gaps[i] < 0 ==> Samples(gaps)[i] >= 9223372036854775808.0
    {
      SampleOf(gaps, i);
    }
    assert forall i :: 0 <= i < |gaps| ==> Reals(gaps)[i] < 9223372036854775808.0;
    hide Samples, IsLeast;
    if LateNegative(gaps) {
      var i :| 5 <= i < |gaps| && gaps[i] < 0;
      assert v >= Samples(gaps)[i];
    } else {
      assert Samples(gaps) == Reals(gaps);
    }
  }

  lemma LeastGap(gaps: seq<int>, v: real)
    requires |gaps| > 5 && Plausible(gaps) && IsLeast(v, Samples(gaps))
    ensures IsLeast(v, Reals(gaps)) <==> LateCovered(gaps)
  {
    forall i | 0 <= i < |gaps|
      ensures i < 5 || gaps[i] >= 0 ==> Samples(gaps)[i] == Reals(gaps)[i]
      ensures i >= 5 && gaps[i] < 0 ==> Samples(gaps)[i] >= 9223372036854775808.0
    {
      SampleOf(gaps, i);
    }
    assert forall i :: 0 <= i < |gaps| ==> Reals(gaps)[i] == gaps[i] as real < 9223372036854775808.0;
    hide Samples, Reals, IsGreatest;
    var j :| 0 <= j < |Samples(gaps)| && Samples(gaps)[j] == v;
    assert v <= Samples(gaps)[0];
    if LateCovered(gaps) {
      forall k | 0 <= k < |gaps| ensures v <= Reals(gaps)[k] {
        if k >= 5 && gaps[k] < 0 {
          var i :| 0 <= i < 5 && gaps[i] <= gaps[k];
          assert v <= Samples(gaps)[i];
        }
      }
    }
    if IsLeast(v, Reals(gaps)) {
      forall k | 5 <= k < |gaps| && gaps[k] < 0 ensures exists i :: 0 <= i < 5 && gaps[i] <= gaps[k] {
        assert v <= Reals(gaps)[k];
        assert j < 5 && gaps[j] <= gaps[k];
      }
    }
  }

  /** For all streams of six or more gaps: the heights ascend. The last one is the longest gap
      if and only if no gap after the fifth is negative. The first one is the shortest gap if
      and only if insertSort moves only gaps that fit an int and no negative gap after the
      fifth is shorter than all of the first five. */
  lemma HeightsExact(gaps: seq<int>, p: real)
    requires |gaps| > 5 && Plausible(gaps)
    ensures var q := After(Samples(gaps), p).q;
            Ascending(q) && (IsGreatest(q[4], Reals(gaps)) <==> !LateNegative(gaps)) &&
            (IsLeast(q[0], Reals(gaps)) <==> MovesFit(gaps) && LateCovered(gaps))
  {
    hide After, Ascending, MovesFit, LateNegative, LateCovered, AsSeen;
    var q := After(Samples(gaps), p).q;
    HeightsOfSamples(gaps, p);
    GreatestGap(gaps, q[4]);
    if MovesFit(gaps) {
      LeastGap(gaps, q[0]);
    } else {
      assert forall i :: 0 <= i < |gaps| ==> Reals(gaps)[i] > -2147483648.0;
    }
  }

  /** With gaps of -1 or more that is the case unless a late gap is -1 and none of the first
      five is. */
  lemma LateCoveredByMinusOne(gaps: seq<int>)
    requires |gaps| > 5 && forall i :: 0 <= i < |gaps| ==> gaps[i] >= -1
    ensures LateCovered(gaps) <==> (LateNegative(gaps) ==> exists i :: 0 <= i < 5 && gaps[i] < 0)
  {
    if LateNegative(gaps) && LateCovered(gaps) {
      var k :| 5 <= k < |gaps| && gaps[k] < 0;
      var i :| 0 <= i < 5 && gaps[i] <= gaps[k];
    }
  }

  /** Six gaps of which the smallest is 0, and yet the first height is negative. */
  lemma FalseMinimum(p: real)
    ensures After(Samples([4294967296, 3000000000, 0, 0, 0, 0]), p).q[0] == -2147483648.0
  {
    hide After;
    var gaps := [4294967296, 3000000000, 0, 0, 0, 0];
    assert gaps[0] > gaps[1] >= 0x8000_0000;
    HeightsOfSamples(gaps, p);
  }

  /** Once a gap after the fifth is -1 the last height is 2^64 - 1. */
  lemma LateMinusOne(gaps: seq<int>, i: nat, p: real)
    requires 5 <= i < |gaps| && gaps[i] == -1 && forall k :: 0 <= k < |gaps| ==> -1 <= gaps[k] < 0x8000_0000_0000_0000
    ensures After(Samples(gaps), p).q[4] == 18446744073709551615.0
  {
    hide After, Ascending, MovesFit, AsSeen, IsLeast;
    HeightsOfSamples(gaps, p);
    forall k | 0 <= k < |gaps| ensures Samples(gaps)[k] <= 18446744073709551615.0 {
      SampleOf(gaps, k);
    }
    SampleOf(gaps, i);
  }

  /** Six gaps from -1 to 5, and yet the last height is 2^64 - 1 and the first one 1. */
  lemma FalseMaximum(p: real)
    ensures var q := After(Samples([5, 4, 3, 2, 1, -1]), p).q; q[4] == 18446744073709551615.0 && q[0] == 1.0
  {
    hide After;
    var gaps := [5, 4, 3, 2, 1, -1];
    HeightsOfSamples(gaps, p);
    assert Samples(gaps) == [5.0, 4.0, 3.0, 2.0, 1.0, 18446744073709551615.0];
    assert Samples(gaps)[5] == 18446744073709551615.0 && Samples(gaps)[4] == 1.0;
  }

  lemma EstimateFacts(gaps: seq<int>, p: real)
    requires |gaps| > 5
    ensures OnSchedule(After(Samples(gaps), p), |gaps|, p)
    ensures (forall i :: 0 <= i < 5 ==> gaps[i] > -0x8000_0000) ==>
              var q := After(Samples(gaps), p).q;
              Ascending(q) && IsGreatest(q[4], Samples(gaps)) && (IsLeast(q[0], Samples(gaps)) <==> MovesFit(gaps))
    ensures Plausible(gaps) ==>
              var q := After(Samples(gaps), p).q;
              (IsGreatest(q[4], Reals(gaps)) <==> !LateNegative(gaps)) &&
              (IsLeast(q[0], Reals(gaps)) <==> MovesFit(gaps) && LateCovered(gaps))
    ensures DisplacedFit(Samples(gaps)[..5], 5) ==> Spans(After(Samples(gaps), p), Samples(gaps), Samples(gaps))
  {
    hide After, AsSeen, Ascending, IsLeast, IsGreatest, DisplacedFit, MovesFit, Dn, OnSchedule, Spans;
    hide LateNegative, LateCovered, Reals;
    AfterOnSchedule(Samples(gaps), p);
    if forall i :: 0 <= i < 5 ==> gaps[i] > -0x8000_0000 {
      HeightsOfSamples(gaps, p);
    }
    if Plausible(gaps) {
      HeightsExact(gaps, p);
    }
    if DisplacedFit(Samples(gaps)[..5], 5) {
      FittingHeights(Samples(gaps), p);
    }
  }

  lemma FittingHeights(seen: seq<real>, p: real)
    requires |seen| > 5 && DisplacedFit(seen[..5], 5)
    ensures Spans(After(seen, p), seen, seen)
  {
    hide After, Ascending, IsLeast, IsGreatest, DisplacedFit;
    var s := seen[..5];
    FitSinks(s, 5);
    AfterSpans(seen, p);
    assert Converted(s) + seen[5..] == seen by {
      assert Converted(s)[..5] == Converted(s) && s[..5] == s;
    }
  }

  /** One estimator fed with all gaps. */
  method TrackAll(p: real, gaps: seq<int>) returns (m: Markers)
    requires |gaps| >= 5
    ensures m == After(Samples(gaps), p)
  {
    hide After, AsSeen, Desired;
    var e := new Quantile(p);
    for i := 0 to |gaps|
      invariant fresh(e) && fresh(e.q) && fresh(e.n) && fresh(e.n1) && e.Valid() && e.p == p
      invariant |e.seen| == i && forall j :: 0 <= j < i ==> e.seen[j] == AsSeen(j, gaps[j])
    {
      e.Observe(gaps[i]);
    }
    m := Markers(e.q[..], e.n[..], e.n1[..]);
    assert e.seen == Samples(gaps);
  }

  /** The estimator on six or more gaps: the five positions stay in order from 1 to the
      number of gaps, on their desired schedule; for the heights see HeightsExact. */
  method Estimate(p: real, gaps: seq<int>) returns (m: Markers)
    requires |gaps| > 5
    ensures m == After(Samples(gaps), p)
    ensures Placed(m) && m.n[0] == 1 && m.n[4] == |gaps|
    ensures forall i :: 0 <= i < 5 ==> m.n1[i] == 1.0 + (m.n[4] - 1) as real * Dn(p, i)
    ensures (forall i :: 0 <= i < 5 ==> gaps[i] > -0x8000_0000) ==>
              Ascending(m.q) && IsGreatest(m.q[4], Samples(gaps)) &&
              (IsLeast(m.q[0], Samples(gaps)) <==> MovesFit(gaps))
    ensures Plausible(gaps) ==>
              (IsGreatest(m.q[4], Reals(gaps)) <==> !LateNegative(gaps)) &&
              (IsLeast(m.q[0], Reals(gaps)) <==> MovesFit(gaps) && LateCovered(gaps))
    ensures DisplacedFit(Samples(gaps)[..5], 5) ==>
              Ascending(m.q) && IsLeast(m.q[0], Samples(gaps)) && IsGreatest(m.q[4], Samples(gaps))
  {
    hide After, AsSeen, Ascending, IsLeast, IsGreatest, DisplacedFit, MovesFit, Dn, Placed;
    hide LateNegative, LateCovered, Reals, Plausible;
    m := TrackAll(p, gaps);
    EstimateFacts(gaps, p);
  }
}
