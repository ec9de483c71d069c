/** The score -> pool-target curve (services/stealth-scraper/app/scaling.py), over exact reals. */
module PoolTarget {
  import opened Optional

  datatype Point = Point(score: real, cap: int)
  type Curve = seq<Point>

  const DEFAULT_CURVE: Curve := [Point(0.40, 6), Point(0.60, 2), Point(0.80, 1)]

  predicate Ascending(c: Curve) { forall i, j :: 0 <= i < j < |c| ==> c[i].score < c[j].score }

  predicate NonIncreasing(c: Curve) { forall i, j :: 0 <= i < j < |c| ==> c[j].cap <= c[i].cap }

  // ----- parsing -----

  /** Every part parses, caps are not negative, scores rise strictly from above -1. */
  ghost predicate GoodParts(parts: seq<string>, parse: string -> Option<Point>) {
    && |parts| > 0
    && (forall i :: 0 <= i < |parts| ==> parts[i] != "" && parse(parts[i]).Some? && parse(parts[i]).value.cap >= 0)
    && (forall i :: 0 <= i < |parts| ==> (if i == 0 then -1.0 else parse(parts[i - 1]).value.score) < parse(parts[i]).value.score)
  }

  /** `parts` are the stripped pieces between the commas (there is always one); `parse` is float() and int() of
      what stands before and after the first colon. */
  method ParseCurve(parts: seq<string>, parse: string -> Option<Point>) returns (out: Curve)
    ensures !GoodParts(parts, parse) ==> out == [Point(0.40, 6), Point(0.60, 2), Point(0.80, 1)]
    ensures GoodParts(parts, parse) ==> |out| == |parts| && forall i :: 0 <= i < |out| ==> parse(parts[i]) == Some(out[i])
    ensures |out| > 0 && Ascending(out) && forall i :: 0 <= i < |out| ==> out[i].cap >= 0
  {
    out := [];
    var prev := -1.0;
    for n := 0 to |parts|
      invariant |out| == n && (forall i :: 0 <= i < n ==> parts[i] != "" && parse(parts[i]) == Some(out[i]) && out[i].cap >= 0)
      invariant prev == if n == 0 then -1.0 else out[n - 1].score
      invariant n > 0 ==> -1.0 < out[0].score
      invariant Ascending(out)
    {
      if parts[n] == "" || parse(parts[n]).None? {
        return DEFAULT_CURVE;
      }
      var Point(score, cap) := parse(parts[n]).value;
      if cap < 0 || score <= prev {
        return DEFAULT_CURVE;
      }
      prev := score;
      out := out + [Point(score, cap)];
    }
    if out == [] {
      out := DEFAULT_CURVE;
    }
  }

  // ----- the target -----

  const EPSILON := 0.000000001

  /** Linear between two breakpoints, rounded down after the epsilon. */
  function Between(score: real, p: Point, q: Point): int
    requires p.score < q.score
  {
    (p.cap as real + (score - p.score) / (q.score - p.score) * (q.cap - p.cap) as real + EPSILON).Floor
  }

  function Clamp(raw: int, maxPool: int): int {
    var capped := if raw <= maxPool then raw else maxPool;
    if 1 <= capped then capped else 1
  }

  /** `i` is the first breakpoint that reaches the score: it ends the segment the score falls into. */
  ghost predicate SegmentOf(score: real, c: Curve, i: nat) {
    0 < i < |c| && score <= c[i].score && forall j :: 0 <= j < i ==> c[j].score < score
  }

  /** What the scan computes, said without a scan, whatever the order of the breakpoints. */
  ghost predicate IsRaw(raw: int, score: real, c: Curve)
    requires |c| > 0
  {
    && (score <= c[0].score ==> raw == c[0].cap)
    && (c[|c| - 1].score <= score && c[0].score < score ==> raw == c[|c| - 1].cap)
    && (c[0].score < score < c[|c| - 1].score ==> exists i: nat :: SegmentOf(score, c, i) && raw == Between(score, c[i - 1], c[i]))
  }

  /** `raw` lies on or, by less than one, below the straight line from one breakpoint to the next, 1e-9 aside; said
      without a division. */
  ghost predicate OnLine(raw: int, score: real, p: Point, q: Point) {
    var rise := (score - p.score) * (q.cap - p.cap) as real;
    ((raw - p.cap) as real - 0.000000001) * (q.score - p.score) <= rise
    && rise < ((raw + 1 - p.cap) as real - 0.000000001) * (q.score - p.score)
  }

  lemma BetweenOnLine(score: real, p: Point, q: Point)
    requires p.score < q.score
    ensures OnLine(Between(score, p, q), score, p, q)
  {
    var width, part, drop := q.score - p.score, score - p.score, (q.cap - p.cap) as real;
    var raw := Between(score, p, q);
    var exact := part / width * drop;
    var low, high := (raw - p.cap) as real - EPSILON, (raw + 1 - p.cap) as real - EPSILON;
    assert low <= exact < high by {
      assert raw == (p.cap as real + exact + EPSILON).Floor;
    }
    Rise(part, width, drop);
    Squeeze(low, exact, high, width, part * drop);
  }

  lemma Rise(part: real, width: real, drop: real)
    requires 0.0 < width
    ensures part / width * drop * width == part * drop
  {
    DivideMultiply(part, width);
    Reorder(part / width, drop, width);
  }

  lemma Reorder(a: real, b: real, c: real)
    ensures a * b * c == a * c * b
  {
  }

  lemma Squeeze(low: real, exact: real, high: real, width: real, rise: real)
    requires low <= exact < high && 0.0 < width && exact * width == rise
    ensures low * width <= rise < high * width
  {
    assert (exact - low) * width >= 0.0;
    assert (high - exact) * width > 0.0;
  }

  /** The target before it is kept between 1 and `maxPool`: the first cap up to its score, the last one from its score
      on, and in between the straight line of the segment, rounded down. */
  ghost predicate OnCurve(raw: int, score: real, c: Curve)
    requires |c| > 0
  {
    if score <= c[0].score then raw == c[0].cap
    else if c[|c| - 1].score <= score then raw == c[|c| - 1].cap
    else exists i: nat :: SegmentOf(score, c, i) && OnLine(raw, score, c[i - 1], c[i])
  }

  lemma RawOnCurve(raw: int, score: real, c: Curve)
    requires |c| > 0 && IsRaw(raw, score, c)
    ensures OnCurve(raw, score, c)
  {
    hide OnLine, Between;
    if c[0].score < score < c[|c| - 1].score {
      var i: nat :| SegmentOf(score, c, i) && raw == Between(score, c[i - 1], c[i]);
      BetweenOnLine(score, c[i - 1], c[i]);
    }
  }

  method PoolTargetFor(score: real, curve: Curve, maxPool: int) returns (target: int)
    ensures curve != [] ==> exists raw :: OnCurve(raw, score, curve)
                                          && target == if raw < 1 || maxPool < 1 then 1 else if maxPool < raw then maxPool else raw
    ensures curve == [] ==> target == if 1 <= maxPool then maxPool else 1
    ensures curve != [] ==> exists raw :: IsRaw(raw, score, curve) && target == Clamp(raw, maxPool)
    ensures 1 <= target && (1 <= maxPool ==> target <= maxPool)
  {
    if curve == [] {
      return if 1 <= maxPool then maxPool else 1;
    }
    var raw;
    if score <= curve[0].score {
      raw := curve[0].cap;
    } else if score >= curve[|curve| - 1].score {
      raw := curve[|curve| - 1].cap;
    } else {
      raw := curve[|curve| - 1].cap;
      for i := 1 to |curve|
        invariant forall j :: 0 <= j < i ==> curve[j].score < score
      {
        if score <= curve[i].score {
          raw := Between(score, curve[i - 1], curve[i]);
          assert SegmentOf(score, curve, i);
          break;
        }
      }
    }
    assert IsRaw(raw, score, curve);
    RawOnCurve(raw, score, curve);
    target := Clamp(raw, maxPool);
  }

  // ----- laws of the curve -----

  lemma BetweenBounds(score: real, p: Point, q: Point)
    requires p.score < score <= q.score && q.cap <= p.cap
    ensures q.cap <= Between(score, p, q) <= p.cap
    ensures score == q.score ==> Between(score, p, q) == q.cap
  {
    var frac := (score - p.score) / (q.score - p.score);
    DivideMultiply(score - p.score, q.score - p.score);
    FractionRange(frac, score - p.score, q.score - p.score);
    var drop := (q.cap - p.cap) as real;
    ScaledDrop(frac, drop);
    FloorWithin(p.cap as real + frac * drop, q.cap, p.cap);
    if score == q.score {
      DivideSelf(q.score - p.score);
      FloorWithin(p.cap as real + frac * drop, q.cap, q.cap);
    }
  }

  lemma FloorWithin(exact: real, lo: int, hi: int)
    requires lo as real <= exact <= hi as real
    ensures lo <= (exact + EPSILON).Floor <= hi
  {
  }

  lemma DivideSelf(b: real)
    requires b > 0.0
    ensures b / b == 1.0
  {
  }

  lemma DivideMultiply(a: real, b: real)
    requires b > 0.0
    ensures a / b * b == a
  {
  }

  lemma ProductSign(a: real, b: real)
    requires 0.0 <= a && b <= 0.0
    ensures a * b <= 0.0
  {
  }

  lemma ScaledDrop(frac: real, drop: real)
    requires 0.0 <= frac <= 1.0 && drop <= 0.0
    ensures drop <= frac * drop <= 0.0
  {
    ProductSign(frac, drop);
    ProductSign(1.0 - frac, drop);
    assert (1.0 - frac) * drop == drop - frac * drop;
  }

  lemma FractionRange(frac: real, part: real, whole: real)
    requires 0.0 < part <= whole && frac * whole == part
    ensures 0.0 < frac <= 1.0
  {
    assert frac > 1.0 ==> frac * whole > whole;
    assert frac <= 0.0 ==> frac * whole <= 0.0;
  }

  lemma BetweenFalls(x: real, y: real, p: Point, q: Point)
    requires p.score < x <= y <= q.score && q.cap <= p.cap
    ensures Between(y, p, q) <= Between(x, p, q)
  {
    var width, drop := q.score - p.score, (q.cap - p.cap) as real;
    var fx, fy := (x - p.score) / width, (y - p.score) / width;
    DivideMultiply(x - p.score, width);
    DivideMultiply(y - p.score, width);
    assert (fy - fx) * width == y - x;
    assert fy < fx ==> (fy - fx) * width < 0.0;
    ProductSign(fy - fx, drop);
    assert (fy - fx) * drop == fy * drop - fx * drop;
  }

  lemma SegmentOrder(x: real, y: real, c: Curve, i: nat, j: nat)
    requires Ascending(c) && SegmentOf(x, c, i) && SegmentOf(y, c, j) && x <= y
    ensures i <= j
  {
    assert forall a, b :: 0 <= a <= b < |c| ==> c[a].score <= c[b].score;
  }

  /** The raw target of a segment lies between its two caps, whichever branch computes it. */
  lemma RawInSegment(raw: int, score: real, c: Curve, i: nat)
    requires |c| > 0 && Ascending(c) && NonIncreasing(c) && IsRaw(raw, score, c) && SegmentOf(score, c, i)
    ensures raw == Between(score, c[i - 1], c[i]) && c[i].cap <= raw <= c[i - 1].cap
  {
    BetweenBounds(score, c[i - 1], c[i]);
    if score < c[|c| - 1].score {
      var j: nat :| SegmentOf(score, c, j) && raw == Between(score, c[j - 1], c[j]);
      SegmentOrder(score, score, c, i, j);
      SegmentOrder(score, score, c, j, i);
    }
  }

  lemma SegmentExists(score: real, c: Curve) returns (i: nat)
    requires |c| > 0 && Ascending(c) && c[0].score < score <= c[|c| - 1].score
    ensures SegmentOf(score, c, i)
  {
    i := 1;
    while c[i].score < score
      invariant 0 < i < |c| && forall j :: 0 <= j < i ==> c[j].score < score
      decreases |c| - i
    {
      i := i + 1;
    }
  }

  /** With caps that never rise, more pressure never raises the target. */
  lemma TargetNeverRises(x: real, y: real, rx: int, ry: int, c: Curve, maxPool: int)
    requires |c| > 0 && Ascending(c) && NonIncreasing(c) && x <= y
    requires IsRaw(rx, x, c) && IsRaw(ry, y, c)
    ensures Clamp(ry, maxPool) <= Clamp(rx, maxPool)
  {
    RawRange(rx, x, c);
    RawRange(ry, y, c);
    var last := |c| - 1;
    if c[0].score < x && y < c[last].score {
      var i := SegmentExists(x, c);
      var j := SegmentExists(y, c);
      hide IsRaw, Between;
      RawInSegment(rx, x, c, i);
      RawInSegment(ry, y, c, j);
      SegmentOrder(x, y, c, i, j);
      if i == j {
        BetweenFalls(x, y, c[i - 1], c[i]);
      } else {
        assert c[j - 1].cap <= c[i].cap;
      }
    }
  }

  lemma RawRange(raw: int, score: real, c: Curve)
    requires |c| > 0 && Ascending(c) && NonIncreasing(c) && IsRaw(raw, score, c)
    ensures c[|c| - 1].cap <= raw <= c[0].cap
  {
    if c[0].score < score < c[|c| - 1].score {
      var i := SegmentExists(score, c);
      RawInSegment(raw, score, c, i);
    }
  }

  /** Every breakpoint's own score gets exactly that breakpoint's cap. */
  lemma BreakpointsAreExact(c: Curve, i: nat, raw: int)
    requires i < |c| && Ascending(c) && NonIncreasing(c) && IsRaw(raw, c[i].score, c)
    ensures raw == c[i].cap
  {
    if i > 0 {
      assert SegmentOf(c[i].score, c, i);
      RawInSegment(raw, c[i].score, c, i);
      BetweenBounds(c[i].score, c[i - 1], c[i]);
    }
  }
}
