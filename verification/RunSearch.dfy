/** Opening/ending search by audio fingerprint (services/content-verify/analyzers/opskip.py).

    Frames are 32-bit words, similarities exact reals. */
module RunSearch {
  import opened Optional

  const GAP_FRAMES := 8

  datatype Run = Run(lo: nat, hi: nat)

  // ----- the gap-tolerant run -----

  /** Starts and ends on a hit and never misses more than GAP_FRAMES frames in a row. */
  ghost predicate Interval(hits: seq<bool>, lo: nat, hi: nat) {
    && lo <= hi < |hits| && hits[lo] && hits[hi]
    && forall k :: lo <= k && k + GAP_FRAMES <= hi ==> HitWithin(hits, k)
  }

  ghost predicate HitWithin(hits: seq<bool>, k: nat)
    requires k + GAP_FRAMES < |hits|
  {
    exists j :: k <= j <= k + GAP_FRAMES && hits[j]
  }

  /** Longer, or as long and no later. */
  predicate AtLeast(best: Run, lo: nat, hi: nat) {
    best.hi - best.lo > hi - lo || (best.hi - best.lo == hi - lo && best.lo <= lo)
  }

  ghost predicate LongestInterval(hits: seq<bool>, best: Run) {
    Interval(hits, best.lo, best.hi) && forall lo: nat, hi: nat :: Interval(hits, lo, hi) ==> AtLeast(best, lo, hi)
  }

  ghost function RunOf(hits: seq<bool>, minFrames: int): Option<Run> {
    if exists r: Run :: LongestInterval(hits, r) && r.hi - r.lo + 1 >= minFrames
    then var r: Run :| LongestInterval(hits, r) && r.hi - r.lo + 1 >= minFrames; Some(r)
    else None
  }

  lemma RunIsUnique(hits: seq<bool>, r: Run, q: Run)
    requires LongestInterval(hits, r) && LongestInterval(hits, q)
    ensures r == q
  {
    assert AtLeast(r, q.lo, q.hi) && AtLeast(q, r.lo, r.hi);
  }

  /** Everything that starts before `bound` is over and no better than `best`. */
  ghost predicate Settled(hits: seq<bool>, best: Option<Run>, bound: nat) {
    && (best.Some? ==> Interval(hits, best.value.lo, best.value.hi) && best.value.lo < bound)
    && forall lo: nat, hi: nat :: lo < bound && Interval(hits, lo, hi) ==> best.Some? && AtLeast(best.value, lo, hi)
  }

  /** The run open at `start` whose last hit is `last`, seen up to `i`. */
  ghost predicate OpenRun(hits: seq<bool>, start: nat, last: nat, i: nat) {
    && start <= last < i <= |hits| && Interval(hits, start, last) && hits[last]
    && forall j :: last < j < i ==> !hits[j]
  }

  lemma ExtendRun(hits: seq<bool>, start: nat, last: nat, i: nat)
    requires OpenRun(hits, start, last, i) && i < |hits| && hits[i] && i - last <= GAP_FRAMES + 1
    ensures Interval(hits, start, i)
  {
    forall k | start <= k && k + GAP_FRAMES <= i ensures HitWithin(hits, k) {
      if k + GAP_FRAMES > last {
        if k <= last { assert hits[last]; } else { assert hits[i]; }
      }
    }
  }

  function Better(best: Option<Run>, start: nat, end: nat): Option<Run>
    requires start <= end
  {
    if best.None? || end - start > best.value.hi - best.value.lo then Some(Run(start, end)) else best
  }

  /** Closing a run, either because the gap grew too long or because the frames ended. */
  lemma CloseRun(hits: seq<bool>, best: Option<Run>, start: nat, last: nat, i: nat)
    requires OpenRun(hits, start, last, i) && Settled(hits, best, start)
    requires i == |hits| || i - last > GAP_FRAMES + 1
    requires best.Some? ==> best.value.lo <= best.value.hi
    ensures Settled(hits, Better(best, start, last), i)
  {
    var now := Better(best, start, last);
    forall lo: nat, hi: nat | lo < i && Interval(hits, lo, hi) ensures now.Some? && AtLeast(now.value, lo, hi) {
      if lo >= start {
        assert hits[lo] && lo <= last;
        if hi > last {
          assert hits[hi] && hi >= i;
          assert HitWithin(hits, last + 1);
        }
      }
    }
  }

  method LongestRun(hits: seq<bool>, minFrames: int) returns (run: Option<Run>)
    ensures run == RunOf(hits, minFrames)
    ensures run.None? <==> forall lo: nat, hi: nat :: Interval(hits, lo, hi) ==> hi - lo + 1 < minFrames
    ensures run.Some? ==> LongestInterval(hits, run.value) && run.value.hi - run.value.lo + 1 >= minFrames
  {
    hide Interval, HitWithin, RunOf, LongestInterval;
    NothingSettled(hits);
    var best: Option<Run>, start: Option<nat>, gap := None, None, 0;
    for i := 0 to |hits|
      invariant 0 <= gap <= GAP_FRAMES
      invariant best.Some? ==> best.value.lo <= best.value.hi
      invariant start.None? ==> gap == 0 && Settled(hits, best, i)
      invariant start.Some? ==> gap < i && OpenRun(hits, start.value, i - 1 - gap, i) && Settled(hits, best, start.value)
    {
      if hits[i] {
        if start.None? {
          start := Some(i);
          OneHit(hits, i);
        } else {
          ExtendRun(hits, start.value, i - 1 - gap, i);
        }
        gap := 0;
      } else if start.None? {
        SkipMiss(hits, best, i);
      } else {
        gap := gap + 1;
        if gap > GAP_FRAMES {
          var end := i - gap;
          CloseRun(hits, best, start.value, end, i + 1);
          best := Better(best, start.value, end);
          start, gap := None, 0;
        }
      }
    }
    if start.Some? {
      var end := |hits| - 1;
      while end > start.value && !hits[end]
        invariant |hits| - 1 - gap <= end < |hits| && start.value <= end
      {
        end := end - 1;
      }
      CloseRun(hits, best, start.value, |hits| - 1 - gap, |hits|);
      best := Better(best, start.value, end);
    }
    AllSettled(hits, best, minFrames);
    if best.Some? && best.value.hi - best.value.lo + 1 >= minFrames {
      return best;
    }
    return None;
  }

  lemma NothingSettled(hits: seq<bool>)
    ensures Settled(hits, None, 0)
  {
  }

  lemma SkipMiss(hits: seq<bool>, best: Option<Run>, i: nat)
    requires Settled(hits, best, i) && i < |hits| && !hits[i]
    ensures Settled(hits, best, i + 1)
  {
  }

  lemma OneHit(hits: seq<bool>, i: nat)
    requires i < |hits| && hits[i]
    ensures Interval(hits, i, i)
  {
  }

  /** When every frame is behind, the best run decides the answer. */
  lemma AllSettled(hits: seq<bool>, best: Option<Run>, minFrames: int)
    requires Settled(hits, best, |hits|)
    ensures best.Some? ==> LongestInterval(hits, best.value) && best.value.lo <= best.value.hi
    ensures RunOf(hits, minFrames) == if best.Some? && best.value.hi - best.value.lo + 1 >= minFrames then best else None
    ensures RunOf(hits, minFrames).None? <==> forall lo: nat, hi: nat :: Interval(hits, lo, hi) ==> hi - lo + 1 < minFrames
  {
    assert forall lo: nat, hi: nat :: Interval(hits, lo, hi) ==> lo < |hits|;
    hide HitWithin;
    if best.Some? {
      Determined(hits, best.value, minFrames);
    }
  }

  lemma Determined(hits: seq<bool>, best: Run, minFrames: int)
    requires LongestInterval(hits, best)
    ensures RunOf(hits, minFrames) == if best.hi - best.lo + 1 >= minFrames then Some(best) else None
  {
    if exists r: Run :: LongestInterval(hits, r) && r.hi - r.lo + 1 >= minFrames {
      var r: Run :| LongestInterval(hits, r) && r.hi - r.lo + 1 >= minFrames && RunOf(hits, minFrames) == Some(r);
      RunIsUnique(hits, r, best);
    }
  }

  // ----- similarity -----

  newtype Frame = x: int | 0 <= x < 0x1_0000_0000

  /** The number of one bits. */
  function Ones(n: nat): nat { if n == 0 then 0 else n % 2 + Ones(n / 2) }

  function Xor(a: nat, b: nat): nat
    decreases a + b
  {
    if a == 0 && b == 0 then 0 else (a + b) % 2 + 2 * Xor(a / 2, b / 2)
  }

  /** The number of positions at which two words differ. */
  function Differing(a: nat, b: nat): nat
    decreases a + b
  {
    if a == 0 && b == 0 then 0 else (if a % 2 == b % 2 then 0 else 1) + Differing(a / 2, b / 2)
  }

  lemma {:induction false} OnesStep(bit: nat, rest: nat)
    requires bit < 2
    ensures Ones(bit + 2 * rest) == bit + Ones(rest)
  {
    var n := bit + 2 * rest;
    assert n / 2 == rest && n % 2 == bit;
  }

  lemma {:induction false} OnesOfXor(a: nat, b: nat)
    ensures Ones(Xor(a, b)) == Differing(a, b)
    decreases a + b
  {
    hide Ones;
    OnesZero();
    if a != 0 || b != 0 {
      var bit, rest := (a + b) % 2, Xor(a / 2, b / 2);
      assert bit == if a % 2 == b % 2 then 0 else 1;
      assert Xor(a, b) == bit + 2 * rest;
      OnesOfXor(a / 2, b / 2);
      OnesStep(bit, rest);
    }
  }

  lemma OnesZero()
    ensures Ones(0) == 0
  {
  }

  function Pow2(bits: nat): nat { if bits == 0 then 1 else 2 * Pow2(bits - 1) }

  lemma {:induction false} XorBound(a: nat, b: nat, bits: nat)
    requires a < Pow2(bits) && b < Pow2(bits)
    ensures Xor(a, b) < Pow2(bits)
    decreases bits
  {
    if bits > 0 { XorBound(a / 2, b / 2, bits - 1); }
  }

  lemma {:induction false} DifferingLaws(a: nat, b: nat, bits: nat)
    requires a < Pow2(bits) && b < Pow2(bits)
    ensures Differing(a, b) == Differing(b, a) <= bits
    ensures Differing(a, b) == 0 <==> a == b
    decreases bits
  {
    if bits > 0 { DifferingLaws(a / 2, b / 2, bits - 1); }
  }

  /** The table POP, indexed by 16-bit halves: bin(i).count("1"). */
  function Pop(half: nat): nat { Ones(half) }

  function PopCount32(x: nat): nat { Pop(x % 65536) + Pop(x / 65536 % 65536) }

  /** Counting splits at any bit position. */
  lemma {:induction false} OnesJoin(high: nat, low: nat, bits: nat)
    requires low < Pow2(bits)
    ensures Ones(high * Pow2(bits) + low) == Ones(high) + Ones(low)
    decreases bits
  {
    hide Ones;
    OnesZero();
    if bits > 0 {
      var p := Pow2(bits - 1);
      assert high * (2 * p) == 2 * (high * p);
      OnesJoin(high, low / 2, bits - 1);
      OnesStep(low % 2, high * p + low / 2);
      OnesStep(low % 2, low / 2);
    }
  }

  /** The two table lookups count the bits of the whole word. */
  lemma {:induction false} PopCountIsOnes(x: nat)
    requires x < 0x1_0000_0000
    ensures PopCount32(x) == Ones(x)
  {
    hide Ones, Pow2;
    Pow2Frame();
    OnesJoin(x / 65536, x % 65536, 16);
  }

  const FRAME_BITS := 32

  lemma Pow2Frame()
    ensures Pow2(FRAME_BITS) == 0x1_0000_0000 && Pow2(16) == 65536
  {
    assert Pow2(4) == 16 && Pow2(8) == 256 && Pow2(12) == 4096 && Pow2(16) == 65536;
    assert Pow2(20) == 1048576 && Pow2(24) == 16777216 && Pow2(28) == 268435456;
  }

  function FrameSimilarity(a: Frame, b: Frame): real {
    1.0 - PopCount32(Xor(a as nat, b as nat)) as real / 32.0
  }

  /** Similarity is the share of equal bits: in [0, 1], symmetric, and 1 only for equal frames. */
  lemma {:induction false} SimilarityIsEqualBits(a: Frame, b: Frame)
    ensures FrameSimilarity(a, b) == 1.0 - Differing(a as nat, b as nat) as real / 32.0
    ensures 0.0 <= FrameSimilarity(a, b) == FrameSimilarity(b, a) <= 1.0
    ensures FrameSimilarity(a, b) == 1.0 <==> a == b
  {
    hide Ones, Xor, Differing, PopCount32;
    Pow2Frame();
    var x, y := a as nat, b as nat;
    XorBound(x, y, FRAME_BITS);
    XorBound(y, x, FRAME_BITS);
    PopCountIsOnes(Xor(x, y));
    PopCountIsOnes(Xor(y, x));
    OnesOfXor(x, y);
    OnesOfXor(y, x);
    DifferingLaws(x, y, FRAME_BITS);
  }

  // ----- one alignment -----

  type Frames = seq<Frame>

  function Min(a: int, b: int): int { if a <= b then a else b }

  /** How many frames of `a` meet a frame of `b` shifted by `lag`. */
  function Overlap(a: Frames, b: Frames, lag: int): int {
    if lag >= 0 then Min(|a|, |b| - lag) else Min(|a| + lag, |b|)
  }

  function Offset(lag: int): nat { if lag >= 0 then 0 else -lag }

  function SimSeries(a: Frames, b: Frames, lag: int): (s: seq<real>)
    ensures |s| == if Overlap(a, b, lag) <= 0 then 0 else Overlap(a, b, lag)
  {
    hide FrameSimilarity;
    var n := Overlap(a, b, lag);
    if n <= 0 then []
    else if lag >= 0 then Zip(a[..n], b[lag..lag + n])
    else Zip(a[-lag..-lag + n], b[..n])
  }

  function Zip(x: Frames, y: Frames): (s: seq<real>)
    requires |x| == |y|
    ensures |s| == |x|
  {
    if x == [] then [] else [FrameSimilarity(x[0], y[0])] + Zip(x[1..], y[1..])
  }

  lemma {:induction false} ZipAt(x: Frames, y: Frames, i: nat)
    requires i < |x| == |y|
    ensures Zip(x, y)[i] == FrameSimilarity(x[i], y[i])
    decreases |x|
  {
    hide FrameSimilarity;
    if i > 0 { ZipAt(x[1..], y[1..], i - 1); }
  }

  /** Entry `i` compares frames inside both inputs that lie `lag` apart. */
  lemma SimSeriesAt(a: Frames, b: Frames, lag: int, i: nat)
    requires i < |SimSeries(a, b, lag)|
    ensures i + Offset(lag) < |a| && 0 <= i + Offset(lag) + lag < |b|
    ensures SimSeries(a, b, lag)[i] == FrameSimilarity(a[i + Offset(lag)], b[i + Offset(lag) + lag])
  {
    hide FrameSimilarity, Zip;
    var n := Overlap(a, b, lag);
    var x := if lag >= 0 then a[..n] else a[-lag..-lag + n];
    var y := if lag >= 0 then b[lag..lag + n] else b[..n];
    assert SimSeries(a, b, lag) == Zip(x, y);
    hide SimSeries;
    ZipAt(x, y, i);
    assert x[i] == a[i + Offset(lag)];
    assert y[i] == b[i + Offset(lag) + lag];
  }

  /** Swapping the inputs and the sign of the lag compares the same frames. */
  lemma SimSeriesMirrored(a: Frames, b: Frames, lag: int)
    ensures SimSeries(a, b, lag) == SimSeries(b, a, -lag)
  {
    hide FrameSimilarity, Zip;
    var s, t := SimSeries(a, b, lag), SimSeries(b, a, -lag);
    assert |s| == |t|;
    forall i | 0 <= i < |s| ensures s[i] == t[i] {
      SimSeriesAt(a, b, lag, i);
      SimSeriesAt(b, a, -lag, i);
      SimilarityIsEqualBits(a[i + Offset(lag)], b[i + Offset(lag) + lag]);
    }
  }

  // ----- the scan over all alignments -----

  const DUP_SPAN_S := 300.0
  const DUP_SIM := 0.95

  /** int() of a Python float. */
  function Trunc(x: real): int { if x >= 0.0 then x.Floor else -((-x).Floor) }

  datatype Args = Args(min: real, max: real, sim: real)

  function MinFrames(args: Args, rate: real): int { Trunc(args.min * rate) }

  function MaxFrames(args: Args, rate: real): int { Trunc(args.max * rate) }

  function Total(s: seq<real>): real { if s == [] then 0.0 else s[0] + Total(s[1..]) }

  function Mean(s: seq<real>): real
    requires s != []
  {
    Total(s) / |s| as real
  }

  function Hits(s: seq<real>, sim: real): (h: seq<bool>)
    ensures |h| == |s| && forall i :: 0 <= i < |s| ==> h[i] == (s[i] >= sim)
  {
    seq(|s|, i requires 0 <= i < |s| => s[i] >= sim)
  }

  /** Bounds in the coordinates of `a`; the mean of no frames is not a number. */
  datatype Candidate = Candidate(r0: nat, r1: int, lag: int, mean: Option<real>)

  /** Longer, or equally long and more similar; what is not a number compares with nothing. */
  predicate Beats(c: Candidate, d: Candidate) {
    c.r1 - c.r0 > d.r1 - d.r0
    || (c.r1 - c.r0 == d.r1 - d.r0 && c.mean.Some? && d.mean.Some? && c.mean.value > d.mean.value)
  }

  /** A Python slice; a negative end counts from the back. */
  function Slice(s: seq<real>, lo: nat, end: int): seq<real>
    requires lo <= |s|
  {
    var stop := if end < 0 then |s| + end else Min(end, |s|);
    if lo < stop then s[lo..stop] else []
  }

  lemma SliceReads(s: seq<real>, lo: nat, end: int)
    requires lo <= |s|
    ensures var t := Slice(s, lo, end);
            && (0 <= end ==> |t| == if end <= lo then 0 else if end <= |s| then end - lo else |s| - lo)
            && (end < 0 ==> |t| == if |s| + end <= lo then 0 else |s| + end - lo)
            && forall k :: 0 <= k < |t| ==> t[k] == s[lo + k]
  {
  }

  function MeanOf(s: seq<real>): Option<real> { if s == [] then None else Some(Mean(s)) }

  predicate Fits(s: seq<real>, run: Run) { run.lo <= run.hi < |s| }

  /** The run an alignment offers, if any. */
  ghost function RunAt(s: seq<real>, minF: int, sim: real): (run: Option<Run>)
    ensures run.Some? ==> Fits(s, run.value) && s[run.value.lo] >= sim
  {
    if |s| < minF then None
    else
      var run := RunOf(Hits(s, sim), minF);
      assert run.Some? ==> Hits(s, sim)[run.value.lo];
      run
  }

  /** A run as long and as similar as only the same programme served twice gives. */
  predicate DuplicateRun(s: seq<real>, run: Run, rate: real)
    requires Fits(s, run)
  {
    (run.hi - run.lo + 1) as real >= DUP_SPAN_S * rate && Mean(s[run.lo..run.hi + 1]) >= DUP_SIM
  }

  /** The run capped at `maxF` frames, in the coordinates of `a`, with the mean of the capped part. */
  function Capped(s: seq<real>, run: Run, lag: int, maxF: int): Candidate
    requires Fits(s, run)
  {
    var length := Min(run.hi - run.lo + 1, maxF);
    Candidate(run.lo + Offset(lag), run.lo + Offset(lag) + length - 1, lag, MeanOf(Slice(s, run.lo, run.lo + length)))
  }

  ghost predicate DuplicateAt(a: Frames, b: Frames, lag: int, minF: int, sim: real, rate: real) {
    var s := SimSeries(a, b, lag);
    RunAt(s, minF, sim).Some? && DuplicateRun(s, RunAt(s, minF, sim).value, rate)
  }

  ghost function CandidateAt(a: Frames, b: Frames, lag: int, minF: int, maxF: int, sim: real): Option<Candidate> {
    var s := SimSeries(a, b, lag);
    if RunAt(s, minF, sim).None? then None else Some(Capped(s, RunAt(s, minF, sim).value, lag, maxF))
  }

  predicate Scanned(b: Frames, minF: int, lag: int) { -(|b| - minF) <= lag < |b| - minF }

  /** The alignments with an overlap that is long enough, and at least one frame, but that the scan leaves out: with
      a minimum of a frame or more the last one of `b`; and those that start too far into `a`, when it is longer than
      the scan reaches back. */
  lemma AlignmentsMissed(a: Frames, b: Frames, minF: int, lag: int)
    ensures var least := if minF < 1 then 1 else minF;
            least <= Overlap(a, b, lag) && !Scanned(b, minF, lag)
            <==> && least <= |a| && least <= |b|
                 && ((1 <= minF && lag == |b| - minF) || -(|a| - least) <= lag < -(|b| - minF))
  {
  }

  datatype Search = NotFound | Duplicate | Segment(r0: nat, r1: int, lag: int, mean: Option<real>)

  /** Whatever an alignment offers respects the cap and starts on a hit; it lies inside both inputs and its mean is
      a number, unless the cap is below one frame, when all offers have the same (impossible) length. */
  lemma CandidateFits(a: Frames, b: Frames, lag: int, minF: int, maxF: int, sim: real)
    requires CandidateAt(a, b, lag, minF, maxF, sim).Some?
    ensures var c := CandidateAt(a, b, lag, minF, maxF, sim).value;
            && c.lag == lag && c.r0 < |a| && c.r1 < |a| && 0 <= c.r0 + lag < |b| && c.r1 + lag < |b|
            && c.r1 - c.r0 + 1 <= maxF && FrameSimilarity(a[c.r0], b[c.r0 + lag]) >= sim
            && (if 1 <= maxF then c.r0 <= c.r1 && c.mean.Some? else c.r1 == c.r0 + maxF - 1)
  {
    hide FrameSimilarity, SimSeries, RunAt, Mean;
    var s := SimSeries(a, b, lag);
    var run := RunAt(s, minF, sim).value;
    SimSeriesAt(a, b, lag, run.lo);
    SimSeriesAt(a, b, lag, run.hi);
  }

  ghost predicate Numbered(a: Frames, b: Frames, lag: int, minF: int, maxF: int, sim: real) {
    Scanned(b, minF, lag) && CandidateAt(a, b, lag, minF, maxF, sim).Some?
    && CandidateAt(a, b, lag, minF, maxF, sim).value.mean.Some?
  }

  /** `best` is the first best of what the scanned lags below `bound` offer. An offer without a number is best only
      as the first of all, and then for good. */
  ghost predicate BestBelow(a: Frames, b: Frames, minF: int, maxF: int, sim: real, best: Option<Candidate>, bound: int) {
    match best
    case None => forall lag :: Scanned(b, minF, lag) && lag < bound ==> CandidateAt(a, b, lag, minF, maxF, sim).None?
    case Some(top) =>
      && top.lag < bound && Scanned(b, minF, top.lag) && CandidateAt(a, b, top.lag, minF, maxF, sim) == best
      && forall lag :: Scanned(b, minF, lag) && lag < bound && CandidateAt(a, b, lag, minF, maxF, sim).Some? ==>
           var c := CandidateAt(a, b, lag, minF, maxF, sim).value;
           && !Beats(c, top)
           && (lag < top.lag ==> top.mean.Some?)
           && (lag < top.lag && c.mean.Some? ==> Beats(top, c))
           && (lag < top.lag && c.mean.None? ==> exists l :: l < lag && Numbered(a, b, l, minF, maxF, sim))
  }

  function Pick(best: Option<Candidate>, offer: Option<Candidate>): Option<Candidate> {
    if offer.Some? && (best.None? || Beats(offer.value, best.value)) then offer else best
  }

  lemma BestStep(a: Frames, b: Frames, minF: int, maxF: int, sim: real, best: Option<Candidate>, lag: int)
    requires Scanned(b, minF, lag) && BestBelow(a, b, minF, maxF, sim, best, lag)
    ensures BestBelow(a, b, minF, maxF, sim, Pick(best, CandidateAt(a, b, lag, minF, maxF, sim)), lag + 1)
  {
    hide CandidateAt, FrameSimilarity;
    forall l | CandidateAt(a, b, l, minF, maxF, sim).Some?
      ensures var c := CandidateAt(a, b, l, minF, maxF, sim).value;
              c.lag == l && (if 1 <= maxF then c.mean.Some? else c.r1 == c.r0 + maxF - 1)
    {
      CandidateFits(a, b, l, minF, maxF, sim);
    }
    var offer := CandidateAt(a, b, lag, minF, maxF, sim);
    if offer.Some? && best.Some? && Beats(offer.value, best.value) {
      assert best.value.mean.Some? ==> Numbered(a, b, best.value.lag, minF, maxF, sim);
    }
  }

  // ----- the result over frames -----

  /** Frames `lo` to `hi` of `a` against those `lag` further in `b`: both ends similar enough, and never more than eight
      frames in a row that are not. */
  ghost predicate Common(a: Frames, b: Frames, sim: real, lag: int, lo: nat, hi: nat) {
    && lo <= hi < |a| && 0 <= lo + lag && hi + lag < |b|
    && FrameSimilarity(a[lo], b[lo + lag]) >= sim && FrameSimilarity(a[hi], b[hi + lag]) >= sim
    && forall k :: lo <= k && k + 8 <= hi ==> SimilarNear(a, b, sim, lag, k)
  }

  /** One of the nine frames from `k` on is similar enough. */
  ghost predicate SimilarNear(a: Frames, b: Frames, sim: real, lag: int, k: nat) {
    exists j :: k <= j <= k + 8 && j < |a| && 0 <= j + lag < |b| && FrameSimilarity(a[j], b[j + lag]) >= sim
  }

  lemma CommonIsInterval(a: Frames, b: Frames, sim: real, lag: int, lo: nat, hi: nat)
    ensures Common(a, b, sim, lag, lo, hi) <==>
            Offset(lag) <= lo <= hi
            && Interval(Hits(SimSeries(a, b, lag), sim), lo - Offset(lag), hi - Offset(lag))
  {
    hide FrameSimilarity, SimSeries, HitWithin, SimilarNear, Hits;
    var s, off := SimSeries(a, b, lag), Offset(lag);
    var hits := Hits(s, sim);
    if lo <= hi {
      InsideSeries(a, b, lag, lo, hi);
    }
    if off <= lo <= hi && hi - off < |s| {
      HitIsSimilar(a, b, sim, lag, lo);
      HitIsSimilar(a, b, sim, lag, hi);
      forall k: nat | lo <= k && k + 8 <= hi ensures SimilarNear(a, b, sim, lag, k) <==> HitWithin(hits, k - off) {
        NearIsWithin(a, b, sim, lag, k);
      }
      if Common(a, b, sim, lag, lo, hi) {
        forall k | lo - off <= k && k + GAP_FRAMES <= hi - off ensures HitWithin(hits, k) {
          assert SimilarNear(a, b, sim, lag, k + off);
        }
      }
    }
  }

  lemma InsideSeries(a: Frames, b: Frames, lag: int, lo: nat, hi: nat)
    requires lo <= hi
    ensures Offset(lag) <= lo && hi - Offset(lag) < |SimSeries(a, b, lag)| <==> hi < |a| && 0 <= lo + lag && hi + lag < |b|
  {
    hide Zip;
  }

  lemma HitIsSimilar(a: Frames, b: Frames, sim: real, lag: int, j: nat)
    requires Offset(lag) <= j < Offset(lag) + |SimSeries(a, b, lag)|
    ensures j < |a| && 0 <= j + lag < |b|
    ensures Hits(SimSeries(a, b, lag), sim)[j - Offset(lag)] == (FrameSimilarity(a[j], b[j + lag]) >= sim)
  {
    hide FrameSimilarity, SimSeries;
    SimSeriesAt(a, b, lag, j - Offset(lag));
  }

  lemma NearIsWithin(a: Frames, b: Frames, sim: real, lag: int, k: nat)
    requires Offset(lag) <= k && k + 8 < Offset(lag) + |SimSeries(a, b, lag)|
    ensures SimilarNear(a, b, sim, lag, k) <==> HitWithin(Hits(SimSeries(a, b, lag), sim), k - Offset(lag))
  {
    hide FrameSimilarity, SimSeries, Hits;
    var hits, off := Hits(SimSeries(a, b, lag), sim), Offset(lag);
    forall j | k <= j <= k + 8 ensures j < |a| && 0 <= j + lag < |b| && hits[j - off] == (FrameSimilarity(a[j], b[j + lag]) >= sim) {
      HitIsSimilar(a, b, sim, lag, j);
    }
    if HitWithin(hits, k - off) {
      var i :| k - off <= i <= k - off + GAP_FRAMES && hits[i];
      assert FrameSimilarity(a[i + off], b[i + off + lag]) >= sim;
    }
    if SimilarNear(a, b, sim, lag, k) {
      var j :| k <= j <= k + 8 && j < |a| && 0 <= j + lag < |b| && FrameSimilarity(a[j], b[j + lag]) >= sim;
      assert hits[j - off];
    }
  }

  /** Where there is an interval there is a longest one. */
  lemma LongestFrom(hits: seq<bool>, lo: nat, hi: nat) returns (r: Run)
    requires Interval(hits, lo, hi)
    ensures LongestInterval(hits, r) && hi - lo <= r.hi - r.lo
    decreases |hits| - (hi - lo), lo
  {
    hide HitWithin;
    r := Run(lo, hi);
    if !LongestInterval(hits, r) {
      var l: nat, h: nat :| Interval(hits, l, h) && !AtLeast(r, l, h);
      r := LongestFrom(hits, l, h);
    }
  }

  /** A common stretch of `minF` frames or more makes its lag offer one as long, up to the cap. */
  lemma CommonIsOffered(a: Frames, b: Frames, minF: int, maxF: int, sim: real, lag: int, lo: nat, hi: nat)
    requires Common(a, b, sim, lag, lo, hi) && minF <= hi - lo + 1
    ensures CandidateAt(a, b, lag, minF, maxF, sim).Some?
    ensures var c := CandidateAt(a, b, lag, minF, maxF, sim).value; Min(hi - lo + 1, maxF) <= c.r1 - c.r0 + 1
  {
    hide FrameSimilarity, SimSeries, Mean, Common;
    CommonIsInterval(a, b, sim, lag, lo, hi);
    var s := SimSeries(a, b, lag);
    var r := LongestFrom(Hits(s, sim), lo - Offset(lag), hi - Offset(lag));
    Determined(Hits(s, sim), r, minF);
  }

  /** No longer common stretch at this lag, and none as long that starts earlier. */
  ghost predicate LongestCommon(a: Frames, b: Frames, sim: real, lag: int, lo: nat, hi: nat) {
    Common(a, b, sim, lag, lo, hi)
    && forall l: nat, h: nat :: Common(a, b, sim, lag, l, h) ==> h - l < hi - lo || (h - l == hi - lo && lo <= l)
  }

  /** The similarities of the `n` frames from `lo` on, added up. */
  ghost function SumFrom(a: Frames, b: Frames, lag: int, lo: nat, n: nat): real
    requires lo + n <= |a| && 0 <= lo + lag && lo + n + lag <= |b|
  {
    if n == 0 then 0.0 else SumFrom(a, b, lag, lo, n - 1) + FrameSimilarity(a[lo + n - 1], b[lo + n - 1 + lag])
  }

  lemma {:induction false} TotalSnoc(s: seq<real>, x: real)
    ensures Total(s + [x]) == Total(s) + x
    decreases |s|
  {
    if s == [] {
      assert [] + [x] == [x];
    } else {
      TotalSnoc(s[1..], x);
      assert (s + [x])[1..] == s[1..] + [x];
    }
  }

  lemma {:induction false} TotalIsSum(a: Frames, b: Frames, lag: int, lo: nat, n: nat)
    requires Offset(lag) <= lo && lo - Offset(lag) + n <= |SimSeries(a, b, lag)|
    requires lo + n <= |a| && 0 <= lo + lag && lo + n + lag <= |b|
    ensures var first := lo - Offset(lag); Total(SimSeries(a, b, lag)[first..first + n]) == SumFrom(a, b, lag, lo, n)
    decreases n
  {
    hide FrameSimilarity, SimSeries;
    if n > 0 {
      var s, first := SimSeries(a, b, lag), lo - Offset(lag);
      TotalIsSum(a, b, lag, lo, n - 1);
      SimSeriesAt(a, b, lag, first + n - 1);
      TotalSnoc(s[first..first + n - 1], s[first + n - 1]);
      assert s[first..first + n] == s[first..first + n - 1] + [s[first + n - 1]];
    }
  }

  lemma RunIsLongestCommon(a: Frames, b: Frames, minF: int, sim: real, lag: int, lo: nat, hi: nat)
    ensures LongestCommon(a, b, sim, lag, lo, hi) && minF <= hi - lo + 1 <==>
            Offset(lag) <= lo <= hi && RunAt(SimSeries(a, b, lag), minF, sim) == Some(Run(lo - Offset(lag), hi - Offset(lag)))
  {
    hide FrameSimilarity, SimSeries, Common, Interval;
    var s, off := SimSeries(a, b, lag), Offset(lag);
    var hits := Hits(s, sim);
    CommonIsInterval(a, b, sim, lag, lo, hi);
    if RunAt(s, minF, sim).Some? {
      var r: Run :| LongestInterval(hits, r) && r.hi - r.lo + 1 >= minF && RunOf(hits, minF) == Some(r);
      CommonIsInterval(a, b, sim, lag, r.lo + off, r.hi + off);
      forall l: nat, h: nat | Common(a, b, sim, lag, l, h) ensures off <= l <= h && AtLeast(r, l - off, h - off) {
        CommonIsInterval(a, b, sim, lag, l, h);
      }
    }
    if LongestCommon(a, b, sim, lag, lo, hi) && minF <= hi - lo + 1 {
      forall l: nat, h: nat | Interval(hits, l, h) ensures AtLeast(Run(lo - off, hi - off), l, h) {
        IntervalInside(hits, l, h);
        CommonIsInterval(a, b, sim, lag, l + off, h + off);
        assert Common(a, b, sim, lag, l + off, h + off);
      }
      assert LongestInterval(hits, Run(lo - off, hi - off));
      Determined(hits, Run(lo - off, hi - off), minF);
      IntervalInside(hits, lo - off, hi - off);
    }
  }

  lemma IntervalInside(hits: seq<bool>, lo: nat, hi: nat)
    requires Interval(hits, lo, hi)
    ensures lo <= hi < |hits|
  {
  }

  /** What a lag offers: its longest common stretch, if that has `minF` frames, cut off at the cap, and the mean
      similarity of what is left. */
  lemma OfferInFrames(a: Frames, b: Frames, minF: int, maxF: int, sim: real, lag: int, lo: nat, hi: nat)
    requires 1 <= maxF && LongestCommon(a, b, sim, lag, lo, hi) && minF <= hi - lo + 1
    ensures var n := Min(hi - lo + 1, maxF);
            1 <= n && lo + n <= |a| && 0 <= lo + lag && lo + n + lag <= |b|
            && CandidateAt(a, b, lag, minF, maxF, sim)
               == Some(Candidate(lo, lo + n - 1, lag, Some(SumFrom(a, b, lag, lo, n) / n as real)))
  {
    hide FrameSimilarity, SimSeries, RunAt, LongestCommon;
    RunIsLongestCommon(a, b, minF, sim, lag, lo, hi);
    StretchOrder(a, b, sim, lag, lo, hi);
    var first, n := lo - Offset(lag), Min(hi - lo + 1, maxF);
    TotalIsSum(a, b, lag, lo, n);
    assert |SimSeries(a, b, lag)[first..first + n]| == n;
  }

  lemma OfferHasStretch(a: Frames, b: Frames, minF: int, maxF: int, sim: real, lag: int) returns (lo: nat, hi: nat)
    requires CandidateAt(a, b, lag, minF, maxF, sim).Some?
    ensures LongestCommon(a, b, sim, lag, lo, hi) && minF <= hi - lo + 1
  {
    hide FrameSimilarity, SimSeries, RunAt, LongestCommon;
    var run := RunAt(SimSeries(a, b, lag), minF, sim).value;
    lo, hi := run.lo + Offset(lag), run.hi + Offset(lag);
    RunIsLongestCommon(a, b, minF, sim, lag, lo, hi);
  }

  /** The same programme twice: the longest common stretch lasts five minutes at a mean similarity of 0.95. */
  lemma DuplicateInFrames(a: Frames, b: Frames, lag: int, minF: int, sim: real, rate: real)
    ensures DuplicateAt(a, b, lag, minF, sim, rate) <==>
            exists lo: nat, hi: nat ::
              LongestCommon(a, b, sim, lag, lo, hi) && minF <= hi - lo + 1
              && (hi - lo + 1) as real >= 300.0 * rate
              && SumFrom(a, b, lag, lo, hi - lo + 1) / (hi - lo + 1) as real >= 0.95
  {
    hide FrameSimilarity, SimSeries, RunAt, LongestCommon;
    var s := SimSeries(a, b, lag);
    if RunAt(s, minF, sim).Some? {
      var run := RunAt(s, minF, sim).value;
      var lo, hi := run.lo + Offset(lag), run.hi + Offset(lag);
      RunIsLongestCommon(a, b, minF, sim, lag, lo, hi);
      StretchOrder(a, b, sim, lag, lo, hi);
      TotalIsSum(a, b, lag, lo, hi - lo + 1);
      forall l: nat, h: nat | LongestCommon(a, b, sim, lag, l, h) && minF <= h - l + 1 ensures l == lo && h == hi {
        RunIsLongestCommon(a, b, minF, sim, lag, l, h);
      }
      assert |s[run.lo..run.hi + 1]| == hi - lo + 1;
    } else {
      forall l: nat, h: nat ensures !(LongestCommon(a, b, sim, lag, l, h) && minF <= h - l + 1) {
        RunIsLongestCommon(a, b, minF, sim, lag, l, h);
      }
    }
  }

  /** int() drops the fraction, towards zero. */
  lemma TruncTowardsZero(x: real)
    ensures 0.0 <= x ==> 0 <= Trunc(x) && Trunc(x) as real <= x < Trunc(x) as real + 1.0
    ensures x <= 0.0 ==> Trunc(x) <= 0 && Trunc(x) as real - 1.0 < x <= Trunc(x) as real
  {
  }

  /** The bounds in frames, with a length range that makes sense. */
  lemma FrameBounds(args: Args, rate: real)
    requires 0.0 < args.min <= args.max && 1.0 <= args.max * rate
    ensures MinFrames(args, rate) == (args.min * rate).Floor && MaxFrames(args, rate) == (args.max * rate).Floor
    ensures 0 <= MinFrames(args, rate) <= MaxFrames(args, rate) && 1 <= MaxFrames(args, rate)
  {
    assert 0.0 < rate by {
      if rate <= 0.0 {
        NonNegativeProduct(args.max, -rate);
      }
    }
    NonNegativeProduct(args.min, rate);
    NonNegativeProduct(args.max - args.min, rate);
    assert args.max * rate == args.min * rate + (args.max - args.min) * rate;
  }

  lemma NonNegativeProduct(x: real, y: real)
    requires 0.0 <= x && 0.0 <= y
    ensures 0.0 <= x * y
  {
  }

  /** The best there is, over frames and in the program's own units: a longest common stretch of its lag, cut off at
      the cap, that no scanned lag's longest stretch beats, be it in length or, as long, in mean similarity; and no
      earlier lag equals. */
  ghost predicate BestInFrames(a: Frames, b: Frames, sim: real, least: int, most: int, best: Option<Candidate>) {
    match best
    case None =>
      forall lag, lo: nat, hi: nat :: -(|b| - least) <= lag < |b| - least && Common(a, b, sim, lag, lo, hi) ==> hi - lo + 1 < least
    case Some(c) =>
      && -(|b| - least) <= c.lag < |b| - least
      && c.r0 <= c.r1 < |a| && 0 <= c.r0 + c.lag && c.r1 + c.lag < |b| && c.r1 - c.r0 + 1 <= most
      && c.mean == Some(SumFrom(a, b, c.lag, c.r0, c.r1 - c.r0 + 1) / (c.r1 - c.r0 + 1) as real)
      && (exists hi: nat :: LongestCommon(a, b, sim, c.lag, c.r0, hi) && least <= hi - c.r0 + 1
                            && c.r1 <= hi && (c.r1 < hi ==> c.r1 - c.r0 + 1 == most))
      && forall lag, lo: nat, hi: nat :: -(|b| - least) <= lag < |b| - least
                                         && LongestCommon(a, b, sim, lag, lo, hi) && least <= hi - lo + 1 ==>
           NotBetter(a, b, lag, lo, if hi - lo + 1 <= most then hi - lo + 1 else most, c)
  }

  /** `n` frames of another lag are fewer, or as many and no more similar; less similar, if the lag is earlier. */
  ghost predicate NotBetter(a: Frames, b: Frames, lag: int, lo: nat, n: int, c: Candidate) {
    n < c.r1 - c.r0 + 1
    || (&& n == c.r1 - c.r0 + 1 && 1 <= n && lo + n <= |a| && 0 <= lo + lag && lo + n + lag <= |b| && c.mean.Some?
        && SumFrom(a, b, lag, lo, n) / n as real <= c.mean.value
        && (lag < c.lag ==> SumFrom(a, b, lag, lo, n) / n as real < c.mean.value))
  }

  lemma StretchOrder(a: Frames, b: Frames, sim: real, lag: int, lo: nat, hi: nat)
    requires LongestCommon(a, b, sim, lag, lo, hi)
    ensures lo <= hi < |a| && 0 <= lo + lag && hi + lag < |b|
  {
  }

  lemma BestReads(a: Frames, b: Frames, sim: real, least: int, most: int, best: Option<Candidate>)
    requires 1 <= most && BestBelow(a, b, least, most, sim, best, |b| - least)
    ensures BestInFrames(a, b, sim, least, most, best)
  {
    hide FrameSimilarity, SimSeries, Common, CandidateAt, LongestCommon, SumFrom;
    if best.None? {
      forall lag, lo: nat, hi: nat | Scanned(b, least, lag) && Common(a, b, sim, lag, lo, hi) ensures hi - lo + 1 < least {
        if least <= hi - lo + 1 {
          CommonIsOffered(a, b, least, most, sim, lag, lo, hi);
        }
      }
    } else {
      var c := best.value;
      var lo, hi := OfferHasStretch(a, b, least, most, sim, c.lag);
      OfferInFrames(a, b, least, most, sim, c.lag, lo, hi);
      StretchOrder(a, b, sim, c.lag, lo, hi);
      forall lag, l: nat, h: nat | Scanned(b, least, lag) && LongestCommon(a, b, sim, lag, l, h) && least <= h - l + 1
        ensures NotBetter(a, b, lag, l, if h - l + 1 <= most then h - l + 1 else most, c)
      {
        OfferInFrames(a, b, least, most, sim, lag, l, h);
        StretchOrder(a, b, sim, lag, l, h);
      }
    }
  }

  /** An input against itself is one common stretch at lag 0, and a shorter one at any other. */
  lemma SelfCommon(a: Frames, sim: real, lag: int, lo: nat, hi: nat)
    requires a != [] && sim <= 1.0
    ensures Common(a, a, sim, 0, 0, |a| - 1)
    ensures lag != 0 && Common(a, a, sim, lag, lo, hi) ==> hi - lo + 1 < |a|
  {
    forall j | 0 <= j < |a| ensures FrameSimilarity(a[j], a[j]) >= sim {
      SimilarityIsEqualBits(a[j], a[j]);
    }
    hide FrameSimilarity;
    forall k | 0 <= k && k + 8 <= |a| - 1 ensures SimilarNear(a, a, sim, 0, k) {
      assert FrameSimilarity(a[k], a[k + 0]) >= sim;
    }
  }

  lemma {:induction false} SelfSum(a: Frames, n: nat)
    requires n <= |a|
    ensures SumFrom(a, a, 0, 0, n) == n as real
    decreases n
  {
    hide FrameSimilarity;
    if n > 0 {
      SelfSum(a, n - 1);
      SimilarityIsEqualBits(a[n - 1], a[n - 1]);
    }
  }

  lemma SelfLongest(a: Frames, sim: real)
    requires a != [] && sim <= 1.0
    ensures LongestCommon(a, a, sim, 0, 0, |a| - 1)
    ensures forall lag, lo: nat, hi: nat :: Common(a, a, sim, lag, lo, hi) && |a| <= hi - lo + 1 ==> lag == 0 && lo == 0
  {
    hide FrameSimilarity;
    SelfCommon(a, sim, 0, 0, 0);
    forall lag, lo: nat, hi: nat | Common(a, a, sim, lag, lo, hi)
      ensures hi - lo + 1 <= |a| && (|a| == hi - lo + 1 ==> lag == 0 && lo == 0)
    {
      SelfCommon(a, sim, lag, lo, hi);
    }
  }

  /** An input against itself: found whole, when the length range allows it. */
  lemma SelfFound(a: Frames, minF: int, maxF: int, sim: real, best: Option<Candidate>)
    requires a != [] && minF < |a| <= maxF && sim <= 1.0
    requires BestBelow(a, a, minF, maxF, sim, best, |a| - minF)
    ensures best == Some(Candidate(0, |a| - 1, 0, Some(1.0)))
  {
    hide FrameSimilarity, CandidateAt, Common, LongestCommon, SumFrom;
    SelfLongest(a, sim);
    StretchCommon(a, a, sim, 0, 0, |a| - 1);
    CommonIsOffered(a, a, minF, maxF, sim, 0, 0, |a| - 1);
    assert Scanned(a, minF, 0);
    var top := best.value;
    var lo, hi := OfferHasStretch(a, a, minF, maxF, sim, top.lag);
    StretchOrder(a, a, sim, top.lag, lo, hi);
    OfferInFrames(a, a, minF, maxF, sim, top.lag, lo, hi);
    StretchCommon(a, a, sim, top.lag, lo, hi);
    assert |a| <= hi - lo + 1;
    assert lo == 0 && top.lag == 0 && hi + 1 == |a|;
    SelfSum(a, |a|);
    assert SumFrom(a, a, 0, 0, |a|) / |a| as real == 1.0;
  }

  lemma StretchCommon(a: Frames, b: Frames, sim: real, lag: int, lo: nat, hi: nat)
    requires LongestCommon(a, b, sim, lag, lo, hi)
    ensures Common(a, b, sim, lag, lo, hi)
  {
  }

  lemma SelfDuplicate(a: Frames, minF: int, sim: real, rate: real)
    requires a != [] && minF < |a| && sim <= 1.0
    ensures (exists lag :: Scanned(a, minF, lag) && DuplicateAt(a, a, lag, minF, sim, rate)) <==> |a| as real >= 300.0 * rate
  {
    hide DuplicateAt, Common, LongestCommon, SumFrom;
    SelfLongest(a, sim);
    SelfSum(a, |a|);
    DuplicateInFrames(a, a, 0, minF, sim, rate);
    if |a| as real >= 300.0 * rate {
      assert SumFrom(a, a, 0, 0, |a|) / |a| as real == 1.0;
      assert Scanned(a, minF, 0) && DuplicateAt(a, a, 0, minF, sim, rate);
    }
    forall lag | DuplicateAt(a, a, lag, minF, sim, rate) ensures |a| as real >= 300.0 * rate {
      DuplicateInFrames(a, a, lag, minF, sim, rate);
      var lo: nat, hi: nat :| LongestCommon(a, a, sim, lag, lo, hi) && (hi - lo + 1) as real >= 300.0 * rate;
      StretchOrder(a, a, sim, lag, lo, hi);
    }
  }

  ghost predicate Spec(a: Frames, b: Frames, rate: real, args: Args, result: Search) {
    var minF, maxF := MinFrames(args, rate), MaxFrames(args, rate);
    && (result.Duplicate? <==> exists lag :: Scanned(b, minF, lag) && DuplicateAt(a, b, lag, minF, args.sim, rate))
    && (!result.Duplicate? ==> BestBelow(a, b, minF, maxF, args.sim, Found(result), |b| - minF))
  }

  function Found(result: Search): Option<Candidate>
    requires !result.Duplicate?
  {
    if result.NotFound? then None else Some(Candidate(result.r0, result.r1, result.lag, result.mean))
  }

  lemma SelfReads(a: Frames, rate: real, args: Args, result: Search)
    requires Spec(a, a, rate, args, result) && a != [] && args.sim <= 1.0
    requires args.min * rate < |a| as real <= args.max * rate
    ensures result == if |a| as real >= 300.0 * rate then Duplicate else Segment(0, |a| - 1, 0, Some(1.0))
  {
    hide BestBelow, DuplicateAt;
    TruncTowardsZero(args.min * rate);
    TruncTowardsZero(args.max * rate);
    SelfDuplicate(a, MinFrames(args, rate), args.sim, rate);
    if !result.Duplicate? {
      SelfFound(a, MinFrames(args, rate), MaxFrames(args, rate), args.sim, Found(result));
    }
  }

  method CapRun(s: seq<real>, run: Run, lag: int, maxF: int) returns (cand: Candidate)
    requires Fits(s, run)
    ensures cand == Capped(s, run, lag, maxF)
  {
    hide Mean;
    var aOff := if lag >= 0 then 0 else -lag;
    var r0, r1 := run.lo + aOff, run.hi + aOff;
    if r1 - r0 + 1 > maxF {
      r1 := r0 + maxF - 1;
    }
    return Candidate(r0, r1, lag, MeanOf(Slice(s, run.lo, run.lo + (r1 - r0) + 1)));
  }

  /** A result in the units the lengths are given in. */
  lemma SegmentReads(a: Frames, b: Frames, rate: real, args: Args, result: Search)
    requires Spec(a, b, rate, args, result) && !result.Duplicate?
    requires 0.0 < args.min <= args.max && 1.0 <= args.max * rate
    ensures var least, most := (args.min * rate).Floor, (args.max * rate).Floor;
            && BestInFrames(a, b, args.sim, least, most, Found(result))
            && (result.Segment? ==>
                  (result.r1 - result.r0 + 1) as real <= args.max * rate
                  && forall lag, lo: nat, hi: nat :: -(|b| - least) <= lag < |b| - least && Common(a, b, args.sim, lag, lo, hi) ==>
                       hi - lo + 1 <= result.r1 - result.r0 + 1 || most == result.r1 - result.r0 + 1)
  {
    FrameBounds(args, rate);
    hide MinFrames, MaxFrames, CandidateAt, Common, LongestCommon, SumFrom, BestBelow, DuplicateAt, NotBetter;
    var least, most := (args.min * rate).Floor, (args.max * rate).Floor;
    BestReads(a, b, args.sim, least, most, Found(result));
    if result.Segment? {
      forall lag, lo: nat, hi: nat | Scanned(b, least, lag) && Common(a, b, args.sim, lag, lo, hi)
        ensures hi - lo + 1 <= result.r1 - result.r0 + 1 || most == result.r1 - result.r0 + 1
      {
        if least <= hi - lo + 1 {
          LongerStays(a, b, least, most, args.sim, Found(result).value, lag, lo, hi);
        }
      }
    }
  }

  lemma LongerStays(a: Frames, b: Frames, least: int, most: int, sim: real, c: Candidate, lag: int, lo: nat, hi: nat)
    requires BestBelow(a, b, least, most, sim, Some(c), |b| - least) && c.r1 - c.r0 + 1 <= most
    requires Scanned(b, least, lag) && Common(a, b, sim, lag, lo, hi) && least <= hi - lo + 1
    ensures hi - lo + 1 <= c.r1 - c.r0 + 1 || most == c.r1 - c.r0 + 1
  {
    hide CandidateAt, Common;
    CommonIsOffered(a, b, least, most, sim, lag, lo, hi);
  }

  lemma SpecHolds(a: Frames, b: Frames, rate: real, args: Args, result: Search)
    requires result.Duplicate? <==> exists lag :: Scanned(b, MinFrames(args, rate), lag)
                                                 && DuplicateAt(a, b, lag, MinFrames(args, rate), args.sim, rate)
    requires !result.Duplicate? ==> BestBelow(a, b, MinFrames(args, rate), MaxFrames(args, rate), args.sim, Found(result),
                                              |b| - MinFrames(args, rate))
    ensures Spec(a, b, rate, args, result)
  {
  }

  lemma DuplicateReads(a: Frames, b: Frames, rate: real, args: Args, result: Search)
    requires Spec(a, b, rate, args, result)
    ensures result.Duplicate? <==>
            exists lag, lo: nat, hi: nat ::
              -(|b| - MinFrames(args, rate)) <= lag < |b| - MinFrames(args, rate)
              && LongestCommon(a, b, args.sim, lag, lo, hi) && MinFrames(args, rate) <= hi - lo + 1
              && (hi - lo + 1) as real >= 300.0 * rate
              && SumFrom(a, b, lag, lo, hi - lo + 1) / (hi - lo + 1) as real >= 0.95
  {
    hide SumFrom, DuplicateAt, BestBelow, MinFrames, MaxFrames, SimilarNear, FrameSimilarity;
    var minF := MinFrames(args, rate);
    if result.Duplicate? {
      var lag :| Scanned(b, minF, lag) && DuplicateAt(a, b, lag, minF, args.sim, rate);
      DuplicateInFrames(a, b, lag, minF, args.sim, rate);
      var lo: nat, hi: nat :| LongestCommon(a, b, args.sim, lag, lo, hi) && minF <= hi - lo + 1
                              && (hi - lo + 1) as real >= 300.0 * rate
                              && SumFrom(a, b, lag, lo, hi - lo + 1) / (hi - lo + 1) as real >= 0.95;
    }
    forall lag, lo: nat, hi: nat | Scanned(b, minF, lag) && LongestCommon(a, b, args.sim, lag, lo, hi) && minF <= hi - lo + 1
                                   && (hi - lo + 1) as real >= 300.0 * rate
                                   && SumFrom(a, b, lag, lo, hi - lo + 1) / (hi - lo + 1) as real >= 0.95
      ensures result.Duplicate?
    {
      DuplicateInFrames(a, b, lag, minF, args.sim, rate);
    }
  }

  lemma NothingScanned(a: Frames, b: Frames, rate: real, args: Args, result: Search)
    requires Spec(a, b, rate, args, result) && |b| as real <= args.min * rate
    ensures result == NotFound
  {
    hide DuplicateAt, CandidateAt, Beats;
    var minF := MinFrames(args, rate);
    assert |b| <= minF by {
      TruncTowardsZero(args.min * rate);
      assert (minF + 1) as real == minF as real + 1.0;
    }
    assert forall lag :: !Scanned(b, minF, lag);
  }

  /** "duplicate" exactly when some scanned lag shows one; otherwise the best over all scanned lags, the first of
      equals.  An input against itself is found whole, is a duplicate from five minutes on, and is not found at all
      if it is no longer than the least length asked for. */
  method BestCommonSegment(a: Frames, b: Frames, rate: real, args: Args) returns (result: Search)
    ensures Spec(a, b, rate, args, result)
    ensures result.Duplicate? <==>
            exists lag, lo: nat, hi: nat ::
              -(|b| - MinFrames(args, rate)) <= lag < |b| - MinFrames(args, rate)
              && LongestCommon(a, b, args.sim, lag, lo, hi) && MinFrames(args, rate) <= hi - lo + 1
              && (hi - lo + 1) as real >= 300.0 * rate
              && SumFrom(a, b, lag, lo, hi - lo + 1) / (hi - lo + 1) as real >= 0.95
    ensures 0.0 < args.min <= args.max && 1.0 <= args.max * rate && !result.Duplicate? ==>
              BestInFrames(a, b, args.sim, (args.min * rate).Floor, (args.max * rate).Floor, Found(result))
    ensures 0.0 < args.min <= args.max && 1.0 <= args.max * rate && result.Segment? ==>
              && (result.r1 - result.r0 + 1) as real <= args.max * rate
              && (result.r1 - result.r0 + 1 < (args.max * rate).Floor ==>
                    forall lag, lo: nat, hi: nat :: -(|b| - (args.min * rate).Floor) <= lag < |b| - (args.min * rate).Floor
                                                    && Common(a, b, args.sim, lag, lo, hi) ==>
                      hi - lo + 1 <= result.r1 - result.r0 + 1)
    ensures a == b && a != [] && args.sim <= 1.0 && args.min * rate < |a| as real <= args.max * rate ==>
              result == if |a| as real >= 300.0 * rate then Duplicate else Segment(0, |a| - 1, 0, Some(1.0))
    ensures |b| as real <= args.min * rate ==> result == NotFound
    ensures result.Segment? ==>
              && result.r0 < |a| && result.r1 < |a| && 0 <= result.r0 + result.lag && result.r1 + result.lag < |b|
              && result.r1 - result.r0 + 1 <= MaxFrames(args, rate)
              && (1 <= MaxFrames(args, rate) ==> result.r0 <= result.r1 && result.mean.Some?)
  {
    hide SimSeries, RunOf, Capped, Beats, Hits, FrameSimilarity, DuplicateRun, MinFrames, MaxFrames, Common, LongestCommon,
      BestInFrames, SumFrom, Spec;
    var minF, maxF := MinFrames(args, rate), MaxFrames(args, rate);
    var best: Option<Candidate> := None;
    result := NotFound;
    var lag := -(|b| - minF);
    while lag < |b| - minF
      invariant lag >= -(|b| - minF) && (lag <= |b| - minF || best.None?) && result.NotFound?
      invariant forall l :: Scanned(b, minF, l) && l < lag ==> !DuplicateAt(a, b, l, minF, args.sim, rate)
      invariant BestBelow(a, b, minF, maxF, args.sim, best, lag)
      decreases |b| - minF - lag
    {
      var s := SimSeries(a, b, lag);
      BestStep(a, b, minF, maxF, args.sim, best, lag);
      hide BestBelow;
      if |s| >= minF {
        var run := LongestRun(Hits(s, args.sim), minF);
        if run.Some? {
          assert RunAt(s, minF, args.sim) == run;
          if DuplicateRun(s, run.value, rate) {
            assert DuplicateAt(a, b, lag, minF, args.sim, rate);
            result := Duplicate;
            break;
          }
          var cand := CapRun(s, run.value, lag, maxF);
          assert CandidateAt(a, b, lag, minF, maxF, args.sim) == Some(cand);
          if best.None? || Beats(cand, best.value) {
            best := Some(cand);
          }
        }
      }
      lag := lag + 1;
    }
    if !result.Duplicate? && best.Some? {
      CandidateFits(a, b, best.value.lag, minF, maxF, args.sim);
      result := Segment(best.value.r0, best.value.r1, best.value.lag, best.value.mean);
    }
    SpecHolds(a, b, rate, args, result);
    DuplicateReads(a, b, rate, args, result);
    if a == b && a != [] && args.sim <= 1.0 && args.min * rate < |a| as real <= args.max * rate {
      SelfReads(a, rate, args, result);
    }
    if 0.0 < args.min <= args.max && 1.0 <= args.max * rate && !result.Duplicate? {
      SegmentReads(a, b, rate, args, result);
    }
    if |b| as real <= args.min * rate {
      NothingScanned(a, b, rate, args, result);
    }
  }

  // ----- a common segment the scan does not see -----

  lemma OneFrame(s: seq<real>, sim: real)
    requires |s| == 1
    ensures RunAt(s, 1, sim) == if s[0] >= sim then Some(Run(0, 0)) else None
  {
    var hits := Hits(s, sim);
    if hits[0] {
      OneHit(hits, 0);
      assert LongestInterval(hits, Run(0, 0));
      Determined(hits, Run(0, 0), 1);
    } else {
      NothingSettled(hits);
      SkipMiss(hits, None, 0);
      AllSettled(hits, None, 1);
    }
  }

  /** The only frame of `a` is the last one of `b`: no scanned lag offers anything, and the lag left out offers it. */
  lemma LastAlignmentIsMissed(f: Frame, g: Frame)
    requires f != g
    ensures BestBelow([f], [g, f], 1, 1, 1.0, None, |[g, f]| - 1)
    ensures CandidateAt([f], [g, f], 1, 1, 1, 1.0) == Some(Candidate(0, 0, 1, Some(1.0)))
  {
    hide FrameSimilarity, RunOf, SimSeries;
    var a, b := [f], [g, f];
    SimilarityIsEqualBits(f, g);
    SimilarityIsEqualBits(f, f);
    forall lag | Scanned(b, 1, lag) ensures CandidateAt(a, b, lag, 1, 1, 1.0).None? {
      if lag == 0 {
        SimSeriesAt(a, b, 0, 0);
        OneFrame(SimSeries(a, b, 0), 1.0);
      }
    }
    var s := SimSeries(a, b, 1);
    SimSeriesAt(a, b, 1, 0);
    OneFrame(s, 1.0);
    assert s[0..1] == s == [1.0];
    assert Total(s) == 1.0;
  }
}
