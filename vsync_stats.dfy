/** Edge capture and the measurement window: the accumulators that `vsyncISR`
    updates on every rising VSYNC edge, the atomic drain that `loop` performs
    once per window, and the integer statistics derived from the drained
    snapshot. */
module VsyncStats {
  import opened MachineWords

  /** kMinValidFramePeriodUs: shorter periods are noise, not frames. */
  const MIN_VALID_FRAME_PERIOD_US: u32 := 5000

  /** The five window accumulators: vsyncCount, sumPeriodsUs,
      sumSqPeriodsUs2, minPeriodUs and maxPeriodUs. */
  datatype Totals = Totals(count: u32, sum: u64, sumSq: u64, minP: u32, maxP: u32)

  /** The accumulators at start-up and after every drain; the minimum starts
      at the sentinel 0xFFFFFFFF. */
  const EMPTY: Totals := Totals(0, 0, 0, U32_MAX, 0)

  /** Whether an edge at `now` following the recorded edge `prev` yields a
      period that enters the window: a previous edge exists (`prev != 0`) and
      the wrapped difference is at least the minimum frame period. */
  predicate Qualifies(prev: u32, now: u32)
    ensures prev == 0 ==> !Qualifies(prev, now)
    ensures prev != 0 && prev <= now ==>
      (Qualifies(prev, now) <==> now - prev >= MIN_VALID_FRAME_PERIOD_US)
    ensures prev != 0 && now < prev ==>
      (Qualifies(prev, now) <==> now + TWO_32 - prev >= MIN_VALID_FRAME_PERIOD_US)
  {
    prev != 0 && Sub32(now, prev) >= MIN_VALID_FRAME_PERIOD_US
  }

  /** Folding one accepted period into the accumulators, with the count
      wrapping at 2^32 and both sums at 2^64. The square is taken on
      uint64_t and cannot overflow. */
  function Accept(t: Totals, p: u32): (r: Totals)
    ensures r.minP <= p && r.minP <= t.minP && (r.minP == p || r.minP == t.minP)
    ensures p <= r.maxP && t.maxP <= r.maxP && (r.maxP == p || r.maxP == t.maxP)
    ensures t.count < U32_MAX ==> r.count == t.count + 1
    ensures t.sum + p < TWO_64 ==> r.sum == t.sum + p
    ensures t.sumSq + Square(p) < TWO_64 ==> r.sumSq == t.sumSq + Square(p)
  {
    Totals((t.count + 1) % TWO_32,
           (t.sum + p) % TWO_64,
           (t.sumSq + Square(p)) % TWO_64,
           if p < t.minP then p else t.minP,
           if p > t.maxP then p else t.maxP)
  }

  /** The accumulators after accepting the periods of `w` in order, starting
      from EMPTY: what the interrupt handler computes incrementally. */
  function Fold(w: seq<u32>): Totals
  {
    if w == [] then EMPTY else Accept(Fold(w[..|w| - 1]), w[|w| - 1])
  }

  // Reference definitions over the accepted periods of a window.

  function Sum(w: seq<u32>): nat
  {
    if w == [] then 0 else Sum(w[..|w| - 1]) + w[|w| - 1]
  }

  function SumSq(w: seq<u32>): nat
  {
    if w == [] then 0 else SumSq(w[..|w| - 1]) + Square(w[|w| - 1])
  }

  function Square(p: u32): nat
  {
    (p as nat) * (p as nat)
  }

  function Min(w: seq<u32>): u32
    requires w != []
  {
    if |w| == 1 then w[0]
    else var m := Min(w[..|w| - 1]); if w[|w| - 1] < m then w[|w| - 1] else m
  }

  function Max(w: seq<u32>): u32
    requires w != []
  {
    if |w| == 1 then w[0]
    else var m := Max(w[..|w| - 1]); if w[|w| - 1] > m then w[|w| - 1] else m
  }

  /** The accumulators described directly by the window they summarise:
      count and sums modulo their widths, the sentinels when it is empty. */
  function Summary(w: seq<u32>): Totals
  {
    Totals(|w| % TWO_32, Sum(w) % TWO_64, SumSq(w) % TWO_64,
           if w == [] then U32_MAX else Min(w),
           if w == [] then 0 else Max(w))
  }

  predicate AllValid(w: seq<u32>)
  {
    forall i :: 0 <= i < |w| ==> MIN_VALID_FRAME_PERIOD_US <= w[i]
  }

  lemma AllValidExtends(w: seq<u32>, p: u32)
    requires AllValid(w) && MIN_VALID_FRAME_PERIOD_US <= p
    ensures AllValid(w + [p])
  {
  }

  lemma {:induction false} MinIsLeast(w: seq<u32>)
    requires w != []
    ensures forall i :: 0 <= i < |w| ==> Min(w) <= w[i]
    ensures exists i :: 0 <= i < |w| && w[i] == Min(w)
  {
    if |w| > 1 {
      var u := w[..|w| - 1];
      MinIsLeast(u);
      var j :| 0 <= j < |u| && u[j] == Min(u);
      if w[|w| - 1] < Min(u) {
        assert w[|w| - 1] == Min(w);
      } else {
        assert w[j] == Min(w);
      }
    } else {
      assert w[0] == Min(w);
    }
  }

  lemma {:induction false} MaxIsGreatest(w: seq<u32>)
    requires w != []
    ensures forall i :: 0 <= i < |w| ==> w[i] <= Max(w)
    ensures exists i :: 0 <= i < |w| && w[i] == Max(w)
  {
    if |w| > 1 {
      var u := w[..|w| - 1];
      MaxIsGreatest(u);
      var j :| 0 <= j < |u| && u[j] == Max(u);
      if w[|w| - 1] > Max(u) {
        assert w[|w| - 1] == Max(w);
      } else {
        assert w[j] == Max(w);
      }
    } else {
      assert w[0] == Max(w);
    }
  }

  lemma ModAdd32(a: nat, b: nat)
    ensures (a % TWO_32 + b) % TWO_32 == (a + b) % TWO_32
  {
  }

  lemma ModAdd64(a: nat, b: nat)
    ensures (a % TWO_64 + b) % TWO_64 == (a + b) % TWO_64
  {
  }

  /** One step of the interrupt handler's fold agrees with the closed-form
      summary of the window extended by the accepted period. */
  lemma AcceptExtendsSummary(w: seq<u32>, p: u32)
    ensures Accept(Summary(w), p) == Summary(w + [p])
  {
    var v := w + [p];
    assert v[..|v| - 1] == w;
    ModAdd32(|w|, 1);
    ModAdd64(Sum(w), p);
    ModAdd64(SumSq(w), Square(p));
  }

  /** The incremental fold of the interrupt handler computes exactly the
      summary of the accepted periods. */
  lemma {:induction false} FoldIsSummary(w: seq<u32>)
    ensures Fold(w) == Summary(w)
  {
    if w != [] {
      var u := w[..|w| - 1];
      FoldIsSummary(u);
      assert u + [w[|w| - 1]] == w;
      AcceptExtendsSummary(u, w[|w| - 1]);
    }
  }

  /** While the window holds at least one period, the minimum is a valid
      frame period, the minimum does not exceed the maximum, and every
      accepted period lies between them. */
  lemma WindowBounds(w: seq<u32>)
    requires AllValid(w)
    requires Summary(w).count >= 1
    ensures MIN_VALID_FRAME_PERIOD_US <= Summary(w).minP <= Summary(w).maxP
    ensures forall i :: 0 <= i < |w| ==> Summary(w).minP <= w[i] <= Summary(w).maxP
  {
    assert w != [];
    MinIsLeast(w);
    MaxIsGreatest(w);
  }

  lemma MulSucc(n: nat, b: nat)
    ensures (n + 1) * b == n * b + b
  {
  }

  lemma MulMono(a: nat, b: nat, c: nat)
    requires a <= b
    ensures a * c <= b * c
  {
  }

  lemma {:induction false} SumBound(w: seq<u32>, bound: nat)
    requires forall i :: 0 <= i < |w| ==> w[i] <= bound
    ensures Sum(w) <= |w| * bound
  {
    if w != [] {
      SumBound(w[..|w| - 1], bound);
      MulSucc(|w| - 1, bound);
    }
  }

  lemma {:induction false} SumSqBound(w: seq<u32>, bound: nat)
    requires forall i :: 0 <= i < |w| ==> w[i] <= bound
    ensures SumSq(w) <= |w| * (bound * bound)
  {
    if w != [] {
      SumSqBound(w[..|w| - 1], bound);
      MulSucc(|w| - 1, bound * bound);
      var p: nat := w[|w| - 1];
      MulMono(p, bound, p);
      MulMono(p, bound, bound);
    }
  }

  lemma SumPositive(w: seq<u32>)
    requires AllValid(w) && w != []
    ensures Sum(w) >= MIN_VALID_FRAME_PERIOD_US
  {
  }

  /** With fewer than 2^32 periods in the window neither the count nor the
      sum of periods wraps; the sum of squares is exact as long as the
      window's length times the square of its largest period stays below
      2^64. */
  lemma ExactTotals(w: seq<u32>)
    requires |w| < TWO_32
    ensures Summary(w).count == |w|
    ensures Summary(w).sum == Sum(w)
    ensures w != [] && |w| * (Max(w) * Max(w)) < TWO_64 ==> Summary(w).sumSq == SumSq(w)
  {
    SumBound(w, U32_MAX);
    assert |w| * U32_MAX < TWO_64 by {
      MulMono(|w|, U32_MAX, U32_MAX);
    }
    if w != [] {
      MaxIsGreatest(w);
      SumSqBound(w, Max(w));
    }
  }

  /** The foreground's copy of the accumulators, taken inside the critical
      section: the minimum sentinel is reported as 0; `lastEdgeUs` is the
      time of the most recent edge. */
  datatype Snapshot = Snapshot(count: u32, sumP: u64, sumSqP: u64, minP: u32, maxP: u32, lastEdgeUs: u32)

  function SnapshotOf(t: Totals, lastEdgeUs: u32): (s: Snapshot)
    ensures s.count == t.count && s.sumP == t.sum && s.sumSqP == t.sumSq && s.maxP == t.maxP
    ensures s.lastEdgeUs == lastEdgeUs
    ensures t.minP != U32_MAX ==> s.minP == t.minP
    ensures s.minP == 0 <==> t.minP == U32_MAX || t.minP == 0
  {
    Snapshot(t.count, t.sum, t.sumSq, if t.minP == U32_MAX then 0 else t.minP, t.maxP, lastEdgeUs)
  }

  /** Whether the derived statistics are computed at all (`count >= 1 &&
      sumP > 0`); otherwise they stay zero. */
  predicate HasSamples(s: Snapshot)
    ensures HasSamples(s) ==> s.count > 0 && s.sumP > 0
    ensures s.count == 0 || s.sumP == 0 ==> !HasSamples(s)
  {
    s.count >= 1 && s.sumP > 0
  }

  /** Peak-to-peak jitter: max - min when the window has samples and both
      extremes are populated and ordered, 0 otherwise; it never underflows. */
  function PeakToPeak(s: Snapshot): (r: u32)
    ensures r <= s.maxP
    ensures HasSamples(s) && 0 < s.minP <= s.maxP ==> r + s.minP == s.maxP
    ensures !(HasSamples(s) && 0 < s.minP <= s.maxP) ==> r == 0
  {
    if HasSamples(s) && s.minP > 0 && s.maxP >= s.minP then s.maxP - s.minP else 0
  }

  /** Draining a window with no accepted period reports zero count, sums,
      minimum and maximum, so a second drain with no edge in between yields
      an empty snapshot. */
  lemma DrainEmptyWindow(lastEdgeUs: u32)
    ensures SnapshotOf(Summary([]), lastEdgeUs) == Snapshot(0, 0, 0, 0, 0, lastEdgeUs)
    ensures !HasSamples(SnapshotOf(Summary([]), lastEdgeUs))
    ensures PeakToPeak(SnapshotOf(Summary([]), lastEdgeUs)) == 0
  {
  }

  /** End to end: accumulating a window of valid periods edge by edge and
      draining it gives a peak-to-peak jitter equal to the spread of the
      window. This holds even when every period equals the sentinel
      0xFFFFFFFF and the minimum is reported as 0. */
  lemma PeakToPeakIsSpread(w: seq<u32>, lastEdgeUs: u32)
    requires AllValid(w)
    requires 0 < |w| < TWO_32
    ensures HasSamples(SnapshotOf(Fold(w), lastEdgeUs))
    ensures PeakToPeak(SnapshotOf(Fold(w), lastEdgeUs)) == Max(w) - Min(w)
  {
    FoldIsSummary(w);
    ExactTotals(w);
    SumPositive(w);
    MinIsLeast(w);
    MaxIsGreatest(w);
    if Min(w) == U32_MAX {
      var j :| 0 <= j < |w| && w[j] == Max(w);
      assert Max(w) == U32_MAX;
    }
  }

  lemma {:induction false} AlternatingMinMax(w: seq<u32>)
    requires |w| >= 2
    requires forall i :: 0 <= i < |w| ==> w[i] == (if i % 2 == 0 then w[0] else w[1])
    requires {w[0], w[1]} == {16667, 16670}
    ensures Min(w) == 16667 && Max(w) == 16670
  {
    if |w| > 2 {
      var u := w[..|w| - 1];
      assert u[0] == w[0] && u[1] == w[1];
      AlternatingMinMax(u);
    }
  }

  /** A window of periods alternating 16667 and 16670 microseconds
      (starting with either), accumulated and drained, has a peak-to-peak
      jitter of 3. */
  lemma AlternatingSpread(w: seq<u32>, lastEdgeUs: u32)
    requires 2 <= |w| < TWO_32
    requires forall i :: 0 <= i < |w| ==> w[i] == (if i % 2 == 0 then w[0] else w[1])
    requires {w[0], w[1]} == {16667, 16670}
    ensures Min(w) == 16667 && Max(w) == 16670
    ensures PeakToPeak(SnapshotOf(Fold(w), lastEdgeUs)) == 3
  {
    AlternatingMinMax(w);
    assert w[0] in {16667, 16670} && w[1] in {16667, 16670};
    assert AllValid(w);
    PeakToPeakIsSpread(w, lastEdgeUs);
  }

  /** The shared statistics of the sketch: the time of the last edge and the
      five window accumulators, updated by the edge interrupt and drained by
      the foreground. */
  class Accumulator {
    var lastVsyncMicros: u32
    var vsyncCount: u32
    var sumPeriodsUs: u64
    var sumSqPeriodsUs2: u64
    var minPeriodUs: u32
    var maxPeriodUs: u32
    /** The periods accepted since the last drain, oldest first. */
    ghost var window: seq<u32>

    function Current(): Totals
      reads this
    {
      Totals(vsyncCount, sumPeriodsUs, sumSqPeriodsUs2, minPeriodUs, maxPeriodUs)
    }

    /** Every accepted period is a valid frame period, and the accumulators
        are the summary of the accepted periods. */
    ghost predicate Valid()
      reads this
    {
      AllValid(window) && Current() == Summary(window)
    }

    /** The power-on state: no edge seen, empty window. */
    constructor ()
      ensures Valid()
      ensures lastVsyncMicros == 0 && window == [] && Current() == EMPTY
    {
      lastVsyncMicros := 0;
      vsyncCount, sumPeriodsUs, sumSqPeriodsUs2 := 0, 0, 0;
      minPeriodUs, maxPeriodUs := U32_MAX, 0;
      window := [];
    }

    /** `vsyncISR` for a rising edge at time `now` (the value of `micros()`).
        The edge time is always recorded; the period enters the window only
        when there was a previous edge and it is a valid frame period. */
    method OnEdge(now: u32)
      requires Valid()
      modifies this
      ensures Valid()
      ensures lastVsyncMicros == now
      ensures Qualifies(old(lastVsyncMicros), now) ==>
        var p := Sub32(now, old(lastVsyncMicros));
        window == old(window) + [p] && Current() == Accept(old(Current()), p)
      ensures !Qualifies(old(lastVsyncMicros), now) ==>
        window == old(window) && Current() == old(Current())
    {
      var prev := lastVsyncMicros;
      lastVsyncMicros := now;
      if prev != 0 {
        var period := Sub32(now, prev);
        if period >= MIN_VALID_FRAME_PERIOD_US {
          ghost var after := Accept(Current(), period);
          vsyncCount := (vsyncCount + 1) % TWO_32;
          assert vsyncCount == after.count;
          sumPeriodsUs := (sumPeriodsUs + period) % TWO_64;
          assert sumPeriodsUs == after.sum;
          sumSqPeriodsUs2 := (sumSqPeriodsUs2 + Square(period)) % TWO_64;
          assert sumSqPeriodsUs2 == after.sumSq;
          if period < minPeriodUs {
            minPeriodUs := period;
          }
          if period > maxPeriodUs {
            maxPeriodUs := period;
          }
          assert Current() == after;
          AcceptExtendsSummary(window, period);
          AllValidExtends(window, period);
          window := window + [period];
        }
      }
    }

    /** The foreground's snapshot-and-reset of the window, performed with
        the edge interrupt masked and so taken here as one atomic step. The
        edge time is read but not reset. */
    method Drain() returns (snap: Snapshot)
      requires Valid()
      modifies this
      ensures Valid()
      ensures snap == SnapshotOf(old(Current()), old(lastVsyncMicros))
      ensures window == [] && Current() == EMPTY
      ensures lastVsyncMicros == old(lastVsyncMicros)
      ensures old(window) == [] ==> snap.count == 0 && snap.minP == 0 && snap.maxP == 0
    {
      snap := Snapshot(vsyncCount, sumPeriodsUs, sumSqPeriodsUs2,
                       if minPeriodUs == U32_MAX then 0 else minPeriodUs,
                       maxPeriodUs, lastVsyncMicros);
      vsyncCount := 0;
      sumPeriodsUs := 0;
      sumSqPeriodsUs2 := 0;
      minPeriodUs := U32_MAX;
      maxPeriodUs := 0;
      window := [];
    }
  }
}
