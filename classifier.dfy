/** The lock-state classifier, re-evaluated once per measurement window from
    the drained snapshot, the current time and the HD-detect input. */
module Classifier {
  import opened MachineWords
  import opened VsyncStats

  /** kNoLockTimeoutUs: without an edge for this long there is no lock. */
  const NO_LOCK_TIMEOUT_US: u32 := 250000

  const NO_LOCK: string := "NO LOCK"
  const TRI_LEVEL: string := "TRI-LEVEL"
  const BI_LEVEL: string := "BI-LEVEL"

  /** The lock test: an edge has been recorded (0 is the "never" sentinel)
      and the time since it, on uint32_t, is strictly below the timeout. */
  predicate Locked(lastEdgeUs: u32, nowUs: u32)
    ensures lastEdgeUs == 0 ==> !Locked(lastEdgeUs, nowUs)
    ensures lastEdgeUs != 0 && lastEdgeUs <= nowUs ==>
      (Locked(lastEdgeUs, nowUs) <==> nowUs - lastEdgeUs < NO_LOCK_TIMEOUT_US)
    ensures lastEdgeUs != 0 && nowUs < lastEdgeUs ==>
      (Locked(lastEdgeUs, nowUs) <==> nowUs + TWO_32 - lastEdgeUs < NO_LOCK_TIMEOUT_US)
  {
    lastEdgeUs != 0 && Sub32(nowUs, lastEdgeUs) < NO_LOCK_TIMEOUT_US
  }

  /** Read against true times, the lock test holds exactly when the last
      edge is less than the timeout old, across wrap-arounds of `micros()`. */
  lemma LockedIffRecent(lastT: nat, nowT: nat)
    requires lastT <= nowT < lastT + TWO_32
    requires lastT % TWO_32 != 0
    ensures Locked(lastT % TWO_32, nowT % TWO_32) <==> nowT - lastT < NO_LOCK_TIMEOUT_US
  {
    WrappedElapsed(lastT, nowT);
  }

  /** The timeout is strict: an edge 249999 us old still holds the lock, one
      exactly 250000 us old does not, wherever the counter stands. */
  lemma TimeoutBoundary(lastEdgeUs: u32)
    requires lastEdgeUs != 0
    ensures Locked(lastEdgeUs, Add32(lastEdgeUs, NO_LOCK_TIMEOUT_US - 1))
    ensures !Locked(lastEdgeUs, Add32(lastEdgeUs, NO_LOCK_TIMEOUT_US))
  {
  }

  /** An edge recorded after the foreground read its time stamp (the time is
      read before the critical section) looks almost 2^32 us old, so the
      window reads as unlocked. */
  lemma EdgeAfterTimestampReadsUnlocked(nowUs: u32, delta: nat)
    requires 0 < delta <= TWO_32 - NO_LOCK_TIMEOUT_US
    ensures !Locked(Add32(nowUs, delta), nowUs)
  {
  }

  /** `triLevelDetected`: HD_DET reads LOW for tri-level sync; `hdDetHigh`
      is the level read from the pin. */
  predicate TriLevelDetected(hdDetHigh: bool)
    ensures TriLevelDetected(hdDetHigh) <==> hdDetHigh == false
  {
    !hdDetHigh
  }

  /** The label rule: NO LOCK unless locked with a frame rate of at least
      1.0, otherwise the sync format given by the HD-detect input. */
  function SyncLabel(locked: bool, fpsBelowOne: bool, hdDetHigh: bool): (name: string)
    ensures name == NO_LOCK <==> !locked || fpsBelowOne
    ensures name == TRI_LEVEL <==> locked && !fpsBelowOne && !hdDetHigh
    ensures name == BI_LEVEL <==> locked && !fpsBelowOne && hdDetHigh
  {
    if !locked || fpsBelowOne then NO_LOCK
    else if TriLevelDetected(hdDetHigh) then TRI_LEVEL
    else BI_LEVEL
  }

  /** What the model uses of the floating-point frame rate `(float)(1e6 /
      ((double)sumP / count))` of a window with samples: whether it is below
      1.0f and its "%.3f" rendering. */
  datatype FpsReading = FpsReading(belowOne: bool, text: string)

  /** The rate of a window without samples: fps stays 0.0. */
  const ZERO_FPS: FpsReading := FpsReading(true, "0.000")

  /** The outcome of one measurement window: the integer fields of the
      diagnostic line (valid-period count, label, HD_DET level, peak-to-peak
      jitter) and the rendered frame rate kept for the display. */
  datatype WindowReport = WindowReport(frames: u32, syncLabel: string, hdDetHigh: bool, ppJitterUs: u32, fpsText: string)

  /** Post-processing of a drained snapshot at time `nowUs`. `fpsOf` gives
      the floating-point rate of a (sum, count) pair with samples. */
  function Evaluate(snap: Snapshot, nowUs: u32, hdDetHigh: bool, fpsOf: (u64, u32) -> FpsReading): (r: WindowReport)
    ensures r.frames == snap.count && r.hdDetHigh == hdDetHigh && r.ppJitterUs == PeakToPeak(snap)
    ensures r.syncLabel == NO_LOCK <==>
      !Locked(snap.lastEdgeUs, nowUs) || !HasSamples(snap) || fpsOf(snap.sumP, snap.count).belowOne
    ensures r.syncLabel != NO_LOCK ==> r.syncLabel == (if hdDetHigh then BI_LEVEL else TRI_LEVEL)
    ensures r.fpsText == (if HasSamples(snap) then fpsOf(snap.sumP, snap.count).text else ZERO_FPS.text)
  {
    var fps := if HasSamples(snap) then fpsOf(snap.sumP, snap.count) else ZERO_FPS;
    WindowReport(snap.count, SyncLabel(Locked(snap.lastEdgeUs, nowUs), fps.belowOne, hdDetHigh),
                 hdDetHigh, PeakToPeak(snap), fps.text)
  }

  /** A window in which no period was accepted (no edges, or a single edge
      with nothing to compare it with) is reported as NO LOCK with zero
      frames and zero jitter, whatever the other inputs. */
  lemma EmptyWindowIsNoLock(lastEdgeUs: u32, nowUs: u32, hdDetHigh: bool, fpsOf: (u64, u32) -> FpsReading)
    ensures var r := Evaluate(SnapshotOf(Fold([]), lastEdgeUs), nowUs, hdDetHigh, fpsOf);
      r.syncLabel == NO_LOCK && r.frames == 0 && r.ppJitterUs == 0
  {
  }

  /** A window of valid periods drained while the last edge is recent and
      the frame rate is at least 1.0 is labelled by the HD-detect input
      alone: TRI-LEVEL when it reads LOW, BI-LEVEL when HIGH; it reports
      the exact number of periods. */
  lemma SteadySignalLocks(w: seq<u32>, lastEdgeUs: u32, nowUs: u32, hdDetHigh: bool, fpsOf: (u64, u32) -> FpsReading)
    requires AllValid(w) && 0 < |w| < TWO_32
    requires Locked(lastEdgeUs, nowUs)
    requires !fpsOf(Sum(w) % TWO_64, |w|).belowOne
    ensures var r := Evaluate(SnapshotOf(Fold(w), lastEdgeUs), nowUs, hdDetHigh, fpsOf);
      r.frames == |w| && r.syncLabel == (if hdDetHigh then BI_LEVEL else TRI_LEVEL)
  {
    PeakToPeakIsSpread(w, lastEdgeUs);
    FoldIsSummary(w);
    ExactTotals(w);
  }
}
