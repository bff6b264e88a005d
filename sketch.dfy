/** The sketch's `loop`: a measurement window closed once per second and a
    display refresh every 80 ms, both timed on the uint32_t `millis()`
    counter, around the shared accumulators the edge interrupt updates. */
module Sketch {
  import opened MachineWords
  import opened VsyncStats
  import opened Classifier
  import opened LedMatrix
  import opened Presentation

  datatype Option<T> = None | Some(value: T)

  /** The measurement window length, in ms. */
  const WINDOW_MS: u32 := 1000
  /** The display refresh interval, in ms. */
  const UI_REFRESH_MS: u32 := 80

  /** The widest text the display can show, in pixels. */
  const MAX_TEXT_WIDTH: nat := CELL_WIDTH * (TEXT_BUFFER_SIZE - 1)

  class Whisker {
    /** The statistics shared with the edge interrupt, which calls
        `acc.OnEdge`. */
    const acc: Accumulator
    const matrix: Matrix
    /** `measuredFps`, as the "%.3f" text the display shows. */
    var measuredFpsText: string
    var syncLabel: string
    var scrollOffset: u8
    var lastCalcMs: u32
    var lastUiMs: u32

    /** The accumulators are consistent, the label is one the classifier
        produces and the scroll offset stays within the widest text. */
    ghost predicate Valid()
      reads this, acc, matrix
    {
      acc.Valid() && matrix.Valid() &&
      (syncLabel == NO_LOCK || syncLabel == TRI_LEVEL || syncLabel == BI_LEVEL) &&
      scrollOffset <= MAX_TEXT_WIDTH
    }

    /** The state after `setup()`: no edge, empty window, NO LOCK, a black
        frame. */
    constructor ()
      ensures Valid() && fresh(acc) && fresh(matrix) && fresh(matrix.leds)
      ensures acc.lastVsyncMicros == 0 && acc.window == []
      ensures syncLabel == NO_LOCK && measuredFpsText == ZERO_FPS.text
      ensures scrollOffset == 0 && lastCalcMs == 0 && lastUiMs == 0
      ensures forall i :: 0 <= i < NUM_LEDS ==> matrix.leds[i] == Black
    {
      acc := new Accumulator();
      matrix := new Matrix();
      measuredFpsText := ZERO_FPS.text;
      syncLabel := NO_LOCK;
      scrollOffset := 0;
      lastCalcMs := 0;
      lastUiMs := 0;
    }

    /** Closing a measurement window at time `nowUs`: drain the accumulators
        atomically, post-process the snapshot and keep the new label and
        rate. Returns the integer fields of the diagnostic line. */
    method CloseWindow(nowUs: u32, hdDetHigh: bool, fpsOf: (u64, u32) -> FpsReading) returns (report: WindowReport)
      requires Valid()
      modifies this, acc
      ensures Valid()
      ensures report == Evaluate(SnapshotOf(old(acc.Current()), old(acc.lastVsyncMicros)), nowUs, hdDetHigh, fpsOf)
      ensures acc.window == [] && acc.Current() == EMPTY && acc.lastVsyncMicros == old(acc.lastVsyncMicros)
      ensures syncLabel == report.syncLabel && measuredFpsText == report.fpsText
      ensures scrollOffset == old(scrollOffset) && lastCalcMs == old(lastCalcMs) && lastUiMs == old(lastUiMs)
    {
      var snap := acc.Drain();
      report := Evaluate(snap, nowUs, hdDetHigh, fpsOf);
      measuredFpsText := report.fpsText;
      syncLabel := report.syncLabel;
    }

    /** One display refresh: draw the current text at the current offset in
        the label's colour, then advance the offset. */
    method RefreshDisplay(font: Font)
      requires Valid()
      modifies this, matrix.leds
      ensures Valid()
      ensures var text := DisplayText(syncLabel, measuredFpsText);
        (forall i :: 0 <= i < NUM_LEDS ==>
          matrix.leds[i] == if Painted(text, old(scrollOffset), font, i) then ColorForSync(syncLabel) else Black) &&
        scrollOffset == NextOffset(old(scrollOffset), |text|)
      ensures syncLabel == old(syncLabel) && measuredFpsText == old(measuredFpsText)
      ensures lastCalcMs == old(lastCalcMs) && lastUiMs == old(lastUiMs)
    {
      var text := DisplayText(syncLabel, measuredFpsText);
      matrix.ShowText(text, scrollOffset, ColorForSync(syncLabel), font);
      scrollOffset := NextOffset(scrollOffset, |text|);
    }

    /** One pass of `loop` at `nowMs` / `nowUs`. The window closes when at
        least WINDOW_MS have passed since the last one (on uint32_t), and
        its diagnostic line is returned; the display refreshes when at
        least UI_REFRESH_MS have passed since the last refresh. */
    method Loop(nowMs: u32, nowUs: u32, hdDetHigh: bool, fpsOf: (u64, u32) -> FpsReading, font: Font)
      returns (log: Option<WindowReport>)
      requires Valid()
      modifies this, acc, matrix.leds
      ensures Valid()
      ensures log.Some? <==> Sub32(nowMs, old(lastCalcMs)) >= WINDOW_MS
      ensures log.Some? ==>
        log.value == Evaluate(SnapshotOf(old(acc.Current()), old(acc.lastVsyncMicros)), nowUs, hdDetHigh, fpsOf) &&
        acc.window == [] && acc.Current() == EMPTY &&
        syncLabel == log.value.syncLabel && measuredFpsText == log.value.fpsText && lastCalcMs == nowMs
      ensures log.None? ==>
        acc.window == old(acc.window) && acc.Current() == old(acc.Current()) &&
        syncLabel == old(syncLabel) && measuredFpsText == old(measuredFpsText) && lastCalcMs == old(lastCalcMs)
      ensures acc.lastVsyncMicros == old(acc.lastVsyncMicros)
      ensures Sub32(nowMs, old(lastUiMs)) >= UI_REFRESH_MS ==>
        var text := DisplayText(syncLabel, measuredFpsText);
        lastUiMs == nowMs &&
        (forall i :: 0 <= i < NUM_LEDS ==>
          matrix.leds[i] == if Painted(text, old(scrollOffset), font, i) then ColorForSync(syncLabel) else Black) &&
        scrollOffset == NextOffset(old(scrollOffset), |text|)
      ensures Sub32(nowMs, old(lastUiMs)) < UI_REFRESH_MS ==>
        lastUiMs == old(lastUiMs) && scrollOffset == old(scrollOffset) && matrix.leds[..] == old(matrix.leds[..])
    {
      log := None;
      if Sub32(nowMs, lastCalcMs) >= WINDOW_MS {
        var report := CloseWindow(nowUs, hdDetHigh, fpsOf);
        log := Some(report);
        lastCalcMs := nowMs;
      }
      if Sub32(nowMs, lastUiMs) >= UI_REFRESH_MS {
        RefreshDisplay(font);
        lastUiMs := nowMs;
      }
    }
  }

  /** A single edge followed by silence: the first window, closed at any
      time from WINDOW_MS on, accepts no period and reports zero frames and
      NO LOCK, and the display turns red. */
  method SingleEdgeThenSilence(edgeUs: u32, nowMs: u32, nowUs: u32, hdDetHigh: bool,
                               fpsOf: (u64, u32) -> FpsReading, font: Font)
    returns (log: Option<WindowReport>, color: Color)
    requires nowMs >= WINDOW_MS
    ensures log == Some(WindowReport(0, NO_LOCK, hdDetHigh, 0, ZERO_FPS.text))
    ensures color == Red
  {
    var w := new Whisker();
    w.acc.OnEdge(edgeUs);
    log := w.Loop(nowMs, nowUs, hdDetHigh, fpsOf, font);
    color := ColorForSync(w.syncLabel);
  }
}
