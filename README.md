# Genlock Whisker: a verified model of the VSYNC statistics engine

The Genlock Whisker is an RP2040 sketch. It reads the VSYNC output of an
LMH1980 sync separator and reports whether a genlock reference is present.
It also reports the reference's frame rate, its jitter and its format
(tri-level HD or bi-level SD). The result scrolls across a 15 x 7 WS2812 LED
matrix.

This project models the integer part of that sketch in Dafny and proves its
properties:

- `machine_words.dfy` (`MachineWords`): the sketch's `uint8_t`,
  `uint32_t` and `uint64_t` as subset types of `nat`. Their wrap-around is
  written out (`Sub32`, `Add32`). A lemma shows that a uint32 difference of
  two counter readings is the true elapsed time whenever that time is below
  one wrap of the counter.
- `vsync_stats.dfy` (`VsyncStats`): the edge interrupt `vsyncISR` and the
  drain in `loop`, as the class `Accumulator`.
  - The class's fields are the sketch's globals.
  - A ghost `window` holds the periods accepted since the last drain.
  - `Valid()` ties the five accumulators to `Summary(window)`, a closed-form
    description: count, sum and sum of squares (each modulo its width), and
    the minimum and maximum with their sentinels.
  - `Fold` is the interrupt's incremental computation, and
    `FoldIsSummary` proves that the two agree.
  - The peak-to-peak guard (`PeakToPeak`) is proved end to end.
- `classifier.dfy` (`Classifier`): the lock test, `triLevelDetected`, the
  label rule, and the post-processing of one drained window (`Evaluate`).
- `led_matrix.dfy` (`LedMatrix`): `XY`, and the `leds` frame buffer as the
  class `Matrix`.
  - `DrawChar` and `ShowText` keep the source's nested loops over the
    array.
  - Each is specified pixel by pixel through `Lit` and `Painted`: these say
    which LED a glyph lights, working back from the LED's index.
- `presentation.dfy` (`Presentation`): `colorForSync`, the display text,
  and the `uint8_t` scroll offset with its wrap-around.
- `sketch.dfy` (`Sketch`): `loop` as the class `Whisker`. One call of
  `Loop` is one pass of `loop`. It closes a window when at least 1000 ms
  have passed since the last one. It refreshes the display when at least
  80 ms have passed since the last refresh. Both are timed on the wrapping
  `millis()` counter, so one call may do both, one or neither.

Inputs from the hardware are parameters:

- `micros()` and `millis()` readings are `u32` values.
- The HD_DET level is a `bool`, true for HIGH.
- The font table `font7x5` is a `Font` value: 95 glyphs of 5 column bytes.
- The floating-point frame rate is reduced to what the integer logic uses of
  it, an `FpsReading`. It has two parts: whether `(float)fps < 1.0f`, and its
  `"%.3f"` text. `Evaluate` takes it as a function of `(sumP, count)`.

An edge at `micros() == 0` is indistinguishable from "no edge yet", because
0 is the sentinel for that.

The minimum sentinel `0xFFFFFFFF` collides with an accepted period of
exactly `0xFFFFFFFF` us. `PeakToPeakIsSpread` shows that this never changes
the reported peak-to-peak jitter.

Three facts about the sketch that the model keeps:

- The label test is `measuredFps < 1.0f` (main.cpp:175), so a rate of
  exactly 1.0 passes the floor. `FpsReading.belowOne` is that strict
  comparison.
- Every edge's time is recorded, rejected ones included (main.cpp:79).
- `drawChar` writes the `leds` array directly (main.cpp:60).

## Model

| member | source | states |
|---|---|---|
| MachineWords.Sub32 | software/RP2040_Genlock_Whisker/src/main.cpp:82 | uint32 subtraction: the plain difference when `b <= a`, the difference plus 2^32 when the counter wrapped |
| MachineWords.WrappedElapsed | software/RP2040_Genlock_Whisker/src/main.cpp:174 | two readings of a wrapping counter, subtracted on uint32, give the true elapsed time whenever it is below 2^32 |
| VsyncStats.Accumulator.constructor | software/RP2040_Genlock_Whisker/src/main.cpp:32-37 | power-on state: last edge 0, empty window, accumulators at count 0, sums 0, min 0xFFFFFFFF, max 0 |
| VsyncStats.Accumulator.OnEdge | software/RP2040_Genlock_Whisker/src/main.cpp:76-91 | the edge time always becomes `now`; when a previous edge exists and the wrapped period is at least 5000 us the period is appended to the window and folded in (count +1, sum +p, sum of squares +p², min, max); otherwise all five accumulators are unchanged; the class invariant is kept |
| VsyncStats.Accumulator.Drain | software/RP2040_Genlock_Whisker/src/main.cpp:134-148 | returns the pre-drain accumulators and last edge time, with a min of 0xFFFFFFFF reported as 0; afterwards the window is empty, the accumulators are at their empty values and the last edge time is unchanged; draining an empty window yields count, min and max 0 |
| VsyncStats.AcceptExtendsSummary | software/RP2040_Genlock_Whisker/src/main.cpp:82-88 | folding one period into the summary of a window equals the summary of the window extended by that period |
| VsyncStats.FoldIsSummary | software/RP2040_Genlock_Whisker/src/main.cpp:76-91 | the interrupt's edge-by-edge accumulation computes exactly the count, sums (modulo their widths), minimum and maximum of the accepted periods |
| VsyncStats.WindowBounds | software/RP2040_Genlock_Whisker/src/main.cpp:83-88 | once the count is at least 1: 5000 <= min <= max and every accepted period lies in [min, max] |
| VsyncStats.ExactTotals | software/RP2040_Genlock_Whisker/src/main.cpp:84-86 | with fewer than 2^32 periods the count and the 64-bit sum do not wrap; the sum of squares is exact while length times the largest square stays below 2^64 |
| VsyncStats.PeakToPeak | software/RP2040_Genlock_Whisker/src/main.cpp:153-169 | peak-to-peak jitter is max - min exactly when count >= 1, sum > 0, min > 0 and max >= min, and 0 otherwise; it never exceeds max and never underflows |
| VsyncStats.DrainEmptyWindow | software/RP2040_Genlock_Whisker/src/main.cpp:138-148 | the snapshot of an empty window is all zeros, has no samples and zero peak-to-peak jitter, so a second drain without edges is empty |
| VsyncStats.PeakToPeakIsSpread | software/RP2040_Genlock_Whisker/src/main.cpp:76-169 | for any non-empty window of valid periods, accumulating, draining and post-processing gives samples and a peak-to-peak jitter equal to the window's largest minus smallest period, also when the min sentinel collides |
| VsyncStats.AlternatingSpread | software/RP2040_Genlock_Whisker/src/main.cpp:76-169 | a window alternating 16667 and 16670 us has min 16667 and max 16670, and accumulating and draining it gives peak-to-peak jitter 3 |
| VsyncStats.Qualifies | software/RP2040_Genlock_Whisker/src/main.cpp:81-83 | no period qualifies without a recorded edge (0); otherwise one qualifies iff the time since the previous edge, unwrapped across a counter wrap-around, is at least 5000 us |
| VsyncStats.Accept | software/RP2040_Genlock_Whisker/src/main.cpp:84-88 | the new min is the smaller of the old min and the period, the new max the larger of the old max and the period; count, sum and sum of squares grow by 1, p and p² whenever they do not pass their width |
| VsyncStats.SnapshotOf | software/RP2040_Genlock_Whisker/src/main.cpp:135-140 | the snapshot copies count, sums, max and the last edge time; the min is copied unless it is the sentinel 0xFFFFFFFF, which is reported as 0 |
| VsyncStats.HasSamples | software/RP2040_Genlock_Whisker/src/main.cpp:155 | statistics are computed only for a snapshot with a non-zero count and a non-zero sum; PeakToPeakIsSpread shows every non-empty valid window passes, DrainEmptyWindow that the empty one does not |
| Classifier.Locked | software/RP2040_Genlock_Whisker/src/main.cpp:174 | never locked without a recorded edge (0); otherwise locked iff the time since that edge, unwrapped across a counter wrap-around, is strictly below 250000 us; LockedIffRecent gives its meaning against true time |
| Classifier.TriLevelDetected | software/RP2040_Genlock_Whisker/src/main.cpp:93-96 | tri-level iff the HD_DET pin reads LOW |
| Classifier.LockedIffRecent | software/RP2040_Genlock_Whisker/src/main.cpp:174 | read against true times, the lock test holds iff the last edge is less than 250000 us old, across counter wrap-arounds |
| Classifier.TimeoutBoundary | software/RP2040_Genlock_Whisker/src/main.cpp:27 | an edge 249999 us old is locked, one exactly 250000 us old is not |
| Classifier.EdgeAfterTimestampReadsUnlocked | software/RP2040_Genlock_Whisker/src/main.cpp:127-140 | an edge recorded after `nowUs` was read makes the elapsed time wrap to nearly 2^32, so the lock test fails |
| Classifier.SyncLabel | software/RP2040_Genlock_Whisker/src/main.cpp:174-179 | the label is NO LOCK iff not locked or fps below 1.0; TRI-LEVEL iff locked, fps not below 1.0 and HD_DET LOW; BI-LEVEL iff locked, fps not below 1.0 and HD_DET HIGH |
| Classifier.Evaluate | software/RP2040_Genlock_Whisker/src/main.cpp:150-179 | a window reports its count, the HD_DET level and the peak-to-peak jitter; it is NO LOCK iff the lock test fails, the window has no samples or the rate is below 1.0; otherwise its label follows HD_DET; an empty window keeps fps at 0.0 |
| Classifier.EmptyWindowIsNoLock | software/RP2040_Genlock_Whisker/src/main.cpp:155-176 | a window with no accepted period reports NO LOCK, zero frames and zero jitter whatever the time and inputs |
| Classifier.SteadySignalLocks | software/RP2040_Genlock_Whisker/src/main.cpp:155-179 | a non-empty window of valid periods with a recent edge and a rate of at least 1.0 reports its exact period count and TRI-LEVEL for HD_DET LOW, BI-LEVEL for HIGH |
| Presentation.ColorForSync | software/RP2040_Genlock_Whisker/src/main.cpp:98-102 | blue iff TRI-LEVEL, green iff BI-LEVEL, red for every other label |
| Presentation.ColorIdentifiesLabel | software/RP2040_Genlock_Whisker/src/main.cpp:98-102 | on the three labels the classifier produces the colour is one-to-one and red means NO LOCK |
| Presentation.DisplayText | software/RP2040_Genlock_Whisker/src/main.cpp:205-212 | the text is exactly "NO LOCK" for that label, otherwise the label, a space and the rate text, or its first 31 characters when it does not fit the 32-byte buffer |
| Presentation.NextOffset | software/RP2040_Genlock_Whisker/src/main.cpp:214-216 | after a refresh 0 <= offset <= 6 * len(text); the offset grows by one while that stays within the width and 256, and resets to 0 once it exceeds the width or wraps past 255 |
| Presentation.ScrollClimbs | software/RP2040_Genlock_Whisker/src/main.cpp:214-216 | refreshing a fixed text from offset 0, the offset after n refreshes is n, up to the text's width |
| Presentation.ScrollWraps | software/RP2040_Genlock_Whisker/src/main.cpp:214-216 | one refresh after reaching the text's width the offset is back at 0 |
| Presentation.ScrollPeriodic | software/RP2040_Genlock_Whisker/src/main.cpp:214-216 | the scroll animation repeats with period width + 1 |
| Presentation.OffsetNeverWraps | software/RP2040_Genlock_Whisker/src/main.cpp:42 | every displayed text is at most 186 pixels wide, so the uint8_t offset never reaches its wrap-around |
| LedMatrix.XY | software/RP2040_Genlock_Whisker/src/main.cpp:45-47 | on the 15 x 7 grid the index lies in [0, 105), and division and remainder by 7 recover the column and row |
| LedMatrix.UnprintableDrawsNothing | software/RP2040_Genlock_Whisker/src/main.cpp:52 | a character outside 32..126 lights no LED |
| LedMatrix.Matrix.constructor | software/RP2040_Genlock_Whisker/src/main.cpp:29 | the frame buffer has 105 LEDs, all black |
| LedMatrix.Matrix.DrawChar | software/RP2040_Genlock_Whisker/src/main.cpp:51-64 | each LED whose column, relative to the offset, is a glyph column with its row bit set takes the colour; columns outside the matrix are clipped; every other LED is unchanged |
| LedMatrix.Matrix.ShowText | software/RP2040_Genlock_Whisker/src/main.cpp:68-73 | the frame is cleared to black, then each LED painted by some character k drawn at k*6 - offset takes the colour |
| Sketch.Whisker.constructor | software/RP2040_Genlock_Whisker/src/main.cpp:29-124 | initial state: label NO LOCK and rate text of 0.0 (lines 40-42), offset 0, both `static` timers 0 (lines 123-124), no edge, and the zero-initialised, black `leds` frame (line 29) |
| Sketch.Whisker.CloseWindow | software/RP2040_Genlock_Whisker/src/main.cpp:130-179 | drains the accumulators, reports the evaluation of the snapshot, and keeps its label and rate text; the edge time, offset and timers are unchanged |
| Sketch.Whisker.RefreshDisplay | software/RP2040_Genlock_Whisker/src/main.cpp:204-216 | the frame shows the display text at the old offset in the label's colour on black, and the offset advances by the scroll rule |
| Sketch.Whisker.Loop | software/RP2040_Genlock_Whisker/src/main.cpp:122-219 | a window closes and is logged iff at least 1000 ms passed on uint32 since the last one, taking the window's label and rate text, otherwise the accumulators, label and rate text are untouched; the display refreshes iff at least 80 ms passed, drawing the display text at the old offset in the label's colour on black and advancing the offset, otherwise frame and offset are unchanged |
| Sketch.SingleEdgeThenSilence | software/RP2040_Genlock_Whisker/src/main.cpp:76-179 | a single edge after power-on, then the first window closed at any time from 1000 ms on: zero frames, NO LOCK, zero jitter, red |

## Left out

- Floating-point statistics: mean period, fps, variance with its clamp, RMS jitter, ppm jitter and the `(float)` cast. What the integer logic uses of fps is an `FpsReading` input: whether it is below 1.0f, and its text.
- `snprintf("%s %.3f")` rendering of the frame rate: the rate's text is an input.
- Concurrency between the edge interrupt and `loop`: `Drain` is one atomic step, as the critical section makes it. Interleavings of `OnEdge` with the foreground outside the critical section are not modelled. `EdgeAfterTimestampReadsUnlocked` states the effect of an edge arriving after `nowUs` is read.
- `micros()`, `millis()` and `digitalRead()`: their values are parameters. The source reads HD_DET a second time for the diagnostic line; the model uses one reading for both.
- `Serial.printf`: the model returns the line's integer fields (`WindowReport`), not its text. The mean period, RMS and ppm fields are floating point (see above).
- `FastLED.show()`, `addLeds` and `setBrightness`: the model shows nothing; the frame is the `leds` array. `fill_solid` is modelled only as its effect, an all-black frame.
- The contents of `font7x5.h`, which is not part of this model: the font is a parameter of type `Font`.
- `setup()`: pin modes and interrupt attachment. The constructors model only the initial values.
- `volatile` visibility and the C `char` signedness: characters are Dafny chars compared as integers against 32..126.
- VsyncStats.ExactTotals: states exactness of the 64-bit sum of squares only under a stated bound, because the source has no overflow guard and wraps modulo 2^64 (which the model does).
