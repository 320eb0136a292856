# Delay-based window controller of datagrump

This project models, in Dafny, the congestion controller of the `datagrump` sender
(`datagrump/controller.cc`, `datagrump/controller.hh`). The sender asks the controller how many
datagrams may be in flight (`window_size`) and how long to wait for an acknowledgment
(`timeout_ms`). It reports every sent datagram, every acknowledgment and every timeout to it.

The controller keeps four fields:

- a window, held as a `double`;
- an exponentially weighted moving average of the RTT, held as a `double`;
- a grace-period deadline, held as an `unsigned int`;
- a history of nine `unsigned int` RTT slots, oldest first.

On each acknowledgment it does four things:

- It shifts the history left in place. It smooths the new RTT sample into the average with
  weight 0.15 and stores the average, rounded toward zero, in the newest slot.
- It predicts the next RTT by quadratic Lagrange extrapolation through slots 0, 3 and 6. In
  closed form the prediction is `rtt[0] - 3*rtt[3] + 3*rtt[6]`.
- Outside the grace period, a prediction of at least 100 ms multiplies the window by 0.8. A
  prediction of at most 75 ms multiplies it by 1.2. Either move re-arms the deadline to the
  acknowledgment time plus 50 ms. Inside the grace period nothing moves.
- It raises the window to at least 4.

Layout:

- `unsigned.dfy` (module `Unsigned`): the C++ widths. `unsigned int` and `uint64_t` are
  subset types, wrap-around is written out modulo 2^32 and 2^64, and the conversion from a
  `double` rounds toward zero.
- `history.dfy` (module `History`): the constants `NumTimestamps = IntervalLen = 3`, the
  nine-slot history and the shift as a sliding window.
- `smoothing.dfy` (module `Smoothing`): the moving average and its convergence.
- `predictor.dfy` (module `Predictor`): the Lagrange extrapolation and its closed form.
- `hysteresis.dfy` (module `Hysteresis`): the decision on the window and the deadline, given
  the prediction as a value.
- `controller_spec.dfy` (module `ControllerSpec`): the controller as a state machine over
  values (`Init`, `Step`, `Run`) and what holds over any run of acknowledgments.
- `controller.dfy` (module `Datagrump`): class `Controller`. Its fields are those of the C++
  class. The history is an `array<u32>` that `AckReceived` shifts in place. The two
  constructors and `AckReceived` are proved against `ControllerSpec`: they end in the states
  `Init`, `InitAsWritten` and `Step` give. `Interpolate` is proved against
  `Predictor.Extrapolate` and its closed form. `WindowSize` and `TimeoutMs` state the value
  they return, and `DatagramWasSent` and `TimeoutOccurred` state that nothing changes. Dafny
  checks every array access, so the shift reads slots 1..8 and writes 0..8, and the
  interpolation reads slots 0, 3 and 6, all in bounds.

Doubles are exact `real`s. Choices the code makes, which the model keeps:

- the window has no upper bound;
- the timeout is a constant 300 ms, not derived from the RTT;
- the prediction is the extrapolation, not the average itself;
- the deadline starts at 0, not "unset". An acknowledgment at time 0 is therefore already
  outside the grace period.

Two wrap-arounds are modelled as written:

- The RTT sample is the 64-bit difference of the timestamps narrowed to 32 bits
  (`RttSample`). It equals the true RTT whenever that is below 2^32 ms.
- The deadline is `ack + 50` narrowed to 32 bits (`GraceDeadline`). Once acknowledgment
  times reach 2^32 - 50 ms, every re-armed deadline lands at or below the acknowledgment
  time, so the grace period it should open never holds; from 2^32 ms on no deadline is ahead
  of any acknowledgment (`GraceLostAtWrap`). The hysteresis lemma
  `HysteresisAfterMove` therefore assumes the deadline does not wrap.

## Model

| member | source | states |
|---|---|---|
| `Unsigned.Wrap32` | datagrump/controller.cc:90 | storing into an `unsigned int` keeps the value modulo 2^32, and keeps it unchanged when it is in [0, 2^32) |
| `Unsigned.NarrowAfterWrap` | datagrump/controller.cc:90 | narrowing an unsigned 64-bit result to `unsigned int` equals reducing the exact result modulo 2^32 |
| `Unsigned.Truncate` | datagrump/controller.cc:39 | converting a non-negative double to an unsigned integer gives the largest whole number not above it |
| `Unsigned.TruncateU32` | datagrump/controller.cc:97 | storing the average into an `unsigned int` slot rounds toward zero; defined only below 2^32 |
| `History.ShiftIn` | datagrump/controller.cc:92-97 | after the shift, slot i holds the old slot i+1 for i < 8, and slot 8 holds the new value |
| `History.ShiftAllIsSlidingWindow` | datagrump/controller.cc:92-97 | after any number of shifts the history is the last nine values of old history followed by the new values |
| `History.ShiftAllForgetsOldHistory` | datagrump/controller.cc:92-97 | after nine or more shifts the history holds exactly the nine newest values |
| `Smoothing.NextEwma` | datagrump/controller.cc:96 | the new average lies between the old average and the sample; its distance to the sample is 0.85 times the old distance |
| `Smoothing.NextEwmaInRange` | datagrump/controller.cc:96-97 | an average in [0, 2^32) stays there, so its conversion into a slot is always defined |
| `Smoothing.RepeatConverges` | datagrump/controller.cc:11 | feeding a constant sample n times leaves a gap to it of 0.85^n times the initial gap |
| `Smoothing.RepeatStaysBetween` | datagrump/controller.cc:96 | feeding a constant sample never overshoots it |
| `Predictor.WeightFormula` | datagrump/controller.cc:66 | the basis weights used are (NUM_TIMESTAMPS - j) / (i - j) |
| `Predictor.PartialSumClosedForm` | datagrump/controller.cc:61-76 | the full Lagrange sum of the products of basis weights and sampled slots equals rtt[0] - 3*rtt[3] + 3*rtt[6] |
| `Predictor.Extrapolate` | datagrump/controller.cc:54-78 | the predicted RTT is rtt[0] - 3*rtt[3] + 3*rtt[6]: weights 1, -3, 3 on slots 0, 3, 6 |
| `Predictor.ConstantHistoryPredictsItself` | datagrump/controller.cc:61-76 | a history of constant c predicts c |
| `Predictor.QuadraticPredictedExactly` | datagrump/controller.cc:61-76 | slots 0, 3 and 6 following a quadratic at x = 0, 1, 2 predict its value at x = 3 |
| `Predictor.OnlySampledSlotsMatter` | datagrump/controller.cc:64 | histories agreeing on slots 0, 3 and 6 give the same prediction |
| `Hysteresis.GraceDeadline` | datagrump/controller.cc:109 | the armed deadline is ack + 50 modulo 2^32, and exactly ack + 50 when that fits in 32 bits |
| `Hysteresis.Classify` | datagrump/controller.cc:105-113 | the branch taken: grace iff ack < deadline; back-off iff outside grace with prediction >= 100; growth iff outside grace with prediction <= 75; no move iff outside grace and strictly between |
| `Hysteresis.Clamp` | datagrump/controller.cc:115-117 | the window is raised to 4 when below it and left alone otherwise |
| `Hysteresis.Adjust` | datagrump/controller.cc:105-117 | window >= 4 afterwards; in grace the deadline is kept and the window only clamped; back-off gives max(4, 0.8w) and a new deadline; growth gives max(4, 1.2w) and a new deadline; between thresholds nothing but the clamp |
| `Hysteresis.WindowMovesOnlyOnThresholds` | datagrump/controller.cc:105-117 | from a window >= 4, it grows iff outside grace with prediction <= 75 (by exactly 1.2); it shrinks iff outside grace with prediction >= 100 and window > 4 |
| `Hysteresis.DeadlineRearmedOnlyByMove` | datagrump/controller.cc:105-113 | the deadline changes only through a back-off or a growth step, which set it to the armed deadline |
| `Hysteresis.GraceLostAtWrap` | datagrump/controller.cc:109 | for every move at t >= 2^32 - 50 the armed deadline is <= t, so no acknowledgment at or after t is in the grace period; from 2^32 on no deadline value gives a grace period |
| `Hysteresis.GraceLostAtWrapExample` | datagrump/controller.cc:109 | a move at 2^32 - 10 arms deadline 40, so an acknowledgment 1 ms later backs off again |
| `ControllerSpec.Init` | datagrump/controller.cc:23-29 | the initial state satisfies the invariant (window 4, average 0, deadline 0, zeroed history) |
| `ControllerSpec.InitAsWritten` | datagrump/controller.cc:26-28 | the constructor as written zeroes slots 0..2 and keeps slots 3..8 as the memory held them |
| `ControllerSpec.RttSample` | datagrump/controller.cc:90 | the sample is (ack - send) mod 2^32, and the true difference whenever it is below 2^32 |
| `ControllerSpec.Step` | datagrump/controller.cc:89-117 | one acknowledgment keeps the invariant, smooths the sample into the average, shifts the history and puts the truncated average in slot 8, and adjusts window and deadline on the new history's prediction |
| `ControllerSpec.Run` | datagrump/controller.cc:81-117 | over any sequence of acknowledgments the average stays in [0, 2^32) and the window stays >= 4 |
| `ControllerSpec.ReachableStatesAreValid` | datagrump/controller.cc:115-117 | after construction, as written or corrected, and any acknowledgments, the window is >= 4; there is no upper bound |
| `ControllerSpec.GraceFreezesKnobs` | datagrump/controller.cc:105-106 | acknowledgments before the deadline leave window and deadline unchanged, whatever they predict |
| `ControllerSpec.HysteresisAfterMove` | datagrump/controller.cc:107-113 | after a move at t (with t + 50 < 2^32), acknowledgments in [t, t + 50) change neither window nor deadline |
| `ControllerSpec.EwmaAfter` | datagrump/controller.cc:96 | the average after any acknowledgments, from a start in [0, 2^32), stays in [0, 2^32) |
| `ControllerSpec.Recorded` | datagrump/controller.cc:96-97 | one truncated average is recorded per acknowledgment |
| `ControllerSpec.RunSlidesRecordedValues` | datagrump/controller.cc:92-97 | the history after any acknowledgments is the starting history with the recorded truncated averages slid in (`ShiftAll`), and the average is determined by the starting average and the samples |
| `ControllerSpec.HistoryForgetsStart` | datagrump/controller.cc:93-97 | average and history do not depend on window or deadline, and after n acknowledgments the newest n slots do not depend on the starting history |
| `ControllerSpec.StaleSlotsFlushedAfterNineAcks` | datagrump/controller.cc:26-28 | from the ninth acknowledgment on, the history left as written equals the zeroed-start history |
| `ControllerSpec.StaleSlotsSteerFirstAck` | datagrump/controller.cc:26-28 | a stale slot 7 of 1000 turns the first decision from growth to 4.8 into a back-off to 4 |
| `Datagrump.Controller.constructor` | datagrump/controller.cc:23-29 | a fresh controller is in the state `Init`: window 4, average 0, deadline 0, all nine slots 0 |
| `Datagrump.Controller.AsWritten` | datagrump/controller.cc:23-29 | the constructor's loop zeroes only the first NUM_TIMESTAMPS slots; the others keep what the fresh array held |
| `Datagrump.Controller.WindowSize` | datagrump/controller.cc:32-40 | the reported size is the window rounded toward zero, within 1 of it and at least 4; it reads the state and changes none |
| `Datagrump.Controller.DatagramWasSent` | datagrump/controller.cc:43-52 | reporting a sent datagram changes no state |
| `Datagrump.Controller.Interpolate` | datagrump/controller.cc:54-78 | the nested product loops over a scratch array compute the Lagrange extrapolation, equal to rtt[0] - 3*rtt[3] + 3*rtt[6] |
| `Datagrump.Controller.AckReceived` | datagrump/controller.cc:81-117 | the in-place shift, smoothing, prediction, hysteresis and clamp leave the object in the state `Step` gives, and keep it valid |
| `Datagrump.Controller.TimeoutOccurred` | datagrump/controller.cc:138-145 | a timeout changes no state |
| `Datagrump.Controller.TimeoutMs` | datagrump/controller.cc:149-152 | the timeout is always 300 ms, independent of the state |

## Findings

| source | as written | input that shows it | evidently intended | confidence | as-written member | corrected member |
|---|---|---|---|---|---|---|
| datagrump/controller.cc:26-28 | the constructor zeroes `rtt[i]` only for `i < NUM_TIMESTAMPS` (3), but the array has `NUM_TIMESTAMPS * INTERVAL_LEN` (9) slots; slots 3..8 start indeterminate | slot 7 initially holding 1000, then a datagram sent at 0 and acknowledged at 10: the prediction is 3000 and the window backs off, where a zeroed history predicts 0 and grows the window to 4.8 (`StaleSlotsSteerFirstAck`); the stale values are gone after nine acknowledgments (`StaleSlotsFlushedAfterNineAcks`) | zero all nine slots | medium, not executed (harmless only if the object happens to be zero-initialised) | `Datagrump.Controller.AsWritten` | `Datagrump.Controller.constructor` |

## Left out

- Debug and trace output to `cerr`/`cout`, and the `timestamp_ms()` clock it prints. Both are I/O only and change no state. The `debug` flag is kept as a field.
- The acknowledged sequence number and the receiver's timestamp. `ack_received` uses them only in that output, so the model takes them as parameters and ignores them.
- IEEE-754 rounding. The window, the average, their products and the prediction are exact reals, and `kGamma` and `1.0 - kGamma` are exactly 0.15 and 0.85.
- Datagrump.Controller.WindowSize: returns the rounded window as an unbounded `nat`. It does not model the undefined C++ conversion of a window of 2^32 or more into `unsigned int`. The window has no upper bound, but reaching that size takes over a hundred consecutive growth steps.
- The commented-out alternative window rule (controller.cc:119-126) and the window halving on timeout (controller.cc:140-144). Both are dead code.
- The sender's event loop (`sender.cc`) and `timestamp.hh`, which are not part of this model.
