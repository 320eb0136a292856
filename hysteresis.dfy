/** The window decision taken on every acknowledgment: hold still during the grace period,
    otherwise back off when the predicted RTT is high and grow when it is low, re-arming the
    grace period after either move; finally keep the window at or above its floor. */
module Hysteresis {
  import opened Unsigned

  const WindowDecay: real := 0.8
  const WindowGrow: real := 1.2
  const GraceMillis: nat := 50
  const MinWindow: nat := 4
  /** Predicted RTT (ms) at or above which the window backs off. */
  const MaxRtt: nat := 100
  /** Predicted RTT (ms) at or below which the window grows. */
  const MinRtt: nat := 75

  /** The two fields the decision writes: the window (a `double`) and the grace deadline (an
      `unsigned int`). */
  datatype Knobs = Knobs(window: real, graceEnd: u32)

  datatype Verdict = Settling | Backoff | Grow | Steady

  /** The deadline armed by an acknowledgment at `ackTs`: the 64-bit sum narrowed to the
      32-bit field, that is, `ackTs + GraceMillis` modulo 2^32. */
  function GraceDeadline(ackTs: u64): (g: u32)
    ensures g == Wrap32(ackTs + GraceMillis)
    ensures ackTs + GraceMillis < Two32 ==> g == ackTs + GraceMillis
  {
    NarrowAfterWrap(ackTs + GraceMillis);
    Wrap32(Wrap64(ackTs + GraceMillis))
  }

  /** Which branch an acknowledgment at `ackTs` with prediction `predicted` takes. */
  function Classify(ackTs: u64, graceEnd: u32, predicted: real): (v: Verdict)
    ensures v == Settling <==> ackTs < graceEnd
    ensures v == Backoff <==> graceEnd <= ackTs && predicted >= MaxRtt as real
    ensures v == Grow <==> graceEnd <= ackTs && predicted <= MinRtt as real
    ensures v == Steady <==> graceEnd <= ackTs && MinRtt as real < predicted < MaxRtt as real
  {
    if ackTs < graceEnd then Settling
    else if predicted >= MaxRtt as real then Backoff
    else if predicted <= MinRtt as real then Grow
    else Steady
  }

  /** The floor on the window. */
  function Clamp(w: real): (r: real)
    ensures r >= MinWindow as real
    ensures w >= MinWindow as real ==> r == w
    ensures w < MinWindow as real ==> r == MinWindow as real
  {
    if w < MinWindow as real then MinWindow as real else w
  }

  /** The knobs after one acknowledgment. */
  function Adjust(k: Knobs, ackTs: u64, predicted: real): (k': Knobs)
    ensures k'.window >= MinWindow as real
    ensures ackTs < k.graceEnd ==> k'.graceEnd == k.graceEnd && k'.window == Clamp(k.window)
    ensures k.graceEnd <= ackTs && predicted >= MaxRtt as real ==>
              k'.window == Clamp(WindowDecay * k.window) && k'.graceEnd == GraceDeadline(ackTs)
    ensures k.graceEnd <= ackTs && predicted <= MinRtt as real ==>
              k'.window == Clamp(WindowGrow * k.window) && k'.graceEnd == GraceDeadline(ackTs)
    ensures k.graceEnd <= ackTs && MinRtt as real < predicted < MaxRtt as real ==>
              k'.graceEnd == k.graceEnd && k'.window == Clamp(k.window)
  {
    var moved :=
      match Classify(ackTs, k.graceEnd, predicted)
      case Backoff => Knobs(k.window * WindowDecay, GraceDeadline(ackTs))
      case Grow => Knobs(k.window * WindowGrow, GraceDeadline(ackTs))
      case _ => k;
    moved.(window := Clamp(moved.window))
  }

  /** From a window at or above the floor: the window grows exactly when the acknowledgment
      falls outside the grace period with a prediction at or below `MinRtt`, and then by the
      full growth factor; it shrinks exactly when it falls outside the grace period with a
      prediction at or above `MaxRtt` and the window is above the floor; otherwise it stays. */
  lemma WindowMovesOnlyOnThresholds(k: Knobs, ackTs: u64, predicted: real)
    requires k.window >= MinWindow as real
    ensures var k' := Adjust(k, ackTs, predicted);
      && (k'.window > k.window <==> k.graceEnd <= ackTs && predicted <= MinRtt as real)
      && (k'.window > k.window ==> k'.window == WindowGrow * k.window)
      && (k'.window < k.window <==>
            k.graceEnd <= ackTs && predicted >= MaxRtt as real && k.window > MinWindow as real)
  {
  }

  /** The grace deadline is re-armed only by a move outside the grace period. */
  lemma DeadlineRearmedOnlyByMove(k: Knobs, ackTs: u64, predicted: real)
    ensures var v := Classify(ackTs, k.graceEnd, predicted);
      Adjust(k, ackTs, predicted).graceEnd ==
        if v == Backoff || v == Grow then GraceDeadline(ackTs) else k.graceEnd
  {
  }

  /** Once acknowledgment times reach 2^32 - GraceMillis, a re-armed deadline wraps to a value
      at or below the acknowledgment time, so no later acknowledgment falls inside the grace
      period it was meant to open; from 2^32 on no deadline the 32-bit field can hold is ahead
      of any acknowledgment, so the grace period never holds again. */
  lemma GraceLostAtWrap(ackTs: u64, later: u64, predicted: real)
    requires Two32 - GraceMillis <= ackTs <= later
    ensures GraceDeadline(ackTs) <= ackTs
    ensures Classify(later, GraceDeadline(ackTs), predicted) != Settling
    ensures Two32 <= later ==> forall g: u32 :: Classify(later, g, predicted) != Settling
  {
  }

  /** One instance: re-armed at 2^32 - 10 the deadline is 40, and the acknowledgment one
      millisecond later already backs off again. */
  lemma GraceLostAtWrapExample()
    ensures var k' := Adjust(Knobs(10.0, 0), Two32 - 10, 150.0);
      && k'.graceEnd == 40
      && Classify(Two32 - 9, k'.graceEnd, 150.0) == Backoff
  {
  }
}
