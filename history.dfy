/** The RTT history of the controller: a fixed row of `NumTimestamps * IntervalLen` unsigned slots,
    oldest first, into which every acknowledgment shifts one new smoothed RTT. */
module History {
  import opened Unsigned

  /** Number of points the predictor samples from the history. */
  const NumTimestamps: nat := 3
  /** Distance, in slots, between two sampled points. */
  const IntervalLen: nat := 3
  /** Number of history slots. */
  const HistoryLen: nat := NumTimestamps * IntervalLen

  /** A full history row. */
  type Slots = h: seq<u32> | |h| == HistoryLen witness [0, 0, 0, 0, 0, 0, 0, 0, 0]

  /** The all-zero history. */
  function Zeroes(): (h: Slots)
    ensures forall i :: 0 <= i < HistoryLen ==> h[i] == 0
  {
    seq(HistoryLen, _ => 0)
  }

  /** One acknowledgment's update: every slot takes its successor's value and the newest
      slot receives `x`. */
  function ShiftIn(h: Slots, x: u32): (r: Slots)
    ensures forall i :: 0 <= i < HistoryLen - 1 ==> r[i] == h[i + 1]
    ensures r[HistoryLen - 1] == x
  {
    h[1..] + [x]
  }

  /** The history after shifting in every value of `xs`, first to last. */
  function ShiftAll(h: Slots, xs: seq<u32>): Slots
    decreases |xs|
  {
    if xs == [] then h else ShiftIn(ShiftAll(h, xs[..|xs| - 1]), xs[|xs| - 1])
  }

  /** The history is a sliding window: after shifting in `xs` it holds the last `HistoryLen`
      values of the old history followed by `xs`. */
  lemma {:induction false} ShiftAllIsSlidingWindow(h: Slots, xs: seq<u32>)
    ensures ShiftAll(h, xs) == (h + xs)[|xs|..]
    decreases |xs|
  {
    if xs != [] {
      var n := |xs| - 1;
      ShiftAllIsSlidingWindow(h, xs[..n]);
      assert h + xs == (h + xs[..n]) + [xs[n]];
    }
  }

  /** Once `HistoryLen` values have been shifted in, nothing of the old history is left. */
  lemma ShiftAllForgetsOldHistory(h: Slots, xs: seq<u32>)
    requires |xs| >= HistoryLen
    ensures ShiftAll(h, xs) == xs[|xs| - HistoryLen..]
  {
    ShiftAllIsSlidingWindow(h, xs);
    assert (h + xs)[|xs|..] == xs[|xs| - HistoryLen..];
  }
}
