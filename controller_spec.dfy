/** The controller as a state machine over values: its initial state and the effect of one
    acknowledgment, and what follows for any sequence of acknowledgments. */
module ControllerSpec {
  import opened Unsigned
  import opened History
  import opened Smoothing
  import opened Predictor
  import opened Hysteresis

  /** The controller's fields: window (`double`), smoothed RTT (`double`), grace deadline
      (`unsigned int`) and the RTT history (`unsigned int[9]`). */
  datatype State = State(window: real, rttEwma: real, graceEnd: u32, rtt: Slots)

  /** What holds of every state the controller reaches. The bound on the smoothed RTT is what
      makes its conversion into a history slot defined. */
  predicate Inv(s: State)
  {
    s.window >= MinWindow as real && 0.0 <= s.rttEwma < Two32 as real
  }

  /** The intended initial state: the floor window, no smoothed RTT, no grace period and an
      all-zero history. */
  function Init(): (s: State)
    ensures Inv(s)
  {
    State(MinWindow as real, 0.0, 0, Zeroes())
  }

  /** The initial state the constructor produces as written: only the first `NumTimestamps`
      slots are zeroed, the other slots keep whatever `stale` values the memory held. */
  function InitAsWritten(stale: Slots): (s: State)
    ensures Inv(s)
    ensures forall i :: 0 <= i < NumTimestamps ==> s.rtt[i] == 0
    ensures forall i :: NumTimestamps <= i < HistoryLen ==> s.rtt[i] == stale[i]
  {
    State(MinWindow as real, 0.0, 0, [0, 0, 0] + stale[NumTimestamps..])
  }

  /** The RTT sample of an acknowledgment: the 64-bit difference of the two sender-clock
      timestamps narrowed to an `unsigned int`. It is the true RTT whenever that is below 2^32. */
  function RttSample(sendTs: u64, ackTs: u64): (d: u32)
    ensures d == Wrap32(ackTs - sendTs)
    ensures sendTs <= ackTs < sendTs + Two32 ==> d == ackTs - sendTs
  {
    NarrowAfterWrap(ackTs - sendTs);
    Wrap32(Wrap64(ackTs - sendTs))
  }

  /** One acknowledgment: smooth the sample into the average, shift the truncated average into
      the history, predict from the new history and let the hysteresis rule adjust the knobs. */
  function Step(s: State, sendTs: u64, ackTs: u64): (t: State)
    requires 0.0 <= s.rttEwma < Two32 as real
    ensures Inv(t)
    ensures t.rttEwma == NextEwma(s.rttEwma, RttSample(sendTs, ackTs))
    ensures forall i :: 0 <= i < HistoryLen - 1 ==> t.rtt[i] == s.rtt[i + 1]
    ensures t.rtt[HistoryLen - 1] as real <= t.rttEwma < t.rtt[HistoryLen - 1] as real + 1.0
    ensures Knobs(t.window, t.graceEnd) == Adjust(Knobs(s.window, s.graceEnd), ackTs, Extrapolate(t.rtt))
  {
    NextEwmaInRange(s.rttEwma, RttSample(sendTs, ackTs));
    var ewma := NextEwma(s.rttEwma, RttSample(sendTs, ackTs));
    var rtt := ShiftIn(s.rtt, TruncateU32(ewma));
    var k := Adjust(Knobs(s.window, s.graceEnd), ackTs, Extrapolate(rtt));
    State(k.window, ewma, k.graceEnd, rtt)
  }

  /** The timestamps of an acknowledgment that the controller uses. */
  datatype Ack = Ack(sendTs: u64, ackTs: u64)

  /** The state after the acknowledgments `acks`, in order. */
  function Run(s: State, acks: seq<Ack>): (t: State)
    requires 0.0 <= s.rttEwma < Two32 as real
    ensures 0.0 <= t.rttEwma < Two32 as real
    ensures acks != [] || s.window >= MinWindow as real ==> t.window >= MinWindow as real
    decreases |acks|
  {
    if acks == [] then s
    else
      var last := acks[|acks| - 1];
      Step(Run(s, acks[..|acks| - 1]), last.sendTs, last.ackTs)
  }

  /** Every reachable state satisfies the invariant; in particular the window never drops below
      the floor after construction and any number of acknowledgments. */
  lemma ReachableStatesAreValid(acks: seq<Ack>, stale: Slots)
    ensures Inv(Run(Init(), acks))
    ensures Inv(Run(InitAsWritten(stale), acks))
  {
  }

  /** While every acknowledgment arrives before the grace deadline, neither the window nor the
      deadline changes. */
  lemma {:induction false} GraceFreezesKnobs(s: State, acks: seq<Ack>)
    requires Inv(s)
    requires forall i :: 0 <= i < |acks| ==> acks[i].ackTs < s.graceEnd
    ensures Run(s, acks).window == s.window && Run(s, acks).graceEnd == s.graceEnd
    decreases |acks|
  {
    if acks != [] {
      GraceFreezesKnobs(s, acks[..|acks| - 1]);
    }
  }

  /** After a move at time `a.ackTs` (one that does not wrap the 32-bit deadline), every further
      acknowledgment in `[a.ackTs, a.ackTs + GraceMillis)` leaves the window and deadline as the
      move set them, whatever RTT it predicts. */
  lemma HysteresisAfterMove(s: State, a: Ack, acks: seq<Ack>)
    requires Inv(s)
    requires a.ackTs + GraceMillis < Two32
    requires Classify(a.ackTs, s.graceEnd, Extrapolate(Step(s, a.sendTs, a.ackTs).rtt)) in {Backoff, Grow}
    requires forall i :: 0 <= i < |acks| ==> a.ackTs <= acks[i].ackTs < a.ackTs + GraceMillis
    ensures var moved := Step(s, a.sendTs, a.ackTs);
      && moved.graceEnd == a.ackTs + GraceMillis
      && Run(moved, acks).window == moved.window
      && Run(moved, acks).graceEnd == moved.graceEnd
  {
    GraceFreezesKnobs(Step(s, a.sendTs, a.ackTs), acks);
  }

  /** The smoothed RTT and the history do not depend on the window or the deadline, and after
      `n` acknowledgments the newest `n` slots no longer depend on the starting history. */
  lemma {:induction false} HistoryForgetsStart(s1: State, s2: State, acks: seq<Ack>)
    requires 0.0 <= s1.rttEwma < Two32 as real
    requires s1.rttEwma == s2.rttEwma
    ensures Run(s1, acks).rttEwma == Run(s2, acks).rttEwma
    ensures s1.rtt == s2.rtt ==> Run(s1, acks).rtt == Run(s2, acks).rtt
    ensures forall i :: 0 <= i < HistoryLen && HistoryLen - |acks| <= i ==>
              Run(s1, acks).rtt[i] == Run(s2, acks).rtt[i]
    decreases |acks|
  {
    if acks != [] {
      var earlier, last := acks[..|acks| - 1], acks[|acks| - 1];
      HistoryForgetsStart(s1, s2, earlier);
      var p1, p2 := Run(s1, earlier), Run(s2, earlier);
      assert Run(s1, acks) == Step(p1, last.sendTs, last.ackTs);
      assert Run(s2, acks) == Step(p2, last.sendTs, last.ackTs);
    }
  }

  /** The smoothed RTT after the acknowledgments `acks`, starting from `e0`. */
  function EwmaAfter(e0: real, acks: seq<Ack>): (e: real)
    requires 0.0 <= e0 < Two32 as real
    ensures 0.0 <= e < Two32 as real
    decreases |acks|
  {
    if acks == [] then e0
    else
      var prev, last := EwmaAfter(e0, acks[..|acks| - 1]), acks[|acks| - 1];
      NextEwmaInRange(prev, RttSample(last.sendTs, last.ackTs));
      NextEwma(prev, RttSample(last.sendTs, last.ackTs))
  }

  /** The values the acknowledgments `acks` shift into the history, oldest first: each new
      smoothed RTT, truncated. */
  function Recorded(e0: real, acks: seq<Ack>): (r: seq<u32>)
    requires 0.0 <= e0 < Two32 as real
    ensures |r| == |acks|
    decreases |acks|
  {
    if acks == [] then []
    else Recorded(e0, acks[..|acks| - 1]) + [TruncateU32(EwmaAfter(e0, acks))]
  }

  /** The controller's history is a sliding window: after `acks` it is the starting history
      with the recorded averages shifted in, one per acknowledgment, and the smoothed RTT is
      the one the samples alone determine. */
  lemma {:induction false} RunSlidesRecordedValues(s: State, acks: seq<Ack>)
    requires 0.0 <= s.rttEwma < Two32 as real
    ensures Run(s, acks).rttEwma == EwmaAfter(s.rttEwma, acks)
    ensures Run(s, acks).rtt == ShiftAll(s.rtt, Recorded(s.rttEwma, acks))
    decreases |acks|
  {
    if acks != [] {
      var earlier, last := acks[..|acks| - 1], acks[|acks| - 1];
      RunSlidesRecordedValues(s, earlier);
      var xs := Recorded(s.rttEwma, acks);
      assert xs[..|xs| - 1] == Recorded(s.rttEwma, earlier);
      assert Run(s, acks) == Step(Run(s, earlier), last.sendTs, last.ackTs);
    }
  }

  /** The slots the constructor leaves as written are pushed out of the history by the ninth
      acknowledgment: from then on the history is the one the zeroed start would have. */
  lemma StaleSlotsFlushedAfterNineAcks(stale: Slots, acks: seq<Ack>)
    requires |acks| >= HistoryLen
    ensures Run(InitAsWritten(stale), acks).rtt == Run(Init(), acks).rtt
  {
    RunSlidesRecordedValues(InitAsWritten(stale), acks);
    RunSlidesRecordedValues(Init(), acks);
    ShiftAllForgetsOldHistory(InitAsWritten(stale).rtt, Recorded(0.0, acks));
    ShiftAllForgetsOldHistory(Init().rtt, Recorded(0.0, acks));
  }

  /** A stale value in slot 7 is enough to change the very first decision: sent at 0 and
      acknowledged at 10, the zeroed history predicts 0 and the window grows to 4.8, while the
      history left as written predicts 3000 and the window backs off (to the floor). */
  lemma StaleSlotsSteerFirstAck()
    ensures var stale: Slots := [0, 0, 0, 0, 0, 0, 0, 1000, 0];
      && Step(Init(), 0, 10).window == 4.8
      && Step(InitAsWritten(stale), 0, 10).window == 4.0
      && Step(InitAsWritten(stale), 0, 10).graceEnd == 60
  {
    var stale: Slots := [0, 0, 0, 0, 0, 0, 0, 1000, 0];
    var fixed, asWritten := Step(Init(), 0, 10), Step(InitAsWritten(stale), 0, 10);
    assert fixed.rttEwma == 1.5;
    assert fixed.rtt == [0, 0, 0, 0, 0, 0, 0, 0, 1];
    assert asWritten.rtt == [0, 0, 0, 0, 0, 0, 1000, 0, 1];
  }
}
