/** The congestion controller object: the fields it updates in place and its public operations. */
module Datagrump {
  import opened Unsigned
  import opened History
  import opened Smoothing
  import opened Predictor
  import opened Hysteresis
  import opened ControllerSpec

  /** Retransmission timeout reported to the sender, in milliseconds. */
  const TimeoutMillis: u32 := 300

  class Controller {
    /** Enables the trace output, which this model leaves out. */
    const debug: bool
    var window: real
    var rttEwma: real
    var graceEnd: u32
    /** The RTT history, oldest slot first. */
    const rtt: array<u32>

    /** The history has its nine slots, and the fields satisfy the state machine's invariant. */
    ghost predicate Valid()
      reads this
    {
      rtt.Length == HistoryLen && window >= MinWindow as real && 0.0 <= rttEwma < Two32 as real
    }

    /** The fields as a value of the state machine. */
    ghost function Abstract(): (s: State)
      reads this, rtt
      requires Valid()
    {
      State(window, rttEwma, graceEnd, rtt[..])
    }

    /** Starts with the floor window, no smoothed RTT, no grace period and every history slot
        zeroed. */
    constructor (debug: bool)
      ensures Valid() && fresh(rtt)
      ensures Abstract() == Init()
      ensures this.debug == debug
    {
      this.debug := debug;
      window := MinWindow as real;
      rttEwma := 0.0;
      graceEnd := 0;
      rtt := new u32[HistoryLen];
      new;
      for i := 0 to HistoryLen
        modifies rtt
        invariant forall k :: 0 <= k < i ==> rtt[k] == 0
      {
        rtt[i] := 0;
      }
    }

    /** The constructor as written: its loop stops after `NumTimestamps` slots, so the slots
        from `NumTimestamps` on keep whatever the fresh array held. */
    constructor AsWritten(debug: bool)
      ensures Valid() && fresh(rtt)
      ensures Abstract() == InitAsWritten(rtt[..])
      ensures this.debug == debug
    {
      this.debug := debug;
      window := MinWindow as real;
      rttEwma := 0.0;
      graceEnd := 0;
      rtt := new u32[HistoryLen];
      new;
      for i := 0 to NumTimestamps
        modifies rtt
        invariant forall k :: 0 <= k < i ==> rtt[k] == 0
      {
        rtt[i] := 0;
      }
    }

    /** The window as a whole number of datagrams, rounded toward zero: never below the floor
        and within one of the internal window. */
    function WindowSize(): (n: nat)
      reads this
      requires Valid()
      ensures n >= MinWindow
      ensures n as real <= window < n as real + 1.0
    {
      Truncate(window)
    }

    /** Sending a datagram changes nothing. */
    method DatagramWasSent(sequenceNumber: u64, sendTimestamp: u64)
      ensures unchanged(this) && unchanged(rtt)
    {
    }

    /** The predicted next RTT, computed as the source does: one running product per Lagrange
        term over a scratch array, then their sum. */
    method Interpolate() returns (predicted: real)
      requires rtt.Length == HistoryLen
      ensures predicted == Extrapolate(rtt[..])
      ensures predicted == rtt[0] as real - 3.0 * rtt[3] as real + 3.0 * rtt[6] as real
    {
      ghost var h: Slots := rtt[..];
      var total := new real[NumTimestamps];
      for i := 0 to NumTimestamps
        modifies total
        invariant forall k :: 0 <= k < i ==> total[k] == 1.0
      {
        total[i] := 1.0;
      }
      for i := 0 to NumTimestamps
        modifies total
        invariant forall k :: 0 <= k < i ==> total[k] == Term(h, k, NumTimestamps)
        invariant forall k :: i <= k < NumTimestamps ==> total[k] == 1.0
      {
        for j := 0 to NumTimestamps
          modifies total
          invariant total[i] == Term(h, i, j)
          invariant forall k :: 0 <= k < i ==> total[k] == Term(h, k, NumTimestamps)
          invariant forall k :: i < k < NumTimestamps ==> total[k] == 1.0
        {
          if i == j {
            total[i] := total[i] * rtt[IntervalLen * i] as real;
          } else {
            total[i] := total[i] * Weight(i, j);
          }
        }
      }
      var sum := 0.0;
      for i := 0 to NumTimestamps
        invariant sum == PartialSum(h, i)
      {
        sum := sum + total[i];
      }
      predicted := sum;
    }

    /** An acknowledgment: the history shifts left in place, the smoothed RTT takes the new
        sample and its truncation fills the newest slot, and the window and deadline follow the
        hysteresis rule on the predicted RTT. */
    method AckReceived(sequenceNumberAcked: u64, sendTimestampAcked: u64,
                       recvTimestampAcked: u64, timestampAckReceived: u64)
      requires Valid()
      modifies this, rtt
      ensures Valid()
      ensures Abstract() == Step(old(Abstract()), sendTimestampAcked, timestampAckReceived)
    {
      var delta := RttSample(sendTimestampAcked, timestampAckReceived);

      for i := 0 to HistoryLen - 1
        modifies rtt
        invariant forall k :: 0 <= k < i ==> rtt[k] == old(rtt[k + 1])
        invariant forall k :: i <= k < HistoryLen ==> rtt[k] == old(rtt[k])
      {
        rtt[i] := rtt[i + 1];
      }
      NextEwmaInRange(rttEwma, delta);
      rttEwma := NextEwma(rttEwma, delta);
      rtt[HistoryLen - 1] := TruncateU32(rttEwma);
      var predicted := Interpolate();

      if timestampAckReceived < graceEnd {
        // within the grace period: no move
      } else if predicted >= MaxRtt as real {
        window := window * WindowDecay;
        graceEnd := GraceDeadline(timestampAckReceived);
      } else if predicted <= MinRtt as real {
        window := window * WindowGrow;
        graceEnd := GraceDeadline(timestampAckReceived);
      }

      if window < MinWindow as real {
        window := MinWindow as real;
      }
      assert rtt[..] == ShiftIn(old(rtt[..]), TruncateU32(rttEwma));
    }

    /** A timeout changes nothing. */
    method TimeoutOccurred()
      ensures unchanged(this) && unchanged(rtt)
    {
    }

    /** The retransmission timeout does not depend on the state. */
    function TimeoutMs(): (t: u32)
      ensures t == 300
    {
      TimeoutMillis
    }
  }
}
