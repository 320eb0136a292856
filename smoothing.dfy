/** The exponentially weighted moving average of the RTT samples. */
module Smoothing {
  import opened Unsigned

  /** Weight of the newest sample. */
  const Gamma: real := 0.15

  /** The smoothed RTT after observing `sample`. It lies between the previous average and the
      sample, and its distance to the sample is the previous distance scaled by `1 - Gamma`. */
  function NextEwma(ewma: real, sample: u32): (e: real)
    ensures ewma <= sample as real ==> ewma <= e <= sample as real
    ensures sample as real <= ewma ==> sample as real <= e <= ewma
    ensures e - sample as real == (1.0 - Gamma) * (ewma - sample as real)
  {
    Gamma * sample as real + (1.0 - Gamma) * ewma
  }

  /** The average stays in the range an `unsigned int` slot can hold, since every sample does. */
  lemma NextEwmaInRange(ewma: real, sample: u32)
    requires 0.0 <= ewma < Two32 as real
    ensures 0.0 <= NextEwma(ewma, sample) < Two32 as real
  {
  }

  function Pow(b: real, n: nat): real
  {
    if n == 0 then 1.0 else b * Pow(b, n - 1)
  }

  /** The average after observing the same sample `n` times. */
  function Repeat(ewma: real, sample: u32, n: nat): real
  {
    if n == 0 then ewma else NextEwma(Repeat(ewma, sample, n - 1), sample)
  }

  lemma Regroup(a: real, b: real, c: real)
    ensures a * (b * c) == (a * b) * c
  {
  }

  /** Feeding a constant sample shrinks the distance to it geometrically, by `1 - Gamma` per
      observation. */
  lemma {:induction false} RepeatConverges(ewma: real, sample: u32, n: nat)
    ensures Repeat(ewma, sample, n) - sample as real == Pow(1.0 - Gamma, n) * (ewma - sample as real)
  {
    if n > 0 {
      RepeatConverges(ewma, sample, n - 1);
      var gap, factor := ewma - sample as real, 1.0 - Gamma;
      var previous := Repeat(ewma, sample, n - 1);
      assert Repeat(ewma, sample, n) - sample as real == factor * (previous - sample as real);
      Regroup(factor, Pow(factor, n - 1), gap);
    }
  }

  /** Feeding a constant sample never overshoots it: the average stays between where it started
      and the sample. */
  lemma {:induction false} RepeatStaysBetween(ewma: real, sample: u32, n: nat)
    ensures ewma <= sample as real ==> ewma <= Repeat(ewma, sample, n) <= sample as real
    ensures sample as real <= ewma ==> sample as real <= Repeat(ewma, sample, n) <= ewma
  {
    if n > 0 {
      RepeatStaysBetween(ewma, sample, n - 1);
    }
  }
}
