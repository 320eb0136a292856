/** The RTT predictor: Lagrange extrapolation of a quadratic through the history slots
    0, IntervalLen and 2 * IntervalLen (taken as the points x = 0, 1, 2), evaluated at the
    next point x = NumTimestamps. */
module Predictor {
  import opened Unsigned
  import opened History

  /** Factor `j` of the Lagrange basis polynomial for point `i`, evaluated at the next point
      x = NumTimestamps, tabulated for the three sample points (see `WeightFormula`). */
  function Weight(i: nat, j: nat): real
    requires i < NumTimestamps && j < NumTimestamps && i != j
  {
    if i == 0 then (if j == 1 then -2.0 else -0.5)
    else if i == 1 then (if j == 0 then 3.0 else -1.0)
    else (if j == 0 then 1.5 else 2.0)
  }

  /** The tabulated weights are the basis factors `(NumTimestamps - j) / (i - j)`. */
  lemma WeightFormula(i: nat, j: nat)
    requires i < NumTimestamps && j < NumTimestamps && i != j
    ensures Weight(i, j) == (NumTimestamps - j) as real / (i - j) as real
  {
  }

  /** Factor `j` of Lagrange term `i`: the sampled slot itself when `i == j`, otherwise the
      basis weight. */
  function Factor(h: Slots, i: nat, j: nat): real
    requires i < NumTimestamps && j < NumTimestamps
  {
    if i == j then h[IntervalLen * i] as real else Weight(i, j)
  }

  /** Lagrange term `i` after its first `j` factors have been multiplied in. */
  function Term(h: Slots, i: nat, j: nat): real
    requires i < NumTimestamps && j <= NumTimestamps
  {
    if j == 0 then 1.0 else Term(h, i, j - 1) * Factor(h, i, j - 1)
  }

  /** The sum of the first `k` complete Lagrange terms. */
  function PartialSum(h: Slots, k: nat): real
    requires k <= NumTimestamps
  {
    if k == 0 then 0.0 else PartialSum(h, k - 1) + Term(h, k - 1, NumTimestamps)
  }

  /** The three Lagrange weights at x = 3 are 1, -3 and 3. */
  lemma PartialSumClosedForm(h: Slots)
    ensures PartialSum(h, NumTimestamps) == h[0] as real - 3.0 * h[3] as real + 3.0 * h[6] as real
  {
    var a, b, c := h[0] as real, h[3] as real, h[6] as real;
    assert Term(h, 0, 3) == a by {
      assert Term(h, 0, 1) == a;
      assert Term(h, 0, 2) == a * -2.0;
    }
    assert Term(h, 1, 3) == -3.0 * b by {
      assert Term(h, 1, 1) == 3.0;
      assert Term(h, 1, 2) == 3.0 * b;
    }
    assert Term(h, 2, 3) == 3.0 * c by {
      assert Term(h, 2, 1) == 1.5;
      assert Term(h, 2, 2) == 3.0;
    }
    assert PartialSum(h, 1) == a;
    assert PartialSum(h, 2) == a - 3.0 * b;
  }

  /** The predicted next RTT: the Lagrange sum, which weighs the sampled slots 1, -3 and 3. */
  function Extrapolate(h: Slots): (p: real)
    ensures p == h[0] as real - 3.0 * h[3] as real + 3.0 * h[6] as real
  {
    PartialSumClosedForm(h);
    PartialSum(h, NumTimestamps)
  }

  /** A flat history predicts its own level. */
  lemma ConstantHistoryPredictsItself(h: Slots, c: u32)
    requires forall i :: 0 <= i < HistoryLen ==> h[i] == c
    ensures Extrapolate(h) == c as real
  {
  }

  /** The prediction is exact on quadratics: if the sampled slots follow
      `a + b*x + q*x*x` at x = 0, 1, 2, the prediction is its value at x = 3. */
  lemma QuadraticPredictedExactly(h: Slots, a: real, b: real, q: real)
    requires h[0] as real == a
    requires h[3] as real == a + b + q
    requires h[6] as real == a + 2.0 * b + 4.0 * q
    ensures Extrapolate(h) == a + 3.0 * b + 9.0 * q
  {
  }

  /** Only slots 0, 3 and 6 influence the prediction. */
  lemma OnlySampledSlotsMatter(h: Slots, g: Slots)
    requires h[0] == g[0] && h[3] == g[3] && h[6] == g[6]
    ensures Extrapolate(h) == Extrapolate(g)
  {
  }
}
