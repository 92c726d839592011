/** The two clamps of the LeBail peak-shape code, over exact reals: the
    pseudo-Voigt mixing factor eta is kept in [0, 1] (MixingFact), and a
    negative Caglioti width H^2 is replaced by 1e-12 before its square root
    is taken (CagliottiH). The tangent of the Bragg angle is an input; the
    square root itself is not modelled. */
module PeakShape {

  /** Keep a value in [0, 1]: above 1 becomes 1, below 0 becomes 0. */
  function Clamp01(x: real): (r: real)
    ensures 0.0 <= r <= 1.0
  {
    if x > 1.0 then 1.0 else if x < 0.0 then 0.0 else x
  }

  /** The clamp returns the point of [0, 1] nearest to x, leaves points of
      [0, 1] alone, and never reverses an order. */
  lemma Clamp01Nearest(x: real, y: real)
    requires 0.0 <= y <= 1.0
    ensures (0.0 <= x <= 1.0) ==> Clamp01(x) == x
    ensures Abs(Clamp01(x) - x) <= Abs(y - x)
    ensures x <= y ==> Clamp01(x) <= y
    ensures Clamp01(Clamp01(x)) == Clamp01(x)
  {
  }

  lemma Clamp01Monotone(x: real, y: real)
    requires x <= y
    ensures Clamp01(x) <= Clamp01(y)
  {
  }

  function Abs(x: real): real {
    if x < 0.0 then -x else x
  }

  /** MixingFact: eta = eta1 + eta2 * tth + eta3 * tth^2, clamped to [0, 1]. */
  function MixingFactor(eta1: real, eta2: real, eta3: real, tth: real): (eta: real)
    ensures 0.0 <= eta <= 1.0
  {
    Clamp01(eta1 + eta2 * tth + eta3 * tth * tth)
  }

  /** A mixing factor whose polynomial already lies in [0, 1] is that value. */
  lemma MixingFactorUnclamped(eta1: real, eta2: real, eta3: real, tth: real)
    requires 0.0 <= eta1 + eta2 * tth + eta3 * tth * tth <= 1.0
    ensures MixingFactor(eta1, eta2, eta3, tth) == eta1 + eta2 * tth + eta3 * tth * tth
  {
  }

  const HsqFloor: real := 0.000000000001

  /** Replace a negative square width by 1e-12; zero and positive values pass. */
  function FloorHsq(hsq: real): (r: real)
    ensures r >= 0.0
  {
    if hsq < 0.0 then HsqFloor else hsq
  }

  /** The square width before the square root: U tan^2 + V tan + W, floored. */
  function CagliottiHsq(u: real, v: real, w: real, tanth: real): (hsq: real)
    ensures hsq >= 0.0
  {
    FloorHsq(u * tanth * tanth + v * tanth + w)
  }

  /** The floor changes only negative widths, to a positive one, and is
      idempotent; so the square root always gets a non-negative argument. */
  lemma FloorHsqSpec(hsq: real)
    ensures hsq >= 0.0 ==> FloorHsq(hsq) == hsq
    ensures hsq < 0.0 ==> FloorHsq(hsq) > 0.0 && FloorHsq(hsq) > hsq
    ensures FloorHsq(FloorHsq(hsq)) == FloorHsq(hsq)
  {
  }
}
