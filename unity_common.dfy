/** What the two Unity `NeuronDynamics` MonoBehaviours share: the slider values that
    feed the model, the constants set in the Inspector, the frame timer's step of
    1 ms, and the explicit Euler update with the reset on an upward crossing of the
    cutoff. */
module UnityCommon {
  import opened NeuronModel

  /** The five slider values (input current I, capacitance C, gain k, a and b), read
      when a step runs. */
  datatype Sliders = Sliders(I: real, C: NonZeroReal, k: real, a: real, b: real)

  /** The Inspector constants: vr, vt, c, d, v_peak and the integration step h. */
  datatype Settings = Settings(vr: real, vt: real, c: real, d: real, vPeak: real, h: real)

  /** The field initialisers of both scripts. */
  const Defaults := Settings(-60.0, -40.0, -50.0, 100.0, 35.0, 1.0)

  /** `simulationStep`, 1 ms in seconds. */
  const SimulationStep := 0.001

  /** The model constants as the step sees them: the sliders' live values and the
      Inspector constants. */
  function ParamsOf(s: Settings, sl: Sliders): Params {
    Params(sl.C, s.vr, s.vt, sl.k, sl.a, sl.b, s.c, s.d, s.vPeak)
  }

  /** The reset test of the Euler steps: the voltage before the step was below the
      cutoff and the voltage after it is at or above it. */
  predicate Crossing(p: Params, vOld: real, v: real) {
    vOld < p.vpeak && v >= p.vpeak
  }

  /** The Euler step of both scripts: `v += h * dvdt`, `w += h * dwdt` from the
      pre-step values, then `v = c`, `w += d` on an upward crossing. */
  function CrossingStep(p: Params, I: real, h: real, y: Vec): Vec {
    var next := EulerStep(p, y, I, h);
    if Crossing(p, y.v, next.v) then Reset(p, next.w) else next
  }

  /** With a non-zero increment d, the step departs from the plain Euler update
      exactly on an upward crossing, and then it lands on v = c. */
  lemma ResetIffCrossing(p: Params, I: real, h: real, y: Vec)
    requires p.d != 0.0
    ensures var next := EulerStep(p, y, I, h);
      (CrossingStep(p, I, h, y) != next <==> Crossing(p, y.v, next.v))
      && (Crossing(p, y.v, next.v) ==> CrossingStep(p, I, h, y) == Reset(p, next.w))
  {
  }

  /** A state already at or above the cutoff is never reset, even when the update
      leaves it above the cutoff. */
  lemma NoResetFromAbove(p: Params, I: real, h: real, y: Vec)
    requires y.v >= p.vpeak
    ensures CrossingStep(p, I, h, y) == EulerStep(p, y, I, h)
  {
  }

  /** With the reset value below the cutoff, a state below the cutoff stays below
      it, so every later step can still detect its crossing. */
  lemma BelowPeakIsKept(p: Params, I: real, h: real, y: Vec)
    requires p.c < p.vpeak && y.v < p.vpeak
    ensures CrossingStep(p, I, h, y).v < p.vpeak
  {
  }

  /** An equilibrium below the cutoff is a fixed point of the step. */
  lemma CrossingStepAtRest(p: Params, I: real, h: real, y: Vec)
    requires Derivative(p, y, I) == Zero && y.v < p.vpeak
    ensures CrossingStep(p, I, h, y) == y
  {
    EulerAtRest(p, y, I, h);
  }
}
