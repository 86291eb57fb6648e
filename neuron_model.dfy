/** The two-variable Izhikevich neuron shared by every integrator:
      C dv/dt = k (v - vr)(v - vt) - w + I
        dw/dt = a (b (v - vr) - w)
    with the spike cutoff `vpeak` and the after-spike reset `v := c`, `w := w + d`.
    The physical constants are one immutable record passed to every operation. */
module NeuronModel {

  type NonZeroReal = x: real | x != 0.0 witness 1.0

  /** The model constants: capacitance C, resting and threshold potentials vr and vt,
      gain k, recovery time scale a, sensitivity b, reset value c, reset increment d,
      spike cutoff vpeak. */
  datatype Params = Params(C: NonZeroReal, vr: real, vt: real, k: real, a: real, b: real,
                           c: real, d: real, vpeak: real)

  /** A point (v, w) of the state space, also used for a slope (dv, dw). */
  datatype Vec = Vec(v: real, w: real) {
    function Plus(o: Vec): Vec { Vec(v + o.v, w + o.w) }
    function Minus(o: Vec): Vec { Vec(v - o.v, w - o.w) }
    function Times(s: real): Vec { Vec(s * v, s * w) }
  }

  const Zero := Vec(0.0, 0.0)

  /** dv/dt, the voltage equation of the model. */
  function Dv(p: Params, v: real, w: real, I: real): real {
    (p.k * (v - p.vr) * (v - p.vt) - w + I) / p.C
  }

  /** dw/dt, the recovery equation of the model. */
  function Dw(p: Params, v: real, w: real): real {
    p.a * (p.b * (v - p.vr) - w)
  }

  /** The right-hand side of the ODE at state y under input current I. */
  function Derivative(p: Params, y: Vec, I: real): Vec {
    Vec(Dv(p, y.v, y.w, I), Dw(p, y.v, y.w))
  }

  /** A state is an equilibrium of the model exactly when w sits on the w-nullcline
      b (v - vr) and the voltage equation balances (needs a != 0). */
  predicate IsEquilibrium(p: Params, y: Vec, I: real) {
    y.w == p.b * (y.v - p.vr) && p.k * (y.v - p.vr) * (y.v - p.vt) - y.w + I == 0.0
  }

  lemma EquilibriumIff(p: Params, y: Vec, I: real)
    requires p.a != 0.0
    ensures Derivative(p, y, I) == Zero <==> IsEquilibrium(p, y, I)
  {
    var r := Derivative(p, y, I);
    if r == Zero {
      assert p.a * (p.b * (y.v - p.vr) - y.w) == 0.0;
      NonZeroProduct(p.a, p.b * (y.v - p.vr) - y.w);
      assert p.C * 0.0 == 0.0;
    }
  }

  lemma NonZeroProduct(x: real, y: real)
    requires x != 0.0 && x * y == 0.0
    ensures y == 0.0
  {
  }

  /** One explicit Euler step y + h f(y). */
  function EulerStep(p: Params, y: Vec, I: real, h: real): Vec {
    y.Plus(Derivative(p, y, I).Times(h))
  }

  /** An equilibrium is a fixed point of the Euler step, whatever the step size. */
  lemma EulerAtRest(p: Params, y: Vec, I: real, h: real)
    requires Derivative(p, y, I) == Zero
    ensures EulerStep(p, y, I, h) == y
  {
  }

  /** The after-spike state: v reset to c and w incremented by d. */
  function Reset(p: Params, w: real): Vec {
    Vec(p.c, w + p.d)
  }

  /** With the reset value below the cutoff, the after-spike state lies below the
      cutoff, so the next spike check does not fire on it. */
  lemma ResetRearms(p: Params, w: real)
    requires p.c < p.vpeak
    ensures Reset(p, w).v < p.vpeak
  {
  }
}
