/** The four-stage Runge-Kutta-Chebyshev solver
    (Runge-Kutta-Chebyshev_method/code/Runge-Kutta-Chebyshev.py). A non-spike step
    takes an Euler sub-step of size dt/s and then runs the stage recurrence
      y_new = (1 - alpha) y_prev + alpha y_curr + beta (dt/s) f(y_curr)
    for j = 2..s, with beta_j = 2 omega_j / omega_0 at j = 2 and 4 omega_j / omega_0
    above, omega = 1 + sin(theta)^2 / 3 and alpha = beta / tau.

    The sines are not computed here: the step receives the table of the squares
    sin((j - 1) pi / (2 s))^2 for j = 1..s as an input. */
module Chebyshev {
  import opened Numerics
  import opened NeuronModel
  import opened PreStepSpike

  /** The script's constants (note d = 20 here). */
  const ScriptParams := Params(100.0, -60.0, -40.0, 0.7, 0.03, -2.0, -50.0, 20.0, 35.0)
  const ScriptCurrent := 100.0
  const ScriptInitial := Vec(-60.0, 0.0)
  const ScriptT := 20.0
  const ScriptDt := 0.25
  const ScriptSteps := 80

  const Stages := 4
  const Mu := 1.0
  const Tau := 1.0 / (Mu * Mu)
  const RkcMessage := "RKC update"

  /** `steps = int(T / dt)` evaluates to 80. */
  lemma ScriptStepCount()
    ensures Trunc(ScriptT / ScriptDt) == ScriptSteps
  {
    assert ScriptT / ScriptDt == 80.0;
  }

  /** The damping parameter mu = 1 makes tau = 1, so alpha equals beta. */
  lemma TauIsOne()
    ensures Tau == 1.0
  {
  }

  /** sinSq[m] stands for sin(m pi / (2 s))^2, m = 0..s-1: a square of a sine. */
  ghost predicate SineTable(sinSq: seq<real>) {
    |sinSq| == Stages && forall m :: 0 <= m < |sinSq| ==> 0.0 <= sinSq[m] <= 1.0
  }

  /** omega = 1 + sin(theta)^2 / 3. */
  function Omega(sq: real): (r: real)
    ensures 0.0 <= sq ==> 1.0 <= r
  {
    1.0 + sq / 3.0
  }

  /** beta_j for the stage j = 2..s: factor 2 at j = 2, factor 4 above. */
  function Beta(sinSq: seq<real>, j: nat): real
    requires SineTable(sinSq) && 2 <= j <= Stages
  {
    (if j == 2 then 2.0 else 4.0) * Omega(sinSq[j - 1]) / Omega(sinSq[1])
  }

  /** alpha_j = beta_j / tau. */
  function Alpha(sinSq: seq<real>, j: nat): real
    requires SineTable(sinSq) && 2 <= j <= Stages
  {
    Beta(sinSq, j) / Tau
  }

  /** At j = 2 the stage angle is theta itself, so beta_2 is exactly 2; every beta is
      positive, and with tau = 1 alpha is beta. */
  lemma BetaValues(sinSq: seq<real>, j: nat)
    requires SineTable(sinSq) && 2 <= j <= Stages
    ensures j == 2 ==> Beta(sinSq, j) == 2.0
    ensures Beta(sinSq, j) > 0.0
    ensures Alpha(sinSq, j) == Beta(sinSq, j)
  {
    var o0, oj := Omega(sinSq[1]), Omega(sinSq[j - 1]);
    PositiveQuotient(if j == 2 then 2.0 else 4.0, oj, o0);
    if j == 2 {
      CancelFactor(2.0, o0);
    }
  }

  lemma CancelFactor(f: real, x: real)
    requires x != 0.0
    ensures f * x / x == f
  {
  }

  lemma PositiveQuotient(f: real, x: real, y: real)
    requires f > 0.0 && x > 0.0 && y > 0.0
    ensures f * x / y > 0.0
  {
    assert f * x > 0.0;
  }

  /** The first stage y1 = y0 + (dt/s) f(y0). */
  function FirstStage(p: Params, I: real, dt: real, y0: Vec): Vec {
    EulerStep(p, y0, I, dt / Stages as real)
  }

  /** One stage of the recurrence with the weights alpha and beta and the sub-step h. */
  function Stage(p: Params, I: real, alpha: real, beta: real, h: real, prev: Vec, curr: Vec): Vec {
    prev.Times(1.0 - alpha).Plus(curr.Times(alpha)).Plus(Derivative(p, curr, I).Times(beta * h))
  }

  /** Stage j of the recurrence, with h = dt/s. */
  function StageUpdate(p: Params, I: real, dt: real, sinSq: seq<real>, j: nat, prev: Vec, curr: Vec): Vec
    requires SineTable(sinSq) && 2 <= j <= Stages
  {
    Stage(p, I, Alpha(sinSq, j), Beta(sinSq, j), dt / Stages as real, prev, curr)
  }

  /** The value of y_curr after the stages j..s, starting from (prev, curr). */
  function Recurrence(p: Params, I: real, dt: real, sinSq: seq<real>, j: nat, prev: Vec, curr: Vec): Vec
    requires SineTable(sinSq) && 2 <= j
    decreases Stages + 1 - j
  {
    if j > Stages then curr
    else Recurrence(p, I, dt, sinSq, j + 1, curr, StageUpdate(p, I, dt, sinSq, j, prev, curr))
  }

  /** The RKC result from a non-spiking state y0. */
  function RkcStep(p: Params, I: real, dt: real, sinSq: seq<real>, y0: Vec): Vec
    requires SineTable(sinSq)
  {
    Recurrence(p, I, dt, sinSq, 2, y0, FirstStage(p, I, dt, y0))
  }

  /** The step as the function the shared driver takes; it always reports s stages. */
  function ChebyshevStep(p: Params, I: real, dt: real, sinSq: seq<real>): Vec -> Advance
    requires SineTable(sinSq)
  {
    (y: Vec) => Advance(RkcStep(p, I, dt, sinSq, y), Stages)
  }

  /** The stage loop `for j in range(2, s + 1)` of `rkc_solver`, on the two state
      variables y_prev and y_curr. */
  method RkcUpdate(p: Params, I: real, dt: real, sinSq: seq<real>, current: Vec) returns (y: Vec)
    requires SineTable(sinSq)
    ensures y == RkcStep(p, I, dt, sinSq, current)
  {
    var s := Stages;
    var h := dt / s as real;
    var f0 := Derivative(p, current, I);
    var y1 := current.Plus(f0.Times(h));
    var yPrev, yCurr := current, y1;
    for j := 2 to s + 1
      invariant Recurrence(p, I, dt, sinSq, j, yPrev, yCurr) == RkcStep(p, I, dt, sinSq, current)
    {
      var yNew := StageStep(p, I, h, sinSq, j, yPrev, yCurr);
      yPrev, yCurr := yCurr, yNew;
    }
    y := yCurr;
  }

  /** One pass of the stage loop: the weights of stage j, the slope at y_curr, and
      the blend. */
  method StageStep(p: Params, I: real, h: real, sinSq: seq<real>, j: nat, yPrev: Vec, yCurr: Vec)
    returns (yNew: Vec)
    requires SineTable(sinSq) && 2 <= j <= Stages
    ensures yNew == Stage(p, I, Alpha(sinSq, j), Beta(sinSq, j), h, yPrev, yCurr)
  {
    var beta := (if j == 2 then 2.0 else 4.0) * Omega(sinSq[j - 1]) / Omega(sinSq[1]);
    var alpha := beta / Tau;
    var fj := Derivative(p, yCurr, I);
    yNew := yPrev.Times(1.0 - alpha).Plus(yCurr.Times(alpha)).Plus(fj.Times(beta * h));
  }

  /** The blend weights 1 - alpha and alpha sum to one. */
  lemma Blend(alpha: real, x: real)
    ensures (1.0 - alpha) * x + alpha * x == x
  {
  }

  /** An equilibrium is kept by every stage: the blend of two copies of it is itself
      and the slope term vanishes. */
  lemma StageAtRest(p: Params, I: real, dt: real, sinSq: seq<real>, j: nat, y: Vec)
    requires SineTable(sinSq) && 2 <= j <= Stages && Derivative(p, y, I) == Zero
    ensures StageUpdate(p, I, dt, sinSq, j, y, y) == y
  {
    var alpha := Alpha(sinSq, j);
    Blend(alpha, y.v);
    Blend(alpha, y.w);
  }

  lemma {:induction false} RecurrenceAtRest(p: Params, I: real, dt: real, sinSq: seq<real>, j: nat, y: Vec)
    requires SineTable(sinSq) && 2 <= j && Derivative(p, y, I) == Zero
    ensures Recurrence(p, I, dt, sinSq, j, y, y) == y
    decreases Stages + 1 - j
  {
    if j <= Stages {
      StageAtRest(p, I, dt, sinSq, j, y);
      RecurrenceAtRest(p, I, dt, sinSq, j + 1, y);
    }
  }

  /** An equilibrium state is a fixed point of the whole RKC step. */
  lemma RestIsFixedPoint(p: Params, I: real, dt: real, sinSq: seq<real>, y: Vec)
    requires SineTable(sinSq) && Derivative(p, y, I) == Zero
    ensures ChebyshevStep(p, I, dt, sinSq)(y) == Advance(y, Stages)
  {
    EulerAtRest(p, y, I, dt / Stages as real);
    RecurrenceAtRest(p, I, dt, sinSq, 2, y);
  }

  /** Every normal record reports s = 4 stages; spike records report none. */
  lemma RecordedIterations(p: Params, I: real, dt: real, sinSq: seq<real>, y0: Vec, n: nat, i: nat)
    requires SineTable(sinSq) && i < n
    ensures var rec := Run(p, ChebyshevStep(p, I, dt, sinSq), dt, RkcMessage, y0, n).records[i];
      if rec.message == SpikeMessage then rec.iterations == 0 else rec.iterations == Stages
  {
    RecordedIterationsWithin(p, ChebyshevStep(p, I, dt, sinSq), dt, RkcMessage, y0, n, i, Stages, Stages);
  }

  /** `rkc_solver()`: fills v[0..steps] and w[0..steps] in place and appends one
      record per step. */
  method Simulate(p: Params, I: real, dt: real, sinSq: seq<real>, steps: nat, y0: Vec)
    returns (v: array<real>, w: array<real>, iterationData: seq<IterationRecord>)
    requires SineTable(sinSq)
    ensures fresh(v) && fresh(w)
    ensures var tr := Run(p, ChebyshevStep(p, I, dt, sinSq), dt, RkcMessage, y0, steps);
      v[..] == tr.vs && w[..] == tr.ws && iterationData == tr.records
  {
    v := new real[steps + 1](_ => 0.0);
    w := new real[steps + 1](_ => 0.0);
    v[0] := y0.v;
    w[0] := y0.w;
    iterationData := [];
    for i := 0 to steps
      invariant v != w
      invariant var tr := Run(p, ChebyshevStep(p, I, dt, sinSq), dt, RkcMessage, y0, i);
        v[..i + 1] == tr.vs && w[..i + 1] == tr.ws && iterationData == tr.records
    {
      ghost var tr := Run(p, ChebyshevStep(p, I, dt, sinSq), dt, RkcMessage, y0, i);
      RunUnfold(p, ChebyshevStep(p, I, dt, sinSq), dt, RkcMessage, y0, i);
      var record := StepInPlace(p, I, dt, sinSq, v, w, i, tr);
      iterationData := iterationData + [record];
    }
  }

  /** Step i of the loop body on the arrays: the spike branch or one RKC update. */
  method StepInPlace(p: Params, I: real, dt: real, sinSq: seq<real>, v: array<real>, w: array<real>, i: nat,
                     ghost tr: Trajectory)
    returns (record: IterationRecord)
    requires SineTable(sinSq)
    requires v != w && i + 1 < v.Length && i + 1 < w.Length
    requires WellFormed(tr) && |tr.records| == i && v[..i + 1] == tr.vs && w[..i + 1] == tr.ws
    modifies v, w
    ensures var r := Step(p, ChebyshevStep(p, I, dt, sinSq), dt, RkcMessage, tr);
      v[..i + 2] == r.vs && w[..i + 2] == r.ws && r.records == tr.records + [record]
  {
    assert v[i] == tr.vs[i] && w[i] == tr.ws[i];
    if v[i] >= p.vpeak {
      SpikeStepShape(p, ChebyshevStep(p, I, dt, sinSq), dt, RkcMessage, tr, i);
      v[i] := p.vpeak;
      v[i + 1] := p.c;
      w[i + 1] := w[i] + p.d;
      record := IterationRecord(i, i as real * dt, v[i], w[i], 0, v[i + 1], w[i + 1], SpikeMessage);
      assert v[..i + 2] == tr.vs[i := p.vpeak] + [p.c];
      assert w[..i + 2] == tr.ws + [tr.ws[i] + p.d];
    } else {
      var current := Vec(v[i], w[i]);
      var next := RkcUpdate(p, I, dt, sinSq, current);
      NormalStepShape(p, ChebyshevStep(p, I, dt, sinSq), dt, RkcMessage, tr, i, Advance(next, Stages));
      v[i + 1] := next.v;
      w[i + 1] := next.w;
      record := IterationRecord(i, i as real * dt, current.v, current.w, Stages, next.v, next.w, RkcMessage);
      assert v[..i + 2] == tr.vs + [next.v];
      assert w[..i + 2] == tr.ws + [next.w];
    }
  }
}
