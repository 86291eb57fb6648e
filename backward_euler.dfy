/** Backward Euler with Newton iteration (Backward_Euler_method/code/Backward_Euler_Method.py).
    Each non-spike step solves  y' = y + dt f(y')  for y' by Newton's method started
    from the explicit Euler guess, using the analytic 2x2 Jacobian of the residual and
    Cramer's rule; it stops on convergence (both updates below 1e-6), on a zero
    determinant (keeping the current guess), or after 100 iterations. */
module BackwardEuler {
  import opened Numerics
  import opened NeuronModel
  import opened PreStepSpike

  /** The script's constants. */
  const ScriptParams := Params(100.0, -60.0, -40.0, 0.7, 0.03, -2.0, -50.0, 100.0, 35.0)
  const ScriptCurrent := 100.0
  const ScriptInitial := Vec(-60.0, 0.0)
  const ScriptT := 1000.0
  const ScriptDt := 0.25
  const ScriptSteps := 4000

  const Tolerance := 0.000001
  const MaxIter := 100
  const NormalMessage := "Normal update"
  const ExceedsMessage := "Time exceeds simulation duration"

  /** `steps = int(T / dt)` evaluates to 4000 for the script's horizon and step. */
  lemma ScriptStepCount()
    ensures Trunc(ScriptT / ScriptDt) == ScriptSteps
  {
    assert ScriptT / ScriptDt == 4000.0;
  }

  // ---------------------------------------------------------------------------
  // The Newton system

  /** F(y') = y' - y - dt f(y'), whose root is the Backward Euler step from y. */
  function Residual(p: Params, I: real, dt: real, current: Vec, guess: Vec): Vec {
    guess.Minus(current).Minus(Derivative(p, guess, I).Times(dt))
  }

  datatype Matrix = Matrix(j11: real, j12: real, j21: real, j22: real) {
    function Apply(x: Vec): Vec { Vec(j11 * x.v + j12 * x.w, j21 * x.v + j22 * x.w) }
    function Det(): real { j11 * j22 - j12 * j21 }
  }

  /** The analytic Jacobian of the residual at the guess. */
  function Jacobian(p: Params, dt: real, guess: Vec): Matrix {
    Matrix(1.0 - dt * (p.k * (2.0 * guess.v - p.vr - p.vt) / p.C),
           -dt * (-1.0 / p.C),
           -dt * (p.a * p.b),
           1.0 - dt * (-p.a))
  }

  /** The Jacobian is exactly the derivative of the residual: moving the guess by
      delta changes the residual by J delta plus the quadratic remainder of the
      voltage equation, and nothing else. */
  lemma JacobianIsDerivative(p: Params, I: real, dt: real, current: Vec, guess: Vec, delta: Vec)
    ensures Residual(p, I, dt, current, guess.Plus(delta))
         == Residual(p, I, dt, current, guess).Plus(Jacobian(p, dt, guess).Apply(delta))
                                               .Plus(Vec(-dt * p.k * delta.v * delta.v / p.C, 0.0))
  {
    VoltageExpansion(p, I, dt, current, guess, delta);
    RecoveryExpansion(p, I, dt, current, guess, delta);
  }

  lemma VoltageExpansion(p: Params, I: real, dt: real, current: Vec, guess: Vec, delta: Vec)
    ensures Residual(p, I, dt, current, guess.Plus(delta)).v
         == Residual(p, I, dt, current, guess).v + Jacobian(p, dt, guess).Apply(delta).v
            + -dt * p.k * delta.v * delta.v / p.C
  {
    var J := Jacobian(p, dt, guess);
    ResidualParts(p, I, dt, current, guess);
    ResidualParts(p, I, dt, current, guess.Plus(delta));
    VoltageShift(guess.v, delta.v, guess.w, delta.w, current.v, dt, p.k, p.vr, p.vt, I, p.C,
                 Dv(p, guess.v + delta.v, guess.w + delta.w, I), Dv(p, guess.v, guess.w, I), J.j11, J.j12);
  }

  lemma RecoveryExpansion(p: Params, I: real, dt: real, current: Vec, guess: Vec, delta: Vec)
    ensures Residual(p, I, dt, current, guess.Plus(delta)).w
         == Residual(p, I, dt, current, guess).w + Jacobian(p, dt, guess).Apply(delta).w
  {
    var J := Jacobian(p, dt, guess);
    ResidualParts(p, I, dt, current, guess);
    ResidualParts(p, I, dt, current, guess.Plus(delta));
    RecoveryShift(guess.v, delta.v, guess.w, delta.w, current.w, dt, p.a, p.b, p.vr,
                  Dw(p, guess.v + delta.v, guess.w + delta.w), Dw(p, guess.v, guess.w), J.j21, J.j22);
  }

  lemma ResidualParts(p: Params, I: real, dt: real, current: Vec, guess: Vec)
    ensures Residual(p, I, dt, current, guess)
         == Vec(guess.v - current.v - dt * Dv(p, guess.v, guess.w, I), guess.w - current.w - dt * Dw(p, guess.v, guess.w))
  {
    var f := Derivative(p, guess, I);
    assert f == Vec(Dv(p, guess.v, guess.w, I), Dw(p, guess.v, guess.w));
    assert f.Times(dt) == Vec(dt * f.v, dt * f.w);
    assert guess.Minus(current) == Vec(guess.v - current.v, guess.w - current.w);
  }

  /** The voltage component of the expansion. */
  lemma VoltageShift(x: real, e: real, w: real, f: real, cv: real, dt: real,
                     k: real, vr: real, vt: real, I: real, C: NonZeroReal,
                     dvMoved: real, dvHere: real, j11: real, j12: real)
    requires dvMoved == (k * (x + e - vr) * (x + e - vt) - (w + f) + I) / C
    requires dvHere == (k * (x - vr) * (x - vt) - w + I) / C
    requires j11 == 1.0 - dt * (k * (2.0 * x - vr - vt) / C) && j12 == -dt * (-1.0 / C)
    ensures (x + e - cv) - dt * dvMoved == (x - cv - dt * dvHere) + (j11 * e + j12 * f) + -dt * k * e * e / C
  {
    var inv := 1.0 / C;
    DivIsMul(k * (x + e - vr) * (x + e - vt) - (w + f) + I, C);
    DivIsMul(k * (x - vr) * (x - vt) - w + I, C);
    DivIsMul(k * (2.0 * x - vr - vt), C);
    DivIsMul(-1.0, C);
    DivIsMul(-dt * k * e * e, C);
    ShiftIdentity(x, e, w, f, cv, dt, k, vr, vt, I, inv);
  }

  lemma ShiftIdentity(x: real, e: real, w: real, f: real, cv: real, dt: real,
                      k: real, vr: real, vt: real, I: real, inv: real)
    ensures (x + e - cv) - dt * ((k * (x + e - vr) * (x + e - vt) - (w + f) + I) * inv)
         == (x - cv - dt * ((k * (x - vr) * (x - vt) - w + I) * inv))
            + ((1.0 - dt * ((k * (2.0 * x - vr - vt)) * inv)) * e + (-dt * (-1.0 * inv)) * f)
            + (-dt * k * e * e) * inv
  {
  }

  /** The recovery component of the expansion, which is linear. */
  lemma RecoveryShift(x: real, e: real, w: real, f: real, cw: real, dt: real, a: real, b: real, vr: real,
                      dwMoved: real, dwHere: real, j21: real, j22: real)
    requires dwMoved == a * (b * (x + e - vr) - (w + f)) && dwHere == a * (b * (x - vr) - w)
    requires j21 == -dt * (a * b) && j22 == 1.0 - dt * (-a)
    ensures (w + f - cw) - dt * dwMoved == (w - cw - dt * dwHere) + (j21 * e + j22 * f)
  {
  }

  lemma DivIsMul(z: real, c: NonZeroReal)
    ensures z / c == z * (1.0 / c)
  {
  }

  /** Cramer's rule for the 2x2 update. */
  function CramerSolve(m: Matrix, F: Vec): Vec
    requires m.Det() != 0.0
  {
    var det := m.Det();
    Vec((F.w * m.j12 - F.v * m.j22) / det, (F.v * m.j21 - F.w * m.j11) / det)
  }

  /** The Cramer update solves J delta = -F. */
  lemma CramerSolves(m: Matrix, F: Vec)
    requires m.Det() != 0.0
    ensures m.Apply(CramerSolve(m, F)) == Vec(-F.v, -F.w)
  {
    CramerIdentity(m.j11, m.j12, m.j21, m.j22, F.v, F.w);
  }

  lemma CramerIdentity(j11: real, j12: real, j21: real, j22: real, f1: real, f2: real)
    requires j11 * j22 - j12 * j21 != 0.0
    ensures var det := j11 * j22 - j12 * j21;
      var dv, dw := (f2 * j12 - f1 * j22) / det, (f1 * j21 - f2 * j11) / det;
      j11 * dv + j12 * dw == -f1 && j21 * dv + j22 * dw == -f2
  {
    var det := j11 * j22 - j12 * j21;
    var nv, nw := f2 * j12 - f1 * j22, f1 * j21 - f2 * j11;
    assert j11 * nv + j12 * nw == -f1 * det;
    assert j21 * nv + j22 * nw == -f2 * det;
    assert j11 * (nv / det) + j12 * (nw / det) == (j11 * nv + j12 * nw) / det;
    assert j21 * (nv / det) + j22 * (nw / det) == (j21 * nv + j22 * nw) / det;
  }

  // ---------------------------------------------------------------------------
  // The Newton loop

  datatype NewtonExit = Converged | SingularJacobian | IterationCap

  /** Where the loop stops: the final guess, the iteration count it reports, how it
      ended, and the last update it applied (none when it never applied one). */
  datatype NewtonResult = NewtonResult(guess: Vec, iterations: nat, exit: NewtonExit, lastDelta: Option<Vec>)

  predicate SmallUpdate(delta: Vec) {
    Abs(delta.v) < Tolerance && Abs(delta.w) < Tolerance
  }

  /** The Newton loop continued from `guess` after `count` iterations. */
  function NewtonFrom(p: Params, I: real, dt: real, current: Vec, guess: Vec, count: nat,
                      lastDelta: Option<Vec>): (r: NewtonResult)
    requires count <= MaxIter
    ensures count <= r.iterations <= MaxIter
    ensures count < MaxIter ==> count < r.iterations
    ensures r.exit == Converged ==> r.lastDelta.Some? && SmallUpdate(r.lastDelta.value)
    ensures r.exit == IterationCap ==> r.iterations == MaxIter
    decreases MaxIter - count
  {
    if count == MaxIter then NewtonResult(guess, count, IterationCap, lastDelta)
    else
      var m := Jacobian(p, dt, guess);
      if m.Det() == 0.0 then NewtonResult(guess, count + 1, SingularJacobian, lastDelta)
      else
        var delta := CramerSolve(m, Residual(p, I, dt, current, guess));
        var next := guess.Plus(delta);
        if SmallUpdate(delta) then NewtonResult(next, count + 1, Converged, Some(delta))
        else NewtonFrom(p, I, dt, current, next, count + 1, Some(delta))
  }

  /** A zero determinant leaves the loop at once with the guess unchanged. */
  lemma SingularKeepsGuess(p: Params, I: real, dt: real, current: Vec, guess: Vec, count: nat,
                           lastDelta: Option<Vec>)
    requires count < MaxIter && Jacobian(p, dt, guess).Det() == 0.0
    ensures NewtonFrom(p, I, dt, current, guess, count, lastDelta)
         == NewtonResult(guess, count + 1, SingularJacobian, lastDelta)
  {
  }

  /** Each applied update solves the linearised system J delta = -F at the guess it
      starts from, and a converged or capped loop applied at least one. */
  lemma {:induction false} UpdatesSolveLinearSystem(p: Params, I: real, dt: real, current: Vec, guess: Vec,
                                                    count: nat, lastDelta: Option<Vec>)
    requires count < MaxIter && Jacobian(p, dt, guess).Det() != 0.0
    ensures var delta := CramerSolve(Jacobian(p, dt, guess), Residual(p, I, dt, current, guess));
      var F := Residual(p, I, dt, current, guess);
      && Jacobian(p, dt, guess).Apply(delta) == Vec(-F.v, -F.w)
      && NewtonFrom(p, I, dt, current, guess, count, lastDelta)
         == if SmallUpdate(delta) then NewtonResult(guess.Plus(delta), count + 1, Converged, Some(delta))
            else NewtonFrom(p, I, dt, current, guess.Plus(delta), count + 1, Some(delta))
  {
    CramerSolves(Jacobian(p, dt, guess), Residual(p, I, dt, current, guess));
  }

  /** The Newton loop of one step as the script writes it: `iteration_count` goes up
      at the top of every pass, a zero determinant breaks before the update, and a
      small update breaks after it. */
  method NewtonSolve(p: Params, I: real, dt: real, current: Vec, initial: Vec)
    returns (next: Vec, iterationCount: nat)
    ensures var r := NewtonFrom(p, I, dt, current, initial, 0, None);
      next == r.guess && iterationCount == r.iterations
    ensures 1 <= iterationCount <= MaxIter
  {
    ghost var goal := NewtonFrom(p, I, dt, current, initial, 0, None);
    next := initial;
    iterationCount := 0;
    ghost var lastDelta: Option<Vec> := None;
    var done := false;
    while !done && iterationCount < MaxIter
      invariant iterationCount <= MaxIter
      invariant !done ==> goal == NewtonFrom(p, I, dt, current, next, iterationCount, lastDelta)
      invariant done ==> next == goal.guess && iterationCount == goal.iterations
      decreases MaxIter - iterationCount, if done then 0 else 1
    {
      ghost var count, guess := iterationCount, next;
      iterationCount := iterationCount + 1;
      var F := Residual(p, I, dt, current, next);
      var J := Jacobian(p, dt, next);
      if J.Det() == 0.0 {
        SingularKeepsGuess(p, I, dt, current, guess, count, lastDelta);
        done := true;
      } else {
        var delta := CramerSolve(J, F);
        UpdatesSolveLinearSystem(p, I, dt, current, guess, count, lastDelta);
        next := next.Plus(delta);
        lastDelta := Some(delta);
        if Abs(delta.v) < Tolerance && Abs(delta.w) < Tolerance {
          done := true;
        }
      }
    }
  }

  /** One Backward Euler step from a non-spiking state: the Euler guess refined by
      the Newton loop, with the iteration count the loop reports. */
  function BackwardStep(p: Params, I: real, dt: real, y: Vec): Advance {
    var r := NewtonFrom(p, I, dt, y, EulerStep(p, y, I, dt), 0, None);
    Advance(r.guess, r.iterations)
  }

  /** The step as the function the shared driver takes. */
  function ImplicitStep(p: Params, I: real, dt: real): Vec -> Advance {
    (y: Vec) => BackwardStep(p, I, dt, y)
  }

  /** At an equilibrium the Euler guess already is the state, the residual vanishes,
      and the loop returns the state unchanged after one iteration. */
  lemma RestIsFixedPoint(p: Params, I: real, dt: real, y: Vec)
    requires Derivative(p, y, I) == Zero
    ensures ImplicitStep(p, I, dt)(y) == Advance(y, 1)
  {
    EulerAtRest(p, y, I, dt);
    RestResidual(p, I, dt, y);
    var m := Jacobian(p, dt, y);
    if m.Det() == 0.0 {
      SingularKeepsGuess(p, I, dt, y, y, 0, None);
    } else {
      ZeroResidualConverges(p, I, dt, y);
    }
  }

  lemma RestResidual(p: Params, I: real, dt: real, y: Vec)
    requires Derivative(p, y, I) == Zero
    ensures Residual(p, I, dt, y, y) == Zero
  {
    assert Derivative(p, y, I).Times(dt) == Zero;
  }

  lemma ZeroResidualConverges(p: Params, I: real, dt: real, y: Vec)
    requires Residual(p, I, dt, y, y) == Zero && Jacobian(p, dt, y).Det() != 0.0
    ensures NewtonFrom(p, I, dt, y, y, 0, None).guess == y
    ensures NewtonFrom(p, I, dt, y, y, 0, None).iterations == 1
  {
    var m := Jacobian(p, dt, y);
    UpdatesSolveLinearSystem(p, I, dt, y, y, 0, None);
    var delta := CramerSolve(m, Zero);
    ZeroSolution(m, delta);
    assert SmallUpdate(delta);
  }

  lemma ZeroSolution(m: Matrix, delta: Vec)
    requires m.Det() != 0.0 && m.Apply(delta) == Zero
    ensures delta == Zero
  {
    var det := m.Det();
    assert det * delta.v == m.j22 * (m.j11 * delta.v + m.j12 * delta.w) - m.j12 * (m.j21 * delta.v + m.j22 * delta.w);
    assert det * delta.w == m.j11 * (m.j21 * delta.v + m.j22 * delta.w) - m.j21 * (m.j11 * delta.v + m.j12 * delta.w);
    NonZeroProduct(det, delta.v);
    NonZeroProduct(det, delta.w);
  }

  /** On every normal step the recorded iteration count lies in [1, 100]; spike steps
      record 0. */
  lemma RecordedIterations(p: Params, I: real, dt: real, y0: Vec, n: nat, i: nat)
    requires i < n
    ensures var rec := Run(p, ImplicitStep(p, I, dt), dt, NormalMessage, y0, n).records[i];
      if rec.message == SpikeMessage then rec.iterations == 0 else 1 <= rec.iterations <= MaxIter
  {
    AllStepIterations(p, I, dt);
    RecordedIterationsWithin(p, ImplicitStep(p, I, dt), dt, NormalMessage, y0, n, i, 1, MaxIter);
  }

  /** Every Backward Euler step reports between 1 and 100 Newton iterations. */
  lemma StepIterations(p: Params, I: real, dt: real, y: Vec)
    ensures 1 <= ImplicitStep(p, I, dt)(y).iterations <= MaxIter
  {
    var g := EulerStep(p, y, I, dt);
    NewtonIterationBounds(p, I, dt, y, g);
  }

  lemma AllStepIterations(p: Params, I: real, dt: real)
    ensures forall y :: 1 <= ImplicitStep(p, I, dt)(y).iterations <= MaxIter
  {
    forall y: Vec
      ensures 1 <= ImplicitStep(p, I, dt)(y).iterations <= MaxIter
    {
      StepIterations(p, I, dt, y);
    }
  }

  lemma NewtonIterationBounds(p: Params, I: real, dt: real, y: Vec, g: Vec)
    ensures 1 <= NewtonFrom(p, I, dt, y, g, 0, None).iterations <= MaxIter
  {
  }

  // ---------------------------------------------------------------------------
  // The driver

  /** `backward_euler()`: fills v[0..steps] and w[0..steps] in place and appends one
      record per step. */
  method Simulate(p: Params, I: real, dt: real, steps: nat, y0: Vec)
    returns (v: array<real>, w: array<real>, iterationData: seq<IterationRecord>)
    ensures fresh(v) && fresh(w)
    ensures var tr := Run(p, ImplicitStep(p, I, dt), dt, NormalMessage, y0, steps);
      v[..] == tr.vs && w[..] == tr.ws && iterationData == tr.records
  {
    v := new real[steps + 1];
    w := new real[steps + 1];
    v[0] := y0.v;
    w[0] := y0.w;
    iterationData := [];
    for i := 0 to steps
      invariant v != w
      invariant var tr := Run(p, ImplicitStep(p, I, dt), dt, NormalMessage, y0, i);
        v[..i + 1] == tr.vs && w[..i + 1] == tr.ws && iterationData == tr.records
    {
      ghost var tr := Run(p, ImplicitStep(p, I, dt), dt, NormalMessage, y0, i);
      RunUnfold(p, ImplicitStep(p, I, dt), dt, NormalMessage, y0, i);
      var record := StepInPlace(p, I, dt, v, w, i, tr);
      iterationData := iterationData + [record];
    }
  }

  /** Step i of the loop body on the arrays: the spike branch or one Newton solve. */
  method StepInPlace(p: Params, I: real, dt: real, v: array<real>, w: array<real>, i: nat, ghost tr: Trajectory)
    returns (record: IterationRecord)
    requires v != w && i + 1 < v.Length && i + 1 < w.Length
    requires WellFormed(tr) && |tr.records| == i && v[..i + 1] == tr.vs && w[..i + 1] == tr.ws
    modifies v, w
    ensures var r := Step(p, ImplicitStep(p, I, dt), dt, NormalMessage, tr);
      v[..i + 2] == r.vs && w[..i + 2] == r.ws && r.records == tr.records + [record]
  {
    assert v[i] == tr.vs[i] && w[i] == tr.ws[i];
    if v[i] >= p.vpeak {
      SpikeStepShape(p, ImplicitStep(p, I, dt), dt, NormalMessage, tr, i);
      v[i] := p.vpeak;
      v[i + 1] := p.c;
      w[i + 1] := w[i] + p.d;
      record := IterationRecord(i, i as real * dt, v[i], w[i], 0, v[i + 1], w[i + 1], SpikeMessage);
      assert v[..i + 2] == tr.vs[i := p.vpeak] + [p.c];
      assert w[..i + 2] == tr.ws + [tr.ws[i] + p.d];
    } else {
      var current := Vec(v[i], w[i]);
      var next, iterationCount := NewtonSolve(p, I, dt, current, EulerStep(p, current, I, dt));
      assert ImplicitStep(p, I, dt)(current) == Advance(next, iterationCount);
      NormalStepShape(p, ImplicitStep(p, I, dt), dt, NormalMessage, tr, i, Advance(next, iterationCount));
      v[i + 1] := next.v;
      w[i + 1] := next.w;
      record := IterationRecord(i, i as real * dt, current.v, current.w, iterationCount, next.v, next.w,
                                NormalMessage);
      assert v[..i + 2] == tr.vs + [next.v];
      assert w[..i + 2] == tr.ws + [next.w];
    }
  }

  // ---------------------------------------------------------------------------
  // Comparison with reference values

  /** The exceptions `calculate_errors` can raise. */
  datatype PyError = ZeroDivisionError | IndexError

  /** The outcome of a Python call: its value, or the exception it raised. */
  datatype Outcome<T> = Done(value: T) | Raise(error: PyError)

  /** `find_time_index`: `int(target_time / dt)`, which raises ZeroDivisionError for
      dt = 0. For a non-negative time and a positive step it is the sample whose
      interval [idx dt, (idx+1) dt) holds the time. */
  function FindTimeIndex(targetTime: real, dt: real): (r: Outcome<int>)
    ensures r.Raise? <==> dt == 0.0
    ensures r.Raise? ==> r.error == ZeroDivisionError
    ensures r.Done? && 0.0 < dt && 0.0 <= targetTime ==>
              0 <= r.value && r.value as real * dt <= targetTime < (r.value + 1) as real * dt
  {
    if dt == 0.0 then Raise(ZeroDivisionError)
    else
      var idx := Trunc(targetTime / dt);
      if 0.0 < dt && 0.0 <= targetTime then IndexBrackets(targetTime, dt, idx); Done(idx) else Done(idx)
  }

  lemma IndexBrackets(t: real, dt: real, idx: int)
    requires 0.0 < dt && 0.0 <= t && idx == Trunc(t / dt)
    ensures 0 <= idx && idx as real * dt <= t < (idx + 1) as real * dt
  {
    var q := t / dt;
    assert q * dt == t;
    assert 0.0 <= q by { NonNegativeQuotient(t, dt); }
    assert idx as real <= q < idx as real + 1.0;
    assert (idx + 1) as real == idx as real + 1.0;
    MultiplyBounds(idx as real, q, idx as real + 1.0, dt);
    assert t < (idx as real + 1.0) * dt;
  }

  lemma NonNegativeQuotient(t: real, dt: real)
    requires 0.0 < dt && 0.0 <= t
    ensures 0.0 <= t / dt
  {
  }

  lemma MultiplyBounds(lo: real, q: real, hi: real, dt: real)
    requires 0.0 < dt && lo <= q < hi
    ensures lo * dt <= q * dt < hi * dt
  {
  }

  /** One row of `calculate_errors`. */
  datatype ErrorEntry = ErrorEntry(time: real, v: Option<real>, w: Option<real>,
                                   referenceV: real, referenceW: real,
                                   errorV: Option<real>, errorW: Option<real>,
                                   message: Option<string>)

  /** The index a reference time maps to can be read from both arrays whenever the
      script reads it (Python reads negative indices from the end). */
  predicate Readable(v: seq<real>, w: seq<real>, t: real, dt: real)
    requires dt != 0.0
  {
    var idx := FindTimeIndex(t, dt).value;
    idx < |v| ==> Indexable(v, idx) && Indexable(w, idx)
  }

  /** The dictionary built for one reference time, once every read succeeds. */
  function ErrorAt(v: seq<real>, w: seq<real>, referenceV: real, referenceW: real, t: real, dt: real): ErrorEntry
    requires dt != 0.0 && Readable(v, w, t, dt)
  {
    var idx := FindTimeIndex(t, dt).value;
    if idx < |v| then
      ErrorEntry(t, Some(PyAt(v, idx)), Some(PyAt(w, idx)), referenceV, referenceW,
                 Some(Abs(PyAt(v, idx) - referenceV)), Some(Abs(PyAt(w, idx) - referenceW)), None)
    else
      ErrorEntry(t, None, None, referenceV, referenceW, None, None, Some(ExceedsMessage))
  }

  /** An in-range time reports the sample and its non-negative distance from the
      reference (zero exactly when they agree); an out-of-range time reports no values
      and the message. */
  lemma ErrorEntryMeaning(v: seq<real>, w: seq<real>, referenceV: real, referenceW: real, t: real, dt: real)
    requires dt != 0.0 && Readable(v, w, t, dt)
    ensures var e := ErrorAt(v, w, referenceV, referenceW, t, dt);
      var idx := FindTimeIndex(t, dt).value;
      && e.time == t && e.referenceV == referenceV && e.referenceW == referenceW
      && (e.errorV.Some? <==> idx < |v|) && (e.errorW.Some? <==> idx < |v|)
      && (idx < |v| ==> e.v == Some(PyAt(v, idx)) && e.w == Some(PyAt(w, idx)) && e.message.None?
                        && e.errorV.value >= 0.0 && e.errorW.value >= 0.0
                        && (e.errorV.value == 0.0 <==> PyAt(v, idx) == referenceV)
                        && (e.errorW.value == 0.0 <==> PyAt(w, idx) == referenceW))
      && (idx >= |v| ==> e.v.None? && e.w.None? && e.message == Some(ExceedsMessage))
  {
  }

  /** Pass i of the loop of `calculate_errors`, for the reference time t: the entry,
      or the exception raised while building it. */
  function ErrorRow(v: seq<real>, w: seq<real>, referenceV: seq<real>, referenceW: seq<real>,
                    i: nat, t: real, dt: real): Outcome<ErrorEntry>
  {
    if dt == 0.0 then Raise(ZeroDivisionError)
    else if i >= |referenceV| || i >= |referenceW| || !Readable(v, w, t, dt) then Raise(IndexError)
    else Done(ErrorAt(v, w, referenceV[i], referenceW[i], t, dt))
  }

  /** For arrays of equal length, a row raises exactly in the cases Python does: a zero
      step divides by zero, and a short reference list or an index below -len(v)
      is an IndexError. */
  lemma ErrorRowRaises(v: seq<real>, w: seq<real>, referenceV: seq<real>, referenceW: seq<real>,
                       i: nat, t: real, dt: real)
    requires |v| == |w|
    ensures dt == 0.0 ==> ErrorRow(v, w, referenceV, referenceW, i, t, dt) == Raise(ZeroDivisionError)
    ensures dt != 0.0 ==>
              var idx := FindTimeIndex(t, dt).value;
              var row := ErrorRow(v, w, referenceV, referenceW, i, t, dt);
              (row.Raise? <==> i >= |referenceV| || i >= |referenceW| || idx < -|v|)
              && (row.Raise? ==> row.error == IndexError)
  {
  }

  /** What `calculate_errors` returns for the reference times: the list of rows, or
      the first exception raised. */
  function Errors(v: seq<real>, w: seq<real>, referenceV: seq<real>, referenceW: seq<real>,
                  times: seq<real>, dt: real): Outcome<seq<ErrorEntry>>
    decreases |times|
  {
    if |times| == 0 then Done([])
    else
      match Errors(v, w, referenceV, referenceW, times[..|times| - 1], dt)
      case Raise(e) => Raise(e)
      case Done(rows) =>
        match ErrorRow(v, w, referenceV, referenceW, |times| - 1, times[|times| - 1], dt)
        case Raise(e) => Raise(e)
        case Done(row) => Done(rows + [row])
  }

  /** The call completes exactly when every row does, and then returns one entry per
      reference time in order; otherwise it raises the exception of the first row that
      fails. */
  lemma {:induction false} ErrorsMeaning(v: seq<real>, w: seq<real>, referenceV: seq<real>, referenceW: seq<real>,
                                         times: seq<real>, dt: real)
    ensures var r := Errors(v, w, referenceV, referenceW, times, dt);
      && (r.Done? <==> forall j :: 0 <= j < |times| ==> ErrorRow(v, w, referenceV, referenceW, j, times[j], dt).Done?)
      && (r.Done? ==> |r.value| == |times|
                      && forall j :: 0 <= j < |times| ==>
                           Done(r.value[j]) == ErrorRow(v, w, referenceV, referenceW, j, times[j], dt))
      && (r.Raise? ==> exists j :: 0 <= j < |times|
                         && ErrorRow(v, w, referenceV, referenceW, j, times[j], dt) == Raise(r.error)
                         && forall k :: 0 <= k < j ==> ErrorRow(v, w, referenceV, referenceW, k, times[k], dt).Done?)
    decreases |times|
  {
    if |times| > 0 {
      var n := |times| - 1;
      var prefix := times[..n];
      ErrorsMeaning(v, w, referenceV, referenceW, prefix, dt);
      assert forall j :: 0 <= j < n ==> prefix[j] == times[j];
      var r := Errors(v, w, referenceV, referenceW, times, dt);
      var rp := Errors(v, w, referenceV, referenceW, prefix, dt);
      if rp.Raise? {
        var j :| 0 <= j < n && ErrorRow(v, w, referenceV, referenceW, j, prefix[j], dt) == Raise(rp.error)
                 && forall k :: 0 <= k < j ==> ErrorRow(v, w, referenceV, referenceW, k, prefix[k], dt).Done?;
        assert ErrorRow(v, w, referenceV, referenceW, j, times[j], dt) == Raise(r.error);
        assert forall k :: 0 <= k < j ==> ErrorRow(v, w, referenceV, referenceW, k, times[k], dt).Done?;
      } else if r.Raise? {
        assert ErrorRow(v, w, referenceV, referenceW, n, times[n], dt) == Raise(r.error);
      }
    }
  }

  /** Once a prefix of the reference times raises, the whole call raises the same. */
  lemma {:induction false} RaiseStops(v: seq<real>, w: seq<real>, referenceV: seq<real>, referenceW: seq<real>,
                                      times: seq<real>, dt: real, k: nat)
    requires k <= |times| && Errors(v, w, referenceV, referenceW, times[..k], dt).Raise?
    ensures Errors(v, w, referenceV, referenceW, times, dt) == Errors(v, w, referenceV, referenceW, times[..k], dt)
    decreases |times|
  {
    if k < |times| {
      var prefix := times[..|times| - 1];
      assert prefix[..k] == times[..k];
      RaiseStops(v, w, referenceV, referenceW, prefix, dt, k);
    } else {
      assert times[..k] == times;
    }
  }

  /** `calculate_errors`: one entry per reference time, in order, unless a division by
      zero or an out-of-range read raises. */
  method CalculateErrors(v: seq<real>, w: seq<real>, referenceV: seq<real>, referenceW: seq<real>,
                         referenceTimes: seq<real>, dt: real)
    returns (result: Outcome<seq<ErrorEntry>>)
    ensures result == Errors(v, w, referenceV, referenceW, referenceTimes, dt)
  {
    var errors: seq<ErrorEntry> := [];
    for i := 0 to |referenceTimes|
      invariant Errors(v, w, referenceV, referenceW, referenceTimes[..i], dt) == Done(errors)
    {
      var t := referenceTimes[i];
      assert referenceTimes[..i + 1][..i] == referenceTimes[..i];
      var found := FindTimeIndex(t, dt);
      if found.Raise? {
        RaiseStops(v, w, referenceV, referenceW, referenceTimes, dt, i + 1);
        return Raise(found.error);
      }
      var idx := found.value;
      if idx < |v| {
        if !Indexable(v, idx) || i >= |referenceV| || !Indexable(w, idx) || i >= |referenceW| {
          RaiseStops(v, w, referenceV, referenceW, referenceTimes, dt, i + 1);
          return Raise(IndexError);
        }
        var errorV := Abs(PyAt(v, idx) - referenceV[i]);
        var errorW := Abs(PyAt(w, idx) - referenceW[i]);
        errors := errors + [ErrorEntry(t, Some(PyAt(v, idx)), Some(PyAt(w, idx)), referenceV[i], referenceW[i],
                                       Some(errorV), Some(errorW), None)];
      } else {
        if i >= |referenceV| || i >= |referenceW| {
          RaiseStops(v, w, referenceV, referenceW, referenceTimes, dt, i + 1);
          return Raise(IndexError);
        }
        errors := errors + [ErrorEntry(t, None, None, referenceV[i], referenceW[i], None, None,
                                       Some(ExceedsMessage))];
      }
    }
    assert referenceTimes[..|referenceTimes|] == referenceTimes;
    return Done(errors);
  }

  /** The script's reference data. */
  const ReferenceV: seq<real> := [-60.0, -54.4819, -50.6154, -49.5530, -53.6973]
  const ReferenceW: seq<real> := [0.0, 6.2834, 59.0910, -12.4763, 1.5649]
  const ReferenceTimes: seq<real> := [0.0, 250.0, 500.0, 750.0, 1000.0]

  /** The script's own call never raises: on arrays of steps + 1 samples every
      reference time, 1000 ms included, falls on a sample and gets its errors. */
  lemma ScriptErrorsComplete(v: seq<real>, w: seq<real>)
    requires |v| == ScriptSteps + 1 && |w| == ScriptSteps + 1
    ensures var r := Errors(v, w, ReferenceV, ReferenceW, ReferenceTimes, ScriptDt);
      r.Done? && |r.value| == 5 && forall j :: 0 <= j < 5 ==> r.value[j].errorV.Some? && r.value[j].errorW.Some?
  {
    forall j | 0 <= j < 5
      ensures 0 <= FindTimeIndex(ReferenceTimes[j], ScriptDt).value <= ScriptSteps
    {
      var t := ReferenceTimes[j];
      var idx := FindTimeIndex(t, ScriptDt).value;
      assert t <= 1000.0;
      assert idx as real * ScriptDt <= t;
    }
    ErrorsMeaning(v, w, ReferenceV, ReferenceW, ReferenceTimes, ScriptDt);
    var r := Errors(v, w, ReferenceV, ReferenceW, ReferenceTimes, ScriptDt);
    forall j | 0 <= j < 5
      ensures r.value[j].errorV.Some? && r.value[j].errorW.Some?
    {
      ErrorEntryMeaning(v, w, ReferenceV[j], ReferenceW[j], ReferenceTimes[j], ScriptDt);
    }
  }
}
