/** Adaptive Runge-Kutta-Fehlberg 4(5) (Runge-Kutta-Fehlburg/code/Runge-Kutta-Fehlburg.py).
    The stimulus is switched on for t in [10, 190]. Each pass of the `while t < T`
    loop first resets a state left at or above the cutoff by the previous step
    (recording the peak and the reset at the same time), shortens the step so as not
    to pass T, takes one Fehlberg step, accepts it when the error estimate is within
    the tolerance or the step is already minimal, and finally picks the next step
    size, clipped to [H_MIN, H_MAX].

    The error estimate is the Euclidean norm of y5 - y4. Its square root is not
    computed here: the model works with the squared norm and compares it with the
    squares of the thresholds, which decides the same comparisons since both sides
    are non-negative. The factor S (TOL / error)^0.2 is an input function of the
    squared error. */
module Fehlberg {
  import opened Numerics
  import opened NeuronModel

  const ScriptParams := Params(100.0, -60.0, -40.0, 0.7, 0.03, -2.0, -50.0, 100.0, 35.0)
  const IStim := 700.0
  const T := 200.0
  const DtInitial := 0.25
  const StimOn := 10.0
  const StimOff := 190.0
  const Tol := 0.00001
  const HMin := 0.0001
  const HMax := 2.0
  /** error <= TOL  iff  error^2 <= TOL^2. */
  const TolSq := 0.0000000001
  /** error > 1e-15  iff  error^2 > 1e-30. */
  const TinySq := 0.000000000000000000000000000001

  /** The two thresholds on the squared error are the squares of the source's. */
  lemma SquaredThresholds()
    ensures TolSq == Sq(Tol) && TinySq == Sq(0.000000000000001)
  {
  }

  // ---------------------------------------------------------------------------
  // The right-hand side with the windowed stimulus

  /** The stimulus current at time t. */
  function CurrentAt(t: real): real {
    if StimOn <= t <= StimOff then IStim else 0.0
  }

  /** The stimulus is on exactly inside the window [10, 190] and off outside it. */
  lemma StimulusWindow(t: real)
    ensures CurrentAt(t) == IStim <==> StimOn <= t <= StimOff
    ensures CurrentAt(t) == 0.0 <==> !(StimOn <= t <= StimOff)
  {
  }

  /** `neuron_ode(t, v, w)`. */
  function Ode(p: Params, t: real, y: Vec): Vec {
    Derivative(p, y, CurrentAt(t))
  }

  // ---------------------------------------------------------------------------
  // The Butcher tableau

  const Nodes: seq<real> := [0.0, 1.0 / 4.0, 3.0 / 8.0, 12.0 / 13.0, 1.0, 1.0 / 2.0]
  const Coupling: seq<seq<real>> := [
    [1.0 / 4.0],
    [3.0 / 32.0, 9.0 / 32.0],
    [1932.0 / 2197.0, -7200.0 / 2197.0, 7296.0 / 2197.0],
    [439.0 / 216.0, -8.0, 3680.0 / 513.0, -845.0 / 4104.0],
    [-8.0 / 27.0, 2.0, -3544.0 / 2565.0, 1859.0 / 4104.0, -11.0 / 40.0]
  ]
  const Weights4: seq<real> := [25.0 / 216.0, 0.0, 1408.0 / 2565.0, 2197.0 / 4104.0, -1.0 / 5.0, 0.0]
  const Weights5: seq<real> := [16.0 / 135.0, 0.0, 6656.0 / 12825.0, 28561.0 / 56430.0, -9.0 / 50.0, 2.0 / 55.0]

  function Sum(s: seq<real>): real {
    if |s| == 0 then 0.0 else Sum(s[..|s| - 1]) + s[|s| - 1]
  }

  /** The tableau is consistent: row i of the coupling coefficients sums to the node
      of stage i+1, and both weight vectors sum to one. */
  lemma TableauConsistent()
    ensures |Coupling| == 5 && |Nodes| == 6 && |Weights4| == 6 && |Weights5| == 6
    ensures forall i :: 0 <= i < 5 ==> |Coupling[i]| == i + 1 && Sum(Coupling[i]) == Nodes[i + 1]
    ensures Sum(Weights4) == 1.0 && Sum(Weights5) == 1.0
  {
    forall i | 0 <= i < 5
      ensures |Coupling[i]| == i + 1 && Sum(Coupling[i]) == Nodes[i + 1]
    {
      SumOfRow(Coupling[i]);
    }
    SumOfRow(Weights4);
    SumOfRow(Weights5);
  }

  /** Sum unrolled for the short rows of the tableau. */
  lemma SumOfRow(s: seq<real>)
    requires |s| <= 6
    ensures |s| == 1 ==> Sum(s) == s[0]
    ensures |s| == 2 ==> Sum(s) == s[0] + s[1]
    ensures |s| == 3 ==> Sum(s) == s[0] + s[1] + s[2]
    ensures |s| == 4 ==> Sum(s) == s[0] + s[1] + s[2] + s[3]
    ensures |s| == 5 ==> Sum(s) == s[0] + s[1] + s[2] + s[3] + s[4]
    ensures |s| == 6 ==> Sum(s) == s[0] + s[1] + s[2] + s[3] + s[4] + s[5]
  {
    if |s| > 0 {
      SumOfRow(s[..|s| - 1]);
    }
  }

  // ---------------------------------------------------------------------------
  // One Fehlberg step

  /** `sum(c[j] * k[j] for j in range(len(c)))`, added left to right. */
  function WeightedSum(coeffs: seq<real>, ks: seq<Vec>): Vec
    requires |coeffs| <= |ks|
  {
    if |coeffs| == 0 then Zero
    else WeightedSum(coeffs[..|coeffs| - 1], ks).Plus(ks[|coeffs| - 1].Times(coeffs[|coeffs| - 1]))
  }

  /** The first n slopes k_0..k_{n-1} of a step of size h from (t, y). */
  function Slopes(p: Params, t: real, y: Vec, h: real, n: nat): (ks: seq<Vec>)
    requires 1 <= n <= 6
    ensures |ks| == n
  {
    if n == 1 then [Ode(p, t, y)]
    else
      var prev := Slopes(p, t, y, h, n - 1);
      prev + [Ode(p, t + Nodes[n - 1] * h, Combine(y, h, Coupling[n - 2], prev))]
  }

  /** `y + h * sum(b * k for b, k in zip(weights, ks))`. */
  function Combine(y: Vec, h: real, weights: seq<real>, ks: seq<Vec>): Vec
    requires |weights| <= |ks|
  {
    y.Plus(WeightedSum(weights, ks).Times(h))
  }

  /** The 4th-order estimate y4. */
  function Fourth(p: Params, t: real, y: Vec, h: real): Vec {
    Combine(y, h, Weights4, Slopes(p, t, y, h, 6))
  }

  /** The 5th-order result y5. */
  function Fifth(p: Params, t: real, y: Vec, h: real): Vec {
    Combine(y, h, Weights5, Slopes(p, t, y, h, 6))
  }

  function Sq(x: real): real {
    x * x
  }

  function SquaredNorm(x: Vec): real {
    Sq(x.v) + Sq(x.w)
  }

  /** The squared error estimate |y5 - y4|^2. */
  function ErrorSq(p: Params, t: real, y: Vec, h: real): real {
    Discrepancy(Fourth(p, t, y, h), Fifth(p, t, y, h))
  }

  function Discrepancy(y4: Vec, y5: Vec): real {
    SquaredNorm(y5.Minus(y4))
  }

  /** The error estimate is non-negative and vanishes exactly when the two orders
      agree. */
  lemma ErrorVanishesIff(y4: Vec, y5: Vec)
    ensures Discrepancy(y4, y5) >= 0.0
    ensures Discrepancy(y4, y5) == 0.0 <==> y4 == y5
  {
    var e := y5.Minus(y4);
    SquareFacts(e.v);
    SquareFacts(e.w);
    assert Sq(0.0) == 0.0;
    assert e == Zero <==> y4 == y5;
  }

  lemma SquareFacts(x: real)
    ensures Sq(x) >= 0.0
    ensures x != 0.0 ==> Sq(x) > 0.0
  {
    if x > 0.0 {
      calc { Sq(x); == x * x; > 0.0; }
    } else if x < 0.0 {
      calc { Sq(x); == x * x; == (-x) * (-x); > 0.0; }
    }
  }

  /** `rkf45_step(t, y, h, neuron_ode)`: the six slopes in an array filled in a loop,
      then the 5th-order result and the error estimate. */
  method Rkf45Step(p: Params, t: real, y: Vec, h: real) returns (yNew: Vec, errSq: real)
    ensures yNew == Fifth(p, t, y, h) && errSq == ErrorSq(p, t, y, h)
  {
    var k := new Vec[6](_ => Zero);
    k[0] := Ode(p, t, y);
    for i := 0 to 5
      invariant k[..i + 1] == Slopes(p, t, y, h, i + 1)
    {
      NextSlope(p, t, y, h, k, i);
    }
    assert k[..] == k[..6];
    var y4 := Combine(y, h, Weights4, k[..]);
    var y5 := Combine(y, h, Weights5, k[..]);
    yNew := y5;
    errSq := SquaredNorm(y5.Minus(y4));
    assert errSq == Discrepancy(y4, y5);
  }

  /** One pass of the slope loop: `y_temp = y + h * sum(a[i][j] * k[j])`, then
      `k[i+1] = f(t + c[i+1] * h, y_temp)`. */
  method NextSlope(p: Params, t: real, y: Vec, h: real, k: array<Vec>, i: nat)
    requires k.Length == 6 && i < 5 && k[..i + 1] == Slopes(p, t, y, h, i + 1)
    modifies k
    ensures k[..i + 2] == Slopes(p, t, y, h, i + 2)
  {
    ghost var prev := k[..i + 1];
    var yTemp := Combine(y, h, Coupling[i], k[..i + 1]);
    k[i + 1] := Ode(p, t + Nodes[i + 1] * h, yTemp);
    assert k[..i + 1] == prev;
    assert k[..i + 2] == prev + [k[i + 1]];
  }

  // ---------------------------------------------------------------------------
  // The adaptive loop

  /** The loop's variables: time, state, step size, spike counter and the four
      recorded lists. */
  datatype Sim = Sim(t: real, y: Vec, h: real, spikes: nat,
                     ts: seq<real>, vs: seq<real>, ws: seq<real>, hs: seq<real>)

  /** The state before the loop (the script starts w at vr, not at 0). */
  function Initial(p: Params): Sim {
    Sim(0.0, Vec(p.vr, p.vr), DtInitial, 0, [0.0], [p.vr], [p.vr], [DtInitial])
  }

  function Record(s: Sim, t: real, v: real, w: real, h: real): Sim {
    s.(ts := s.ts + [t], vs := s.vs + [v], ws := s.ws + [w], hs := s.hs + [h])
  }

  /** The spike check at the top of the loop. */
  function SpikePhase(p: Params, s: Sim): Sim {
    if s.y.v >= p.vpeak then
      var peak := Record(s, s.t, p.vpeak, s.y.w, s.h);
      var reset := Reset(p, s.y.w);
      Record(peak.(y := reset, spikes := s.spikes + 1), s.t, reset.v, reset.w, s.h)
    else s
  }

  /** `if t + h > T: h = T - t`. */
  function ClampPhase(s: Sim): Sim {
    if s.t + s.h > T then s.(h := T - s.t) else s
  }

  predicate Accepts(errSq: real, h: real) {
    errSq <= TolSq || h <= HMin
  }

  /** Acceptance of the step result. */
  function AcceptPhase(s: Sim, yNew: Vec, errSq: real): Sim {
    if Accepts(errSq, s.h) then
      var t' := s.t + s.h;
      Record(s.(t := t', y := yNew), t', yNew.v, yNew.w, s.h)
    else s
  }

  /** The next step size before clipping: `S h (TOL/error)^0.2`, with the factor an
      input, or `2 h` when the error is negligible. */
  function Candidate(factor: real -> real, errSq: real, h: real): real {
    if errSq > TinySq then h * factor(errSq) else h * 2.0
  }

  function AdaptPhase(s: Sim, factor: real -> real, errSq: real): Sim {
    s.(h := Clip(Candidate(factor, errSq, s.h), HMin, HMax))
  }

  /** One pass of the `while t < T` loop. */
  function Iteration(p: Params, factor: real -> real, s: Sim): Sim {
    var s2 := ClampPhase(SpikePhase(p, s));
    var yNew, errSq := Fifth(p, s2.t, s2.y, s2.h), ErrorSq(p, s2.t, s2.y, s2.h);
    AdaptPhase(AcceptPhase(s2, yNew, errSq), factor, errSq)
  }

  /** The loop, run for at most `fuel` passes. */
  function Loop(p: Params, factor: real -> real, s: Sim, fuel: nat): Sim
    decreases fuel
  {
    if s.t < T && fuel > 0 then Loop(p, factor, Iteration(p, factor, s), fuel - 1) else s
  }

  predicate Nondecreasing(s: seq<real>) {
    forall i, j :: 0 <= i <= j < |s| ==> s[i] <= s[j]
  }

  /** What every pass keeps: the four lists have the same length, the recorded times
      never decrease and end with the current time, the current time lies in [0, T]
      and the step size in [H_MIN, H_MAX]. */
  ghost predicate Inv(s: Sim) {
    && |s.ts| == |s.vs| == |s.ws| == |s.hs| >= 1
    && s.ts[|s.ts| - 1] == s.t
    && Nondecreasing(s.ts)
    && 0.0 <= s.t <= T
    && HMin <= s.h <= HMax
  }

  lemma InitialInv(p: Params)
    ensures Inv(Initial(p))
  {
  }

  /** Appending a time no smaller than the last one keeps the times ordered. */
  lemma RecordKeepsOrder(s: Sim, t: real, v: real, w: real, h: real)
    requires |s.ts| == |s.vs| == |s.ws| == |s.hs| >= 1 && Nondecreasing(s.ts) && s.ts[|s.ts| - 1] <= t
    ensures var r := Record(s, t, v, w, h);
      |r.ts| == |r.vs| == |r.ws| == |r.hs| == |s.ts| + 1 && Nondecreasing(r.ts) && r.ts[|r.ts| - 1] == t
  {
  }

  /** A spike found at the top of the loop records (t, vpeak, w) and then
      (t, c, w + d) at the same time, resets the state and counts one spike; otherwise
      this phase does nothing. */
  lemma SpikeRecords(p: Params, s: Sim)
    ensures var r, n := SpikePhase(p, s), |s.ts|;
      if s.y.v >= p.vpeak then
        && r.ts == s.ts + [s.t, s.t] && r.vs == s.vs + [p.vpeak, p.c]
        && r.ws == s.ws + [s.y.w, s.y.w + p.d] && r.hs == s.hs + [s.h, s.h]
        && r.y == Vec(p.c, s.y.w + p.d) && r.spikes == s.spikes + 1 && r.t == s.t && r.h == s.h
      else r == s
  {
  }

  lemma SpikePhaseInv(p: Params, s: Sim)
    requires Inv(s)
    ensures Inv(SpikePhase(p, s)) && SpikePhase(p, s).t == s.t && SpikePhase(p, s).h == s.h
  {
    if s.y.v >= p.vpeak {
      var peak := Record(s, s.t, p.vpeak, s.y.w, s.h);
      RecordKeepsOrder(s, s.t, p.vpeak, s.y.w, s.h);
      var reset := Reset(p, s.y.w);
      RecordKeepsOrder(peak.(y := reset, spikes := s.spikes + 1), s.t, reset.v, reset.w, s.h);
    }
  }

  /** After the overshoot clamp the step ends no later than T, and it is still
      positive while t < T. */
  lemma ClampBounds(s: Sim)
    requires s.t < T && s.h > 0.0
    ensures var r := ClampPhase(s);
      r.t == s.t && 0.0 < r.h <= s.h && r.t + r.h <= T
  {
  }

  /** A step is accepted exactly when the error is within the tolerance or the step
      is minimal: then time advances by h, the state takes the new value and one
      record is appended; otherwise time, state and lists are unchanged. */
  lemma AcceptOrReject(s: Sim, yNew: Vec, errSq: real)
    ensures var r := AcceptPhase(s, yNew, errSq);
      if errSq <= TolSq || s.h <= HMin then
        && r.t == s.t + s.h && r.y == yNew && r.h == s.h && r.spikes == s.spikes
        && r.ts == s.ts + [s.t + s.h] && r.vs == s.vs + [yNew.v] && r.ws == s.ws + [yNew.w] && r.hs == s.hs + [s.h]
      else r == s
  {
  }

  /** The new step size is clipped into [H_MIN, H_MAX]; for a negligible error the
      candidate is twice the step. */
  lemma AdaptBounds(s: Sim, factor: real -> real, errSq: real)
    ensures var r := AdaptPhase(s, factor, errSq);
      HMin <= r.h <= HMax && r == s.(h := r.h)
    ensures errSq <= TinySq ==> AdaptPhase(s, factor, errSq).h == Clip(2.0 * s.h, HMin, HMax)
  {
  }

  /** Every pass of the loop keeps the invariant; in particular an accepted time
      never exceeds T. */
  lemma IterationInv(p: Params, factor: real -> real, s: Sim)
    requires Inv(s) && s.t < T
    ensures Inv(Iteration(p, factor, s))
  {
    var s1 := SpikePhase(p, s);
    SpikePhaseInv(p, s);
    var s2 := ClampPhase(s1);
    ClampBounds(s1);
    var yNew, errSq := Fifth(p, s2.t, s2.y, s2.h), ErrorSq(p, s2.t, s2.y, s2.h);
    var s3 := AcceptPhase(s2, yNew, errSq);
    if Accepts(errSq, s2.h) {
      RecordKeepsOrder(s2.(t := s2.t + s2.h, y := yNew), s2.t + s2.h, yNew.v, yNew.w, s2.h);
    }
    assert |s3.ts| == |s3.vs| == |s3.ws| == |s3.hs| >= 1 && s3.ts[|s3.ts| - 1] == s3.t;
    assert Nondecreasing(s3.ts) && 0.0 <= s3.t <= T;
    AdaptBounds(s3, factor, errSq);
  }

  /** The invariant holds after any number of passes, the spike count and the lists
      only grow, and a loop that reached T stops exactly at T. */
  lemma {:induction false} LoopInv(p: Params, factor: real -> real, s: Sim, fuel: nat)
    requires Inv(s)
    ensures var r := Loop(p, factor, s, fuel);
      Inv(r) && s.spikes <= r.spikes && |s.ts| <= |r.ts|
    ensures Loop(p, factor, s, fuel).t >= T ==> Loop(p, factor, s, fuel).t == T
    decreases fuel
  {
    if s.t < T && fuel > 0 {
      IterationInv(p, factor, s);
      IterationGrows(p, factor, s);
      LoopInv(p, factor, Iteration(p, factor, s), fuel - 1);
    }
  }

  /** The number of passes the loop runs with the given fuel. */
  function Passes(p: Params, factor: real -> real, s: Sim, fuel: nat): nat
    decreases fuel
  {
    if s.t < T && fuel > 0 then 1 + Passes(p, factor, Iteration(p, factor, s), fuel - 1) else 0
  }

  /** The loop runs at most `fuel` passes, and it stops with t below T only when the
      fuel ran out: the `while t < T` test is the only other way out. */
  lemma {:induction false} StopsOnlyAtEnd(p: Params, factor: real -> real, s: Sim, fuel: nat)
    ensures Passes(p, factor, s, fuel) <= fuel
    ensures Loop(p, factor, s, fuel).t < T ==> Passes(p, factor, s, fuel) == fuel
    decreases fuel
  {
    if s.t < T && fuel > 0 {
      StopsOnlyAtEnd(p, factor, Iteration(p, factor, s), fuel - 1);
    }
  }

  /** A pass never forgets a record or a spike. */
  lemma IterationGrows(p: Params, factor: real -> real, s: Sim)
    ensures var r := Iteration(p, factor, s);
      s.spikes <= r.spikes <= s.spikes + 1 && |s.ts| <= |r.ts| <= |s.ts| + 3
  {
  }

  /** The top-level `while t < T` loop, with at most `fuel` passes. */
  method Simulate(p: Params, factor: real -> real, fuel: nat)
    returns (tVals: seq<real>, vVals: seq<real>, wVals: seq<real>, hVals: seq<real>, spikeCount: nat)
    ensures var r := Loop(p, factor, Initial(p), fuel);
      tVals == r.ts && vVals == r.vs && wVals == r.ws && hVals == r.hs && spikeCount == r.spikes
  {
    tVals, vVals, wVals, hVals := [0.0], [p.vr], [p.vr], [DtInitial];
    var t := 0.0;
    var y := Vec(p.vr, p.vr);
    var h := DtInitial;
    spikeCount := 0;
    var passes := 0;
    while t < T && passes < fuel
      invariant passes <= fuel
      invariant Loop(p, factor, Sim(t, y, h, spikeCount, tVals, vVals, wVals, hVals), fuel - passes)
             == Loop(p, factor, Initial(p), fuel)
      decreases fuel - passes
    {
      var s := LoopBody(p, factor, Sim(t, y, h, spikeCount, tVals, vVals, wVals, hVals));
      t, y, h, spikeCount, tVals, vVals, wVals, hVals := s.t, s.y, s.h, s.spikes, s.ts, s.vs, s.ws, s.hs;
      passes := passes + 1;
    }
  }

  /** One pass of the loop on the script's variables. */
  method LoopBody(p: Params, factor: real -> real, s0: Sim) returns (s: Sim)
    ensures s == Iteration(p, factor, s0)
  {
    var s1 := SpikeCheck(p, s0);
    var t, y, h := s1.t, s1.y, s1.h;
    if t + h > T {
      h := T - t;
    }
    assert s1.(h := h) == ClampPhase(s1);
    var yNew, errSq := Rkf45Step(p, t, y, h);
    s := AcceptAndAdapt(factor, s1.(h := h), yNew, errSq);
  }

  /** The spike check at the top of the loop, on the script's variables. */
  method SpikeCheck(p: Params, s0: Sim) returns (s: Sim)
    ensures s == SpikePhase(p, s0)
  {
    var t, y, h, spikeCount := s0.t, s0.y, s0.h, s0.spikes;
    var tVals, vVals, wVals, hVals := s0.ts, s0.vs, s0.ws, s0.hs;
    if y.v >= p.vpeak {
      vVals, wVals, tVals, hVals := vVals + [p.vpeak], wVals + [y.w], tVals + [t], hVals + [h];
      y := Vec(p.c, y.w + p.d);
      spikeCount := spikeCount + 1;
      vVals, wVals, tVals, hVals := vVals + [y.v], wVals + [y.w], tVals + [t], hVals + [h];
    }
    s := Sim(t, y, h, spikeCount, tVals, vVals, wVals, hVals);
  }

  /** Acceptance and the new step size, on the script's variables. */
  method AcceptAndAdapt(factor: real -> real, s0: Sim, yNew: Vec, errSq: real) returns (s: Sim)
    ensures s == AdaptPhase(AcceptPhase(s0, yNew, errSq), factor, errSq)
  {
    var t, y, h, spikeCount := s0.t, s0.y, s0.h, s0.spikes;
    var tVals, vVals, wVals, hVals := s0.ts, s0.vs, s0.ws, s0.hs;
    if errSq <= TolSq || h <= HMin {
      t := t + h;
      y := yNew;
      vVals, wVals, tVals, hVals := vVals + [y.v], wVals + [y.w], tVals + [t], hVals + [h];
    }
    var hNew := if errSq > TinySq then h * factor(errSq) else h * 2.0;
    h := Clip(hNew, HMin, HMax);
    s := Sim(t, y, h, spikeCount, tVals, vVals, wVals, hVals);
  }

  /** The script's run: every recorded list has the same length, times are ordered
      and never pass T, and the final step size is within its bounds. */
  lemma ScriptRun(factor: real -> real, fuel: nat)
    ensures Inv(Loop(ScriptParams, factor, Initial(ScriptParams), fuel))
  {
    InitialInv(ScriptParams);
    LoopInv(ScriptParams, factor, Initial(ScriptParams), fuel);
  }

  // ---------------------------------------------------------------------------
  // Equilibria

  /** When the slope vanishes at y at every stage time, every slope of the step is
      zero. */
  lemma {:induction false} SlopesAtRest(p: Params, t: real, y: Vec, h: real, n: nat)
    requires 1 <= n <= 6
    requires forall j :: 0 <= j < 6 ==> Ode(p, t + Nodes[j] * h, y) == Zero
    ensures forall j :: 0 <= j < n ==> Slopes(p, t, y, h, n)[j] == Zero
  {
    if n == 1 {
      assert t + Nodes[0] * h == t;
    } else {
      var prev := Slopes(p, t, y, h, n - 1);
      SlopesAtRest(p, t, y, h, n - 1);
      CombineAtRest(y, h, Coupling[n - 2], prev);
      var k := Ode(p, t + Nodes[n - 1] * h, y);
      assert k == Zero;
      assert Slopes(p, t, y, h, n) == prev + [k];
    }
  }

  lemma {:induction false} ZeroWeightedSum(coeffs: seq<real>, ks: seq<Vec>)
    requires |coeffs| <= |ks| && forall j :: 0 <= j < |ks| ==> ks[j] == Zero
    ensures WeightedSum(coeffs, ks) == Zero
  {
    if |coeffs| > 0 {
      ZeroWeightedSum(coeffs[..|coeffs| - 1], ks);
    }
  }

  /** With all slopes zero, a weighted combination leaves the state unchanged. */
  lemma CombineAtRest(y: Vec, h: real, weights: seq<real>, ks: seq<Vec>)
    requires |weights| <= |ks| && forall j :: 0 <= j < |ks| ==> ks[j] == Zero
    ensures Combine(y, h, weights, ks) == y
  {
    ZeroWeightedSum(weights, ks);
  }

  /** Then the step leaves the state where it is, with a zero error estimate, so it
      is accepted. */
  lemma RestIsFixedPoint(p: Params, t: real, y: Vec, h: real)
    requires forall j :: 0 <= j < 6 ==> Ode(p, t + Nodes[j] * h, y) == Zero
    ensures Fifth(p, t, y, h) == y && Fourth(p, t, y, h) == y && ErrorSq(p, t, y, h) == 0.0
  {
    CombinesAtRest(p, t, y, h);
    ErrorVanishesIff(Fourth(p, t, y, h), Fifth(p, t, y, h));
  }

  /** A step from rest is always accepted, whatever the step size. */
  lemma RestIsAccepted(p: Params, t: real, y: Vec, h: real)
    requires forall j :: 0 <= j < 6 ==> Ode(p, t + Nodes[j] * h, y) == Zero
    ensures Accepts(ErrorSq(p, t, y, h), h)
  {
    RestIsFixedPoint(p, t, y, h);
  }

  lemma CombinesAtRest(p: Params, t: real, y: Vec, h: real)
    requires forall j :: 0 <= j < 6 ==> Ode(p, t + Nodes[j] * h, y) == Zero
    ensures Combine(y, h, Weights4, Slopes(p, t, y, h, 6)) == y
    ensures Combine(y, h, Weights5, Slopes(p, t, y, h, 6)) == y
  {
    var ks := Slopes(p, t, y, h, 6);
    SlopesAtRest(p, t, y, h, 6);
    CombineAtRest(y, h, Weights4, ks);
    CombineAtRest(y, h, Weights5, ks);
  }
}
