/** Heun's predictor-corrector (Heun_method/code/Heun_method.py): the top-level loop
    over i = 0..999 predicts with an Euler step, corrects with the mean of the slopes
    at (i, y) and (i+1, y_pred), stores the corrected state as sample i+1 and applies
    the post-step spike rule. */
module HeunMethod {
  import opened NeuronModel
  import opened PostStepSpike
  import opened IndexedInput

  const ScriptParams := Params(100.0, -60.0, -40.0, 0.7, 0.03, -2.0, -50.0, 100.0, 35.0)
  const ScriptH := 1.0
  const ArrayLength := 1001
  const StepCount := 1000

  /** `y_predicted = y + h f(i, y)`. */
  function Predict(p: Params, input: seq<real>, h: real, i: nat, y: Vec): Vec
    requires i < |input|
  {
    y.Plus(F(p, input, i, y).Times(h))
  }

  /** `y_corrected = y + (h/2) (f(i, y) + f(i+1, y_predicted))`. */
  function Correct(p: Params, input: seq<real>, h: real, i: nat, y: Vec): Vec
    requires i + 1 < |input|
  {
    y.Plus(F(p, input, i, y).Plus(F(p, input, i + 1, Predict(p, input, h, i, y))).Times(h / 2.0))
  }

  /** When the slope at the predicted point equals the slope at the start, the
      corrector adds nothing to the predictor. */
  lemma CorrectorMatchesPredictor(p: Params, input: seq<real>, h: real, i: nat, y: Vec)
    requires i + 1 < |input|
    requires F(p, input, i + 1, Predict(p, input, h, i, y)) == F(p, input, i, y)
    ensures Correct(p, input, h, i, y) == Predict(p, input, h, i, y)
  {
    var k := F(p, input, i, y);
    HalfSum(h, k.v);
    HalfSum(h, k.w);
  }

  lemma HalfSum(h: real, x: real)
    ensures (h / 2.0) * (x + x) == h * x
  {
  }

  /** At an equilibrium under a constant input the Heun step stays put. */
  lemma RestIsFixedPoint(p: Params, input: seq<real>, h: real, i: nat, y: Vec)
    requires i + 1 < |input| && input[i + 1] == input[i] && Derivative(p, y, input[i]) == Zero
    ensures Correct(p, input, h, i, y) == y
  {
    EulerAtRest(p, y, input[i], h);
    assert Predict(p, input, h, i, y) == y;
    CorrectorMatchesPredictor(p, input, h, i, y);
  }

  /** The corrected step as the function the shared driver takes. */
  function HeunAdvance(p: Params, input: seq<real>, h: real): (nat, Vec) --> Vec {
    (i: nat, y: Vec) requires i + 1 < |input| => Correct(p, input, h, i, y)
  }

  lemma HeunAdvanceAdmits(p: Params, input: seq<real>, h: real, n: nat)
    requires n < |input|
    ensures Admits(HeunAdvance(p, input, h), n)
  {
  }

  /** The loop at the top level of the script, on the arrays in place. The script
      counts no spikes; the driver's counter is kept as ghost state for the proof. */
  method HeunLoop(p: Params, v: array<real>, w: array<real>, input: seq<real>, h: real) returns (ghost spikes: nat)
    requires v != w && StepCount < v.Length && StepCount < w.Length && StepCount < |input|
    modifies v, w
    ensures var r := Run(p, HeunAdvance(p, input, h), Samples(old(v[..]), old(w[..]), 0), StepCount);
      v[..] == r.vs && w[..] == r.ws && spikes == r.spikes
  {
    HeunAdvanceAdmits(p, input, h, StepCount);
    ghost var s0 := Samples(v[..], w[..], 0);
    spikes := 0;
    for i := 0 to StepCount
      invariant Samples(v[..], w[..], spikes) == Run(p, HeunAdvance(p, input, h), s0, i)
    {
      spikes := HeunLoopBody(p, v, w, input, h, i, spikes);
    }
  }

  /** One pass of the loop: predictor, corrector, store, post-step spike rule. */
  method HeunLoopBody(p: Params, v: array<real>, w: array<real>, input: seq<real>, h: real, i: nat,
                      ghost spikesBefore: nat) returns (ghost spikes: nat)
    requires v != w && i + 1 < v.Length && i + 1 < w.Length && i + 1 < |input|
    modifies v, w
    ensures Samples(v[..], w[..], spikes)
         == Step(p, HeunAdvance(p, input, h), Samples(old(v[..]), old(w[..]), spikesBefore), i)
  {
    ghost var vs, ws := v[..], w[..];
    spikes := spikesBefore;
    var y := Vec(v[i], w[i]);
    var derivatives := F(p, input, i, y);
    var predicted := y.Plus(derivatives.Times(h));
    var corrected := y.Plus(F(p, input, i, y).Plus(F(p, input, i + 1, predicted)).Times(h / 2.0));
    assert corrected == HeunAdvance(p, input, h)(i, y);
    v[i + 1] := corrected.v;
    w[i + 1] := corrected.w;
    if v[i + 1] >= p.vpeak {
      v[i] := p.vpeak;
      v[i + 1] := p.c;
      w[i + 1] := w[i + 1] + p.d;
      spikes := spikes + 1;
      assert v[..] == vs[i := p.vpeak][i + 1 := p.c];
      assert w[..] == ws[i + 1 := corrected.w + p.d];
    } else {
      assert v[..] == vs[i + 1 := corrected.v];
      assert w[..] == ws[i + 1 := corrected.w];
    }
  }

  /** The arrays before the loop: zeros, with v[0] = vr. */
  function InitialSamples(): Samples {
    Samples(seq(ArrayLength, j => if j == 0 then ScriptParams.vr else 0.0), seq(ArrayLength, _ => 0.0), 0)
  }

  lemma InitialBelowPeak()
    ensures |InitialSamples().vs| == ArrayLength
    ensures forall j :: 0 <= j < ArrayLength ==> InitialSamples().vs[j] <= ScriptParams.vpeak
  {
  }

  /** The script: `In`, zero arrays with v[0] = vr, then the loop. No stored voltage
      exceeds the cutoff, and the spike count the script prints (samples equal to
      vpeak) is the number of spike steps of the loop, at most 1000. */
  method Script() returns (v: array<real>, w: array<real>, printedSpikes: nat, ghost spikeSteps: nat)
    ensures fresh(v) && fresh(w) && v.Length == ArrayLength && w.Length == ArrayLength
    ensures forall j :: 0 <= j < v.Length ==> v[j] <= ScriptParams.vpeak
    ensures printedSpikes == CountPeaks(ScriptParams.vpeak, v[..]) && printedSpikes <= StepCount
    ensures Admits(HeunAdvance(ScriptParams, StepInput(ArrayLength), ScriptH), StepCount)
            && spikeSteps == Run(ScriptParams, HeunAdvance(ScriptParams, StepInput(ArrayLength), ScriptH),
                                 InitialSamples(), StepCount).spikes
    ensures printedSpikes == spikeSteps
  {
    var p := ScriptParams;
    var input := StepInput(ArrayLength);
    v, w := InitialArrays();
    spikeSteps := HeunLoop(p, v, w, input, ScriptH);
    ScriptRunFacts();
    ghost var r := Run(p, HeunAdvance(p, input, ScriptH), InitialSamples(), StepCount);
    assert v[..] == r.vs && spikeSteps == r.spikes;
    printedSpikes := CountPeaksOf(v, p.vpeak);
    assert forall j :: 0 <= j < v.Length ==> v[j] == r.vs[j];
  }

  /** `v = np.zeros(1001)`, `w = np.zeros(1001)`, `v[0] = vr`, `w[0] = 0`. */
  method InitialArrays() returns (v: array<real>, w: array<real>)
    ensures fresh(v) && fresh(w) && v != w && v.Length == ArrayLength && w.Length == ArrayLength
    ensures v[..] == InitialSamples().vs && w[..] == InitialSamples().ws
  {
    v := new real[ArrayLength](_ => 0.0);
    w := new real[ArrayLength](_ => 0.0);
    v[0] := ScriptParams.vr;
    w[0] := 0.0;
    assert v[..] == InitialSamples().vs;
    assert w[..] == InitialSamples().ws;
  }

  /** The run of the script's loop from the initial arrays: every sample at or below
      the cutoff, and the spike counter equal to the number of samples at the cutoff. */
  lemma ScriptRunFacts()
    ensures Admits(HeunAdvance(ScriptParams, StepInput(ArrayLength), ScriptH), StepCount)
    ensures var r := Run(ScriptParams, HeunAdvance(ScriptParams, StepInput(ArrayLength), ScriptH),
                         InitialSamples(), StepCount);
      && (forall j :: 0 <= j < |r.vs| ==> r.vs[j] <= ScriptParams.vpeak)
      && r.spikes == CountPeaks(ScriptParams.vpeak, r.vs) && r.spikes <= StepCount
  {
    HeunAdvanceAdmits(ScriptParams, StepInput(ArrayLength), ScriptH, StepCount);
    InitialBelowPeak();
    PeaksOfRun(ScriptParams, HeunAdvance(ScriptParams, StepInput(ArrayLength), ScriptH), InitialSamples(), StepCount);
  }

  /** A run over the whole arrays from samples at or below the cutoff, with the first
      below it and c below it too, keeps every sample at or below the cutoff and counts
      exactly the samples at the cutoff. */
  lemma PeaksOfRun(p: Params, advance: (nat, Vec) --> Vec, s0: Samples, n: nat)
    requires |s0.vs| == n + 1 && n < |s0.ws| && Admits(advance, n) && s0.spikes == 0
    requires p.c < p.vpeak && s0.vs[0] < p.vpeak && forall j :: 0 <= j < |s0.vs| ==> s0.vs[j] <= p.vpeak
    ensures var r := Run(p, advance, s0, n);
      && (forall j :: 0 <= j < |r.vs| ==> r.vs[j] <= p.vpeak)
      && r.spikes == CountPeaks(p.vpeak, r.vs) && r.spikes <= n
  {
    RunBoundedByPeak(p, advance, s0, n);
    SpikesArePeaks(p, advance, s0, n);
    var r := Run(p, advance, s0, n);
    assert r.vs == r.vs[..n + 1];
  }

  /** `len([i for i in range(len(v)) if v[i] == vpeak])`. */
  method CountPeaksOf(v: array<real>, vpeak: real) returns (count: nat)
    ensures count == CountPeaks(vpeak, v[..])
  {
    count := 0;
    for j := 0 to v.Length
      invariant count == CountPeaks(vpeak, v[..j])
    {
      assert v[..j + 1][..j] == v[..j];
      if v[j] == vpeak {
        count := count + 1;
      }
    }
    assert v[..v.Length] == v[..];
  }
}
