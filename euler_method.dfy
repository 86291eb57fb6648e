/** Fixed-step explicit Euler (Euler_method/code/euler_method.py): the input current
    array `In`, the slope `f(i, y)` that reads `In[i]`, and `euler`, which fills the
    arrays v and w in place for the steps 0..999 with the post-step spike rule and
    counts the spikes. */
module EulerMethod {
  import opened NeuronModel
  import opened PostStepSpike
  import opened IndexedInput

  const ScriptParams := Params(100.0, -60.0, -40.0, 0.7, 0.03, -2.0, -50.0, 100.0, 35.0)
  const ScriptH := 1.0
  const ArrayLength := 1001
  const StepCount := 1000

  /** The step `y + h f(i, y)` as the function the shared driver takes. */
  function EulerAdvance(p: Params, input: seq<real>, h: real): (nat, Vec) --> Vec {
    (i: nat, y: Vec) requires i < |input| => y.Plus(F(p, input, i, y).Times(h))
  }

  lemma EulerAdvanceAdmits(p: Params, input: seq<real>, h: real, n: nat)
    requires n <= |input|
    ensures Admits(EulerAdvance(p, input, h), n)
  {
  }

  /** `euler(v, w, In, h, f, vpeak, c, d)`: the steps 0..999 on the arrays in place;
      returns the number of spike steps. */
  method Euler(p: Params, v: array<real>, w: array<real>, input: seq<real>, h: real) returns (spikes: nat)
    requires v != w && StepCount < v.Length && StepCount < w.Length && StepCount <= |input|
    modifies v, w
    ensures var r := Run(p, EulerAdvance(p, input, h), Samples(old(v[..]), old(w[..]), 0), StepCount);
      v[..] == r.vs && w[..] == r.ws && spikes == r.spikes
  {
    EulerAdvanceAdmits(p, input, h, StepCount);
    ghost var s0 := Samples(v[..], w[..], 0);
    spikes := 0;
    for i := 0 to StepCount
      invariant Samples(v[..], w[..], spikes) == Run(p, EulerAdvance(p, input, h), s0, i)
    {
      spikes := EulerLoopBody(p, v, w, input, h, i, spikes);
    }
  }

  /** One pass of the loop of `euler`: write the Euler step to sample i+1, then apply
      the post-step spike rule. */
  method EulerLoopBody(p: Params, v: array<real>, w: array<real>, input: seq<real>, h: real, i: nat,
                       spikesBefore: nat) returns (spikes: nat)
    requires v != w && i + 1 < v.Length && i + 1 < w.Length && i < |input|
    modifies v, w
    ensures Samples(v[..], w[..], spikes)
         == Step(p, EulerAdvance(p, input, h), Samples(old(v[..]), old(w[..]), spikesBefore), i)
  {
    ghost var vs, ws := v[..], w[..];
    spikes := spikesBefore;
    var y := Vec(v[i], w[i]);
    var derivatives := F(p, input, i, y);
    var next := y.Plus(derivatives.Times(h));
    assert next == EulerAdvance(p, input, h)(i, y);
    v[i + 1] := next.v;
    w[i + 1] := next.w;
    if v[i + 1] >= p.vpeak {
      v[i] := p.vpeak;
      v[i + 1] := p.c;
      w[i + 1] := w[i + 1] + p.d;
      spikes := spikes + 1;
      assert v[..] == vs[i := p.vpeak][i + 1 := p.c];
      assert w[..] == ws[i + 1 := next.w + p.d];
    } else {
      assert v[..] == vs[i + 1 := next.v];
      assert w[..] == ws[i + 1 := next.w];
    }
  }

  /** The script: `In`, zero arrays with v[0] = vr, then `spikes = euler(...)`. Every
      stored voltage stays at or below the cutoff and the spike count is the number of
      samples at the cutoff, at most 1000. */
  method Script() returns (v: array<real>, w: array<real>, spikes: nat)
    ensures fresh(v) && fresh(w) && v.Length == ArrayLength && w.Length == ArrayLength
    ensures forall j :: 0 <= j < v.Length ==> v[j] <= ScriptParams.vpeak
    ensures spikes == CountPeaks(ScriptParams.vpeak, v[..]) && spikes <= StepCount
  {
    var p := ScriptParams;
    var input := StepInput(ArrayLength);
    StepInputShape(ArrayLength);
    v := new real[ArrayLength](_ => 0.0);
    w := new real[ArrayLength](_ => 0.0);
    v[0] := p.vr;
    w[0] := 0.0;
    ghost var s0 := Samples(v[..], w[..], 0);
    spikes := Euler(p, v, w, input, ScriptH);
    EulerAdvanceAdmits(p, input, ScriptH, StepCount);
    RunBoundedByPeak(p, EulerAdvance(p, input, ScriptH), s0, StepCount);
    SpikesArePeaks(p, EulerAdvance(p, input, ScriptH), s0, StepCount);
    assert v[..] == v[..StepCount + 1];
  }
}
