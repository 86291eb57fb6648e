/** The stand-alone explicit Euler script (Euler_method/Code/Euler.py). Its state lives
    in module-level globals: the call counter `ncall`, the loop index `i` that the
    slope function reads to pick `In[i]`, and the arrays `In`, `v` and `w` of length
    nout + 2. Here those globals are the fields of one object. The loop runs the steps
    0..nout with the post-step spike rule, so it is the shared driver run for nout + 1
    steps with the explicit Euler step on `In`. */
module EulerGlobals {
  import opened NeuronModel
  import opened PostStepSpike
  import opened IndexedInput
  import EulerMethod

  const ScriptParams := Params(100.0, -60.0, -40.0, 0.7, 0.03, -2.0, -50.0, 100.0, 35.0)
  const Nout := 1000
  const ScriptH := 1.0

  class EulerScript {
    const p: Params
    const h: real
    const In: seq<real>
    const v: array<real>
    const w: array<real>
    /** Number of calls of the slope function so far. */
    var ncall: nat
    /** The global loop index; the slope function reads `In[i]`. */
    var i: nat

    ghost predicate Valid()
      reads this
    {
      v != w && v.Length == Nout + 2 && w.Length == Nout + 2 && |In| == Nout + 2
    }

    /** The module-level set-up: the constants, `In` zero with `In[101:] = 70`,
        `v` and `w` zero except `v[0] = vr`, and `ncall = 0`. */
    constructor ()
      ensures Valid() && fresh(v) && fresh(w)
      ensures p == ScriptParams && h == ScriptH && In == StepInput(Nout + 2) && ncall == 0 && i == 0
      ensures v[0] == p.vr && forall j :: 1 <= j < v.Length ==> v[j] == 0.0
      ensures forall j :: 0 <= j < w.Length ==> w[j] == 0.0
    {
      p := ScriptParams;
      h := ScriptH;
      In := StepInput(Nout + 2);
      v := new real[Nout + 2](j => if j == 0 then ScriptParams.vr else 0.0);
      w := new real[Nout + 2](_ => 0.0);
      ncall := 0;
      i := 0;
    }

    /** `neuron(t, y)`: the slope at y under the current `In[i]`; `t` is not used.
        Every call counts. */
    method Neuron(t: real, y: Vec) returns (r: Vec)
      requires Valid() && i < |In|
      modifies this`ncall
      ensures r == Derivative(p, y, In[i]) && ncall == old(ncall) + 1
    {
      r := Derivative(p, y, In[i]);
      ncall := ncall + 1;
    }

    /** `euler(h, t, y)`: one explicit Euler step of size h with the slope above. */
    method Euler(h: real, t: real, y: Vec) returns (r: Vec)
      requires Valid() && i < |In|
      modifies this`ncall
      ensures r == EulerStep(p, y, In[i], h) && ncall == old(ncall) + 1
    {
      var deriv := Neuron(t, y);
      r := y.Plus(deriv.Times(h));
    }

    /** The loop `for i in range(0, nout + 1)`: after it the arrays are the driver's
        run of nout + 1 Euler steps, the slope function was called once per step and
        `i` holds the last index. */
    method Simulate() returns (ghost spikes: nat)
      requires Valid()
      modifies this, v, w
      ensures ncall == old(ncall) + Nout + 1 && i == Nout
      ensures var r := Run(p, EulerMethod.EulerAdvance(p, In, h), Samples(old(v[..]), old(w[..]), 0), Nout + 1);
        v[..] == r.vs && w[..] == r.ws && spikes == r.spikes
    {
      EulerMethod.EulerAdvanceAdmits(p, In, h, Nout + 1);
      ghost var s0 := Samples(v[..], w[..], 0);
      spikes := 0;
      for k := 0 to Nout + 1
        invariant ncall == old(ncall) + k && (k > 0 ==> i == k - 1)
        invariant Samples(v[..], w[..], spikes) == Run(p, EulerMethod.EulerAdvance(p, In, h), s0, k)
      {
        i := k;
        spikes := Iterate(spikes);
      }
    }

    /** One pass of the loop at index i: the Euler step stored at i+1, then the
        post-step spike rule with cn and dn. */
    method Iterate(ghost spikesBefore: nat) returns (ghost spikes: nat)
      requires Valid() && i + 1 < v.Length
      modifies this`ncall, v, w
      ensures ncall == old(ncall) + 1
      ensures Samples(v[..], w[..], spikes)
           == Step(p, EulerMethod.EulerAdvance(p, In, h), Samples(old(v[..]), old(w[..]), spikesBefore), i)
    {
      ghost var vs, ws := v[..], w[..];
      spikes := spikesBefore;
      var y := Vec(v[i], w[i]);
      var yout := Euler(h, i as real, y);
      assert yout == EulerMethod.EulerAdvance(p, In, h)(i, y);
      v[i + 1] := yout.v;
      w[i + 1] := yout.w;
      if v[i + 1] >= p.vpeak {
        v[i] := p.vpeak;
        v[i + 1] := p.c;
        w[i + 1] := w[i + 1] + p.d;
        spikes := spikes + 1;
        assert v[..] == vs[i := p.vpeak][i + 1 := p.c];
        assert w[..] == ws[i + 1 := yout.w + p.d];
      } else {
        assert v[..] == vs[i + 1 := yout.v];
        assert w[..] == ws[i + 1 := yout.w];
      }
    }
  }

  /** The whole script: set-up and loop. The slope function is called nout + 1 = 1001
      times, and no stored voltage exceeds vpeak. */
  method Script() returns (s: EulerScript)
    ensures fresh(s) && s.Valid() && s.ncall == Nout + 1
    ensures forall j :: 0 <= j < s.v.Length ==> s.v[j] <= ScriptParams.vpeak
  {
    s := new EulerScript();
    StepInputShape(Nout + 2);
    ghost var s0 := Samples(s.v[..], s.w[..], 0);
    assert forall j :: 0 <= j < |s0.vs| ==> s0.vs[j] <= s.p.vpeak by {
      forall j | 0 <= j < |s0.vs|
        ensures s0.vs[j] <= s.p.vpeak
      {
        assert s0.vs[j] == s.v[j];
      }
    }
    ghost var spikes := s.Simulate();
    EulerMethod.EulerAdvanceAdmits(s.p, s.In, s.h, Nout + 1);
    RunBoundedByPeak(s.p, EulerMethod.EulerAdvance(s.p, s.In, s.h), s0, Nout + 1);
  }
}
