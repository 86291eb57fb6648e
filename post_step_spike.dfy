/** The fixed-step driver shared by the explicit Euler, Heun and `Euler.py` scripts.
    Step i computes the next state from sample i and writes it to sample i+1; when
    the new voltage reaches the cutoff, the PREVIOUS sample v[i] is overwritten with
    vpeak (so that plots show the spike), v[i+1] becomes the reset value c and d is
    added to the new w[i+1].

    `Run(…, n)` is the content of the whole arrays (and of the spike counter) after
    the steps 0..n-1; the methods that fill arrays in place are proved to produce it.
    The method's own step is a parameter: it receives the step index, so that it can
    read the input current at that index. */
module PostStepSpike {
  import opened NeuronModel

  /** The arrays v and w and the number of spike steps so far. */
  datatype Samples = Samples(vs: seq<real>, ws: seq<real>, spikes: nat)

  /** The method's step may be applied at every index below n. */
  ghost predicate Admits(advance: (nat, Vec) --> Vec, n: nat) {
    forall i: nat, y: Vec :: i < n ==> advance.requires(i, y)
  }

  /** Whether step i, taken from s, reaches the cutoff. */
  predicate Fires(p: Params, advance: (nat, Vec) --> Vec, s: Samples, i: nat)
    requires i < |s.vs| && i < |s.ws| && advance.requires(i, Vec(s.vs[i], s.ws[i]))
  {
    advance(i, Vec(s.vs[i], s.ws[i])).v >= p.vpeak
  }

  /** Step i. It changes v only at i and i+1, w only at i+1, and the counter by at
      most one. */
  function Step(p: Params, advance: (nat, Vec) --> Vec, s: Samples, i: nat): (r: Samples)
    requires i + 1 < |s.vs| && i + 1 < |s.ws| && advance.requires(i, Vec(s.vs[i], s.ws[i]))
    ensures |r.vs| == |s.vs| && |r.ws| == |s.ws|
    ensures forall j :: 0 <= j < |s.vs| && j != i && j != i + 1 ==> r.vs[j] == s.vs[j]
    ensures forall j :: 0 <= j < |s.ws| && j != i + 1 ==> r.ws[j] == s.ws[j]
    ensures r.spikes == s.spikes + (if Fires(p, advance, s, i) then 1 else 0)
  {
    var y := advance(i, Vec(s.vs[i], s.ws[i]));
    if y.v >= p.vpeak then
      var after := Reset(p, y.w);
      Samples(s.vs[i := p.vpeak][i + 1 := after.v], s.ws[i + 1 := after.w], s.spikes + 1)
    else
      Samples(s.vs[i + 1 := y.v], s.ws[i + 1 := y.w], s.spikes)
  }

  /** The arrays after the steps 0..n-1 from the initial arrays s0. */
  function Run(p: Params, advance: (nat, Vec) --> Vec, s0: Samples, n: nat): (r: Samples)
    requires n < |s0.vs| && n < |s0.ws| && Admits(advance, n)
    ensures |r.vs| == |s0.vs| && |r.ws| == |s0.ws|
    ensures s0.spikes <= r.spikes <= s0.spikes + n
  {
    if n == 0 then s0 else Step(p, advance, Run(p, advance, s0, n - 1), n - 1)
  }

  /** What step i stores: the new state at i+1, or on a spike vpeak at i and the
      after-spike state of the new w at i+1. */
  lemma StepEffect(p: Params, advance: (nat, Vec) --> Vec, s: Samples, i: nat)
    requires i + 1 < |s.vs| && i + 1 < |s.ws| && advance.requires(i, Vec(s.vs[i], s.ws[i]))
    ensures var r, y := Step(p, advance, s, i), advance(i, Vec(s.vs[i], s.ws[i]));
      if y.v >= p.vpeak then r.vs[i] == p.vpeak && Vec(r.vs[i + 1], r.ws[i + 1]) == Reset(p, y.w)
      else r.vs[i] == s.vs[i] && r.vs[i + 1] == y.v && r.ws[i + 1] == y.w
  {
  }

  /** The steps 0..n-1 leave every sample after n as it was. */
  lemma {:induction false} RunLeavesTail(p: Params, advance: (nat, Vec) --> Vec, s0: Samples, n: nat, j: nat)
    requires n < |s0.vs| && n < |s0.ws| && Admits(advance, n)
    requires n < j
    ensures j < |s0.vs| ==> Run(p, advance, s0, n).vs[j] == s0.vs[j]
    ensures j < |s0.ws| ==> Run(p, advance, s0, n).ws[j] == s0.ws[j]
  {
    if n > 0 {
      RunLeavesTail(p, advance, s0, n - 1, j);
    }
  }

  /** Number of samples equal to vpeak (what the Heun script prints as its spike count). */
  function CountPeaks(peak: real, s: seq<real>): (r: nat)
    ensures r <= |s|
  {
    if |s| == 0 then 0
    else CountPeaks(peak, s[..|s| - 1]) + (if s[|s| - 1] == peak then 1 else 0)
  }

  /** When the reset value lies below the cutoff and so does the first sample, the
      samples v[0..n] hold vpeak exactly at the spike steps: their number is the spike
      counter, and the newest sample v[n] is still below the cutoff. */
  lemma {:induction false} SpikesArePeaks(p: Params, advance: (nat, Vec) --> Vec, s0: Samples, n: nat)
    requires n < |s0.vs| && n < |s0.ws| && Admits(advance, n)
    requires p.c < p.vpeak && s0.vs[0] < p.vpeak
    ensures var r := Run(p, advance, s0, n);
      r.spikes == s0.spikes + CountPeaks(p.vpeak, r.vs[..n + 1]) && r.vs[n] < p.vpeak
  {
    if n > 0 {
      var prev := Run(p, advance, s0, n - 1);
      SpikesArePeaks(p, advance, s0, n - 1);
      assert advance.requires(n - 1, Vec(prev.vs[n - 1], prev.ws[n - 1]));
      StepCountsPeak(p, advance, prev, n - 1, s0.spikes);
      assert Run(p, advance, s0, n) == Step(p, advance, prev, n - 1);
    }
  }

  /** One step of SpikesArePeaks: the counter and the peak count of v[0..i+1] grow together. */
  lemma StepCountsPeak(p: Params, advance: (nat, Vec) --> Vec, s: Samples, i: nat, base: nat)
    requires i + 1 < |s.vs| && i + 1 < |s.ws| && advance.requires(i, Vec(s.vs[i], s.ws[i]))
    requires p.c < p.vpeak && s.vs[i] < p.vpeak && s.spikes == base + CountPeaks(p.vpeak, s.vs[..i + 1])
    ensures var r := Step(p, advance, s, i);
      r.spikes == base + CountPeaks(p.vpeak, r.vs[..i + 2]) && r.vs[i + 1] < p.vpeak
  {
    var r := Step(p, advance, s, i);
    var y := advance(i, Vec(s.vs[i], s.ws[i]));
    var pre := s.vs[..i];
    assert s.vs[..i + 1] == pre + [s.vs[i]];
    CountPeaksLast(p.vpeak, pre + [s.vs[i]]);
    assert (pre + [s.vs[i]])[..i] == pre;
    if y.v >= p.vpeak {
      assert r.vs[..i + 2] == pre + [p.vpeak, p.c];
      CountPeaksLast(p.vpeak, pre + [p.vpeak, p.c]);
      assert (pre + [p.vpeak, p.c])[..i + 1] == pre + [p.vpeak];
      CountPeaksLast(p.vpeak, pre + [p.vpeak]);
      assert (pre + [p.vpeak])[..i] == pre;
    } else {
      assert r.vs[..i + 2] == pre + [s.vs[i], y.v];
      CountPeaksLast(p.vpeak, pre + [s.vs[i], y.v]);
      assert (pre + [s.vs[i], y.v])[..i + 1] == pre + [s.vs[i]];
    }
  }

  lemma CountPeaksLast(peak: real, s: seq<real>)
    requires |s| > 0
    ensures CountPeaks(peak, s) == CountPeaks(peak, s[..|s| - 1]) + (if s[|s| - 1] == peak then 1 else 0)
  {
  }

  /** When the reset value lies below the cutoff, no step ever stores a voltage above
      the cutoff: a bound on the initial arrays is kept by every run. */
  lemma {:induction false} RunBoundedByPeak(p: Params, advance: (nat, Vec) --> Vec, s0: Samples, n: nat)
    requires n < |s0.vs| && n < |s0.ws| && Admits(advance, n)
    requires p.c < p.vpeak && forall j :: 0 <= j < |s0.vs| ==> s0.vs[j] <= p.vpeak
    ensures forall j :: 0 <= j < |s0.vs| ==> Run(p, advance, s0, n).vs[j] <= p.vpeak
  {
    if n > 0 {
      RunBoundedByPeak(p, advance, s0, n - 1);
      var before := Run(p, advance, s0, n - 1);
      StepEffect(p, advance, before, n - 1);
    }
  }
}
