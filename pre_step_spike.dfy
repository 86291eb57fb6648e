/** The fixed-step driver shared by the Backward Euler and Runge-Kutta-Chebyshev
    scripts. For step i it first looks at the STORED voltage v[i]: when it is at or
    above the cutoff, v[i] is clamped to vpeak, the next sample is the reset state and
    no solver runs; otherwise the method's own step computes sample i+1. Each step
    appends exactly one iteration record.

    `Run(…, n)` is the content of the arrays `v[0..n]`, `w[0..n]` and of the record
    list after n steps; the solver methods are proved to produce exactly it. */
module PreStepSpike {
  import opened NeuronModel

  /** What a method's step produces from a non-spiking state. */
  datatype Advance = Advance(next: Vec, iterations: nat)

  /** One entry of `iteration_data`. */
  datatype IterationRecord = IterationRecord(step: nat, time: real, vBefore: real, wBefore: real,
                                             iterations: nat, vAfter: real, wAfter: real,
                                             message: string)

  const SpikeMessage := "Spike detected - reset values"

  /** The arrays v and w (samples 0..n) and the records after n steps. */
  datatype Trajectory = Trajectory(vs: seq<real>, ws: seq<real>, records: seq<IterationRecord>)

  ghost predicate WellFormed(tr: Trajectory) {
    |tr.vs| == |tr.ws| == |tr.records| + 1
  }

  /** Step i = |tr.records| of the loop. */
  function Step(p: Params, advance: Vec -> Advance, dt: real, message: string, tr: Trajectory): (r: Trajectory)
    requires WellFormed(tr)
    ensures WellFormed(r) && |r.records| == |tr.records| + 1
    ensures r.records[..|tr.records|] == tr.records
    ensures r.ws[..|tr.ws|] == tr.ws
    ensures r.vs[..|tr.records|] == tr.vs[..|tr.records|]
  {
    var i := |tr.records|;
    var vi, wi := tr.vs[i], tr.ws[i];
    if vi >= p.vpeak then
      var after := Reset(p, wi);
      Trajectory(tr.vs[i := p.vpeak] + [after.v], tr.ws + [after.w],
                 tr.records + [IterationRecord(i, i as real * dt, p.vpeak, wi, 0, after.v, after.w, SpikeMessage)])
    else
      var o := advance(Vec(vi, wi));
      Trajectory(tr.vs + [o.next.v], tr.ws + [o.next.w],
                 tr.records + [IterationRecord(i, i as real * dt, vi, wi, o.iterations, o.next.v, o.next.w, message)])
  }

  /** The state of the driver after n steps from the initial state y0. */
  function Run(p: Params, advance: Vec -> Advance, dt: real, message: string, y0: Vec, n: nat): (r: Trajectory)
    ensures WellFormed(r) && |r.records| == n
    ensures r.vs[0] == y0.v || (n > 0 && r.vs[0] == p.vpeak)
    ensures r.ws[0] == y0.w
    ensures forall j :: 0 <= j < n ==> r.records[j].step == j && r.records[j].time == j as real * dt
  {
    if n == 0 then Trajectory([y0.v], [y0.w], [])
    else
      var prev := Run(p, advance, dt, message, y0, n - 1);
      var r := Step(p, advance, dt, message, prev);
      assert r.ws[0] == prev.ws[0];
      r
  }

  lemma RunUnfold(p: Params, advance: Vec -> Advance, dt: real, message: string, y0: Vec, i: nat)
    ensures Run(p, advance, dt, message, y0, i + 1) == Step(p, advance, dt, message, Run(p, advance, dt, message, y0, i))
  {
  }

  /** The step from a trajectory whose last voltage is at or above the cutoff. */
  lemma SpikeStepShape(p: Params, advance: Vec -> Advance, dt: real, message: string, tr: Trajectory, i: nat)
    requires WellFormed(tr) && i == |tr.records| && tr.vs[i] >= p.vpeak
    ensures Step(p, advance, dt, message, tr)
      == Trajectory(tr.vs[i := p.vpeak] + [p.c], tr.ws + [tr.ws[i] + p.d],
                    tr.records + [IterationRecord(i, i as real * dt, p.vpeak, tr.ws[i], 0, p.c, tr.ws[i] + p.d,
                                                  SpikeMessage)])
  {
    var r := Step(p, advance, dt, message, tr);
    var rec := IterationRecord(i, i as real * dt, p.vpeak, tr.ws[i], 0, p.c, tr.ws[i] + p.d, SpikeMessage);
    assert r.vs == tr.vs[i := p.vpeak] + [p.c];
    assert r.ws == tr.ws + [tr.ws[i] + p.d];
    assert r.records[..i] == tr.records && |r.records| == i + 1;
    assert r.records[i] == rec;
    assert r.records == tr.records + [rec];
    assert r == Trajectory(tr.vs[i := p.vpeak] + [p.c], tr.ws + [tr.ws[i] + p.d], tr.records + [rec]);
  }

  /** The step from a trajectory whose last voltage is below the cutoff, when the
      method's step returns o. */
  lemma NormalStepShape(p: Params, advance: Vec -> Advance, dt: real, message: string, tr: Trajectory, i: nat,
                        o: Advance)
    requires WellFormed(tr) && i == |tr.records| && tr.vs[i] < p.vpeak
    requires advance(Vec(tr.vs[i], tr.ws[i])) == o
    ensures Step(p, advance, dt, message, tr)
      == Trajectory(tr.vs + [o.next.v], tr.ws + [o.next.w],
                    tr.records + [IterationRecord(i, i as real * dt, tr.vs[i], tr.ws[i], o.iterations,
                                                  o.next.v, o.next.w, message)])
  {
    var r := Step(p, advance, dt, message, tr);
    var rec := IterationRecord(i, i as real * dt, tr.vs[i], tr.ws[i], o.iterations, o.next.v, o.next.w, message);
    assert r.vs == tr.vs + [o.next.v];
    assert r.ws == tr.ws + [o.next.w];
    assert r.records[..i] == tr.records && |r.records| == i + 1;
    assert r.records[i] == rec;
    assert r.records == tr.records + [rec];
    assert r == Trajectory(tr.vs + [o.next.v], tr.ws + [o.next.w], tr.records + [rec]);
  }

  /** Later steps never touch earlier records, earlier w samples, or v samples
      before the one they start from. */
  lemma {:induction false} RunPrefix(p: Params, advance: Vec -> Advance, dt: real, message: string,
                                     y0: Vec, j: nat, m: nat)
    requires j <= m
    ensures Run(p, advance, dt, message, y0, m).records[..j] == Run(p, advance, dt, message, y0, j).records
    ensures Run(p, advance, dt, message, y0, m).ws[..j + 1] == Run(p, advance, dt, message, y0, j).ws
    ensures Run(p, advance, dt, message, y0, m).vs[..j] == Run(p, advance, dt, message, y0, j).vs[..j]
    decreases m
  {
    if j < m {
      var prev := Run(p, advance, dt, message, y0, m - 1);
      var last := Run(p, advance, dt, message, y0, m);
      RunPrefix(p, advance, dt, message, y0, j, m - 1);
      assert last == Step(p, advance, dt, message, prev);
      assert last.records[..m - 1] == prev.records[..m - 1];
      SamePrefix(last.records, prev.records, m - 1, j);
      assert last.ws[..m] == prev.ws[..m];
      SamePrefix(last.ws, prev.ws, m, j + 1);
      SamePrefix(last.vs, prev.vs, m - 1, j);
    }
  }

  /** Sequences that agree on their first k entries agree on their first j <= k. */
  lemma SamePrefix<T>(a: seq<T>, b: seq<T>, k: nat, j: nat)
    requires j <= k <= |a| && k <= |b| && a[..k] == b[..k]
    ensures a[..j] == b[..j]
  {
    assert forall i :: 0 <= i < j ==> a[i] == a[..k][i] && b[i] == b[..k][i];
  }

  /** Whether step i found the stored voltage at or above the cutoff. */
  ghost predicate SpikesAt(p: Params, advance: Vec -> Advance, dt: real, message: string, y0: Vec, i: nat) {
    Run(p, advance, dt, message, y0, i).vs[i] >= p.vpeak
  }

  /** A spike step clamps v[i] to vpeak, puts the reset value c in v[i+1] (which a
      following step clamps again only when c itself reaches the cutoff), adds d to w,
      and records zero iterations. */
  lemma {:induction false} SpikeStep(p: Params, advance: Vec -> Advance, dt: real, message: string, y0: Vec, n: nat, i: nat)
    requires i < n && SpikesAt(p, advance, dt, message, y0, i)
    ensures var r := Run(p, advance, dt, message, y0, n);
      && r.vs[i] == p.vpeak
      && r.vs[i + 1] == (if i + 1 < n && p.c >= p.vpeak then p.vpeak else p.c)
      && r.ws[i + 1] == r.ws[i] + p.d
      && r.records[i] == IterationRecord(i, i as real * dt, p.vpeak, r.ws[i], 0, p.c, r.ws[i] + p.d, SpikeMessage)
  {
    var r := Run(p, advance, dt, message, y0, n);
    var before := Run(p, advance, dt, message, y0, i);
    var after := Run(p, advance, dt, message, y0, i + 1);
    assert after == Step(p, advance, dt, message, before);
    var wi := before.ws[i];
    assert after.vs[i] == p.vpeak && after.vs[i + 1] == p.c && after.ws[i] == wi && after.ws[i + 1] == wi + p.d;
    assert after.records[i] == IterationRecord(i, i as real * dt, p.vpeak, wi, 0, p.c, wi + p.d, SpikeMessage);
    RunPrefix(p, advance, dt, message, y0, i + 1, n);
    assert r.records[i] == r.records[..i + 1][i] == after.records[i];
    assert r.ws[i] == r.ws[..i + 2][i] && r.ws[i + 1] == r.ws[..i + 2][i + 1];
    if i + 1 < n {
      var next := Run(p, advance, dt, message, y0, i + 2);
      assert next == Step(p, advance, dt, message, after);
      assert next.vs[i] == p.vpeak;
      assert next.vs[i + 1] == (if p.c >= p.vpeak then p.vpeak else p.c);
      RunPrefix(p, advance, dt, message, y0, i + 2, n);
      assert r.vs[i] == r.vs[..i + 2][i] == next.vs[i];
      assert r.vs[i + 1] == r.vs[..i + 2][i + 1] == next.vs[i + 1];
    }
  }

  /** With the reset value below the cutoff, the step right after a spike step is a
      normal step: the reset re-arms the spike check. */
  lemma SpikeRearms(p: Params, advance: Vec -> Advance, dt: real, message: string, y0: Vec, i: nat)
    requires p.c < p.vpeak && SpikesAt(p, advance, dt, message, y0, i)
    ensures !SpikesAt(p, advance, dt, message, y0, i + 1)
  {
    var before := Run(p, advance, dt, message, y0, i);
    var after := Run(p, advance, dt, message, y0, i + 1);
    assert after == Step(p, advance, dt, message, before);
    ResetRearms(p, before.ws[i]);
    assert after.vs[i + 1] == Reset(p, before.ws[i]).v;
  }

  /** A spike step does not consult the method's step at all: any other solver
      gives the same step. */
  lemma SpikeIgnoresSolver(p: Params, advance: Vec -> Advance, other: Vec -> Advance, dt: real,
                           message: string, tr: Trajectory)
    requires WellFormed(tr) && tr.vs[|tr.records|] >= p.vpeak
    ensures Step(p, advance, dt, message, tr) == Step(p, other, dt, message, tr)
  {
  }

  /** A normal step stores the method's result as sample i+1 and records it. */
  lemma {:induction false} NormalStep(p: Params, advance: Vec -> Advance, dt: real, message: string, y0: Vec, n: nat, i: nat)
    requires i < n && !SpikesAt(p, advance, dt, message, y0, i)
    ensures var r := Run(p, advance, dt, message, y0, n);
      var o := advance(Vec(r.vs[i], r.ws[i]));
      && r.vs[i] < p.vpeak
      && r.ws[i + 1] == o.next.w
      && Run(p, advance, dt, message, y0, i + 1).vs[i + 1] == o.next.v
      && r.records[i] == IterationRecord(i, i as real * dt, r.vs[i], r.ws[i], o.iterations,
                                         o.next.v, o.next.w, message)
  {
    var r := Run(p, advance, dt, message, y0, n);
    var before := Run(p, advance, dt, message, y0, i);
    RunPrefix(p, advance, dt, message, y0, i, n);
    RunPrefix(p, advance, dt, message, y0, i + 1, n);
    assert r.records[i] == r.records[..i + 1][i];
    assert r.ws[i] == r.ws[..i + 1][i] && r.ws[i + 1] == r.ws[..i + 2][i + 1];
    assert r.vs[i] == r.vs[..i + 1][i];
  }

  /** Every record is either a spike record (clamped v, no iterations) or a normal
      record that carries exactly what the method's step returned for its before-state. */
  lemma {:induction false} RecordShape(p: Params, advance: Vec -> Advance, dt: real, message: string, y0: Vec, n: nat, i: nat)
    requires i < n
    ensures var rec := Run(p, advance, dt, message, y0, n).records[i];
      var o := advance(Vec(rec.vBefore, rec.wBefore));
      || (rec.vBefore == p.vpeak && rec.iterations == 0 && rec.vAfter == p.c && rec.message == SpikeMessage)
      || (rec.vBefore < p.vpeak && rec.iterations == o.iterations && Vec(rec.vAfter, rec.wAfter) == o.next
          && rec.message == message)
  {
    if SpikesAt(p, advance, dt, message, y0, i) {
      SpikeStep(p, advance, dt, message, y0, n, i);
    } else {
      NormalStep(p, advance, dt, message, y0, n, i);
    }
  }

  /** When every step of the method reports between lo and hi iterations, so does
      every normal record, while spike records report none. */
  lemma {:induction false} RecordedIterationsWithin(p: Params, advance: Vec -> Advance, dt: real, message: string,
                                                    y0: Vec, n: nat, i: nat, lo: nat, hi: nat)
    requires i < n && message != SpikeMessage
    requires forall y :: lo <= advance(y).iterations <= hi
    ensures var rec := Run(p, advance, dt, message, y0, n).records[i];
      if rec.message == SpikeMessage then rec.iterations == 0 else lo <= rec.iterations <= hi
  {
    RecordShape(p, advance, dt, message, y0, n, i);
  }
}
