/** The Unity MonoBehaviour in unity/firing_neurons/Assets/Scripts/NeuronDynamics.cs.
    Each frame adds the frame time to a timer and, when a whole 1 ms step has
    accumulated, runs ONE step: classical RK4 when the toggle is on, explicit Euler
    otherwise. Every step stores the truncated voltage in a 1000-entry reading buffer
    (VR for RK4, VE for Euler; the two share one `readingIndex`), and when the index
    reaches 1000 the buffer is scanned for its maximum and minimum and the index
    wraps to 0. Euler resets on an upward crossing of v_peak, RK4 whenever v is at or
    above v_peak. */
module UnityReadings {
  import opened Numerics
  import opened NeuronModel
  import opened UnityCommon

  const BufferSize := 1000

  /** The maximum and minimum a scan last showed in the stats text. */
  datatype Stats = Stats(maxV: int, minV: int)

  // ---------------------------------------------------------------------------
  // The min/max scan

  /** The running maximum of the scan: start from the first entry and take every
      later entry that is larger. */
  function MaxOf(s: seq<int>): int
    requires |s| > 0
  {
    if |s| == 1 then s[0]
    else
      var m := MaxOf(s[..|s| - 1]);
      if s[|s| - 1] > m then s[|s| - 1] else m
  }

  /** The running minimum, in the same way. */
  function MinOf(s: seq<int>): int
    requires |s| > 0
  {
    if |s| == 1 then s[0]
    else
      var m := MinOf(s[..|s| - 1]);
      if s[|s| - 1] < m then s[|s| - 1] else m
  }

  /** MaxOf is the largest entry: no entry exceeds it and some entry equals it. */
  lemma {:induction false} MaxOfIsMaximum(s: seq<int>)
    requires |s| > 0
    ensures forall j :: 0 <= j < |s| ==> s[j] <= MaxOf(s)
    ensures exists j :: 0 <= j < |s| && s[j] == MaxOf(s)
  {
    if |s| > 1 {
      var init := s[..|s| - 1];
      MaxOfIsMaximum(init);
      assert forall j :: 0 <= j < |init| ==> s[j] == init[j];
      if s[|s| - 1] <= MaxOf(init) {
        var j :| 0 <= j < |init| && init[j] == MaxOf(init);
        assert s[j] == MaxOf(s);
      } else {
        assert s[|s| - 1] == MaxOf(s);
      }
    } else {
      assert s[0] == MaxOf(s);
    }
  }

  /** MinOf is the smallest entry: no entry is below it and some entry equals it. */
  lemma {:induction false} MinOfIsMinimum(s: seq<int>)
    requires |s| > 0
    ensures forall j :: 0 <= j < |s| ==> MinOf(s) <= s[j]
    ensures exists j :: 0 <= j < |s| && s[j] == MinOf(s)
  {
    if |s| > 1 {
      var init := s[..|s| - 1];
      MinOfIsMinimum(init);
      assert forall j :: 0 <= j < |init| ==> s[j] == init[j];
      if s[|s| - 1] >= MinOf(init) {
        var j :| 0 <= j < |init| && init[j] == MinOf(init);
        assert s[j] == MinOf(s);
      } else {
        assert s[|s| - 1] == MinOf(s);
      }
    } else {
      assert s[0] == MinOf(s);
    }
  }

  /** The scan of a full buffer: `maxV` and `minV` start at entry 0 and the loop over
      entries 1..999 raises and lowers them. The results bound every entry and both
      occur in the buffer. */
  method Scan(a: array<int>) returns (maxV: int, minV: int)
    requires a.Length == BufferSize
    ensures maxV == MaxOf(a[..]) && minV == MinOf(a[..])
    ensures forall j :: 0 <= j < a.Length ==> minV <= a[j] <= maxV
    ensures (exists j :: 0 <= j < a.Length && a[j] == maxV) && (exists j :: 0 <= j < a.Length && a[j] == minV)
  {
    maxV := a[0];
    minV := a[0];
    for i := 1 to BufferSize
      invariant maxV == MaxOf(a[..i]) && minV == MinOf(a[..i])
    {
      assert a[..i + 1][..i] == a[..i];
      if a[i] > maxV {
        maxV := a[i];
      }
      if a[i] < minV {
        minV := a[i];
      }
    }
    assert a[..BufferSize] == a[..];
    MaxOfIsMaximum(a[..]);
    MinOfIsMinimum(a[..]);
  }

  // ---------------------------------------------------------------------------
  // The reading buffer

  /** A buffer, the shared index and the stats of a scan when one ran. */
  datatype Reading = Reading(buffer: seq<int>, index: int, stats: Option<Stats>)

  /** One reading: `(int)v` is stored at the index while the index is below 1000 and
      the index moves on; when it has reached 1000 the buffer is scanned and the
      index wraps to 0. */
  function Store(buffer: seq<int>, index: int, v: real): Reading
    requires |buffer| == BufferSize && 0 <= index
  {
    var stored := if index < BufferSize then buffer[index := Trunc(v)] else buffer;
    var next := if index < BufferSize then index + 1 else index;
    if next == BufferSize then Reading(stored, 0, Some(Stats(MaxOf(stored), MinOf(stored))))
    else Reading(stored, next, None)
  }

  /** From an index in [0, 1000) the reading writes `(int)v` at that index and
      nowhere else, and the index stays in [0, 1000): it wraps to 0, with a scan,
      exactly when it reaches 1000. */
  lemma StoreKeepsIndex(buffer: seq<int>, index: int, v: real)
    requires |buffer| == BufferSize && 0 <= index < BufferSize
    ensures var r := Store(buffer, index, v);
      |r.buffer| == BufferSize && r.buffer[index] == Trunc(v)
      && (forall j :: 0 <= j < BufferSize && j != index ==> r.buffer[j] == buffer[j])
      && 0 <= r.index < BufferSize
      && (r.index == 0 <==> index + 1 == BufferSize)
      && (r.stats.Some? <==> index + 1 == BufferSize)
      && (r.stats.None? ==> r.index == index + 1)
  {
  }

  /** A scan's maximum and minimum bound every entry of the buffer and both occur
      in it. */
  lemma ScanStatsAreExtremes(buffer: seq<int>, index: int, v: real)
    requires |buffer| == BufferSize && 0 <= index
    ensures var r := Store(buffer, index, v);
      r.stats.Some? ==>
        (forall j :: 0 <= j < |r.buffer| ==> r.stats.value.minV <= r.buffer[j] <= r.stats.value.maxV)
        && (exists j :: 0 <= j < |r.buffer| && r.buffer[j] == r.stats.value.maxV)
        && (exists j :: 0 <= j < |r.buffer| && r.buffer[j] == r.stats.value.minV)
  {
    var r := Store(buffer, index, v);
    if r.stats.Some? {
      MaxOfIsMaximum(r.buffer);
      MinOfIsMinimum(r.buffer);
    }
  }

  // ---------------------------------------------------------------------------
  // RK4

  /** The RK4 update `y + (h/6) (k1 + 2 k2 + 2 k3 + k4)`. */
  function Rk4Combine(y: Vec, h: real, k1: Vec, k2: Vec, k3: Vec, k4: Vec): Vec {
    y.Plus(k1.Plus(k2.Times(2.0)).Plus(k3.Times(2.0)).Plus(k4).Times(h / 6.0))
  }

  /** The classical RK4 step: k1 at y, k2 and k3 at half steps along k1 and k2, k4
      at a full step along k3. */
  function Rk4Step(p: Params, I: real, h: real, y: Vec): Vec {
    var k1 := Derivative(p, y, I);
    var k2 := Derivative(p, y.Plus(k1.Times(0.5 * h)), I);
    var k3 := Derivative(p, y.Plus(k2.Times(0.5 * h)), I);
    var k4 := Derivative(p, y.Plus(k3.Times(h)), I);
    Rk4Combine(y, h, k1, k2, k3, k4)
  }

  /** The weights 1, 2, 2, 1 over 6 sum to one: four equal slopes K add exactly h K. */
  lemma Rk4ConstantSlope(y: Vec, h: real, K: Vec)
    ensures Rk4Combine(y, h, K, K, K, K) == y.Plus(K.Times(h))
  {
    WeightsSumToOne(h, K.v);
    WeightsSumToOne(h, K.w);
  }

  lemma WeightsSumToOne(h: real, x: real)
    ensures (h / 6.0) * (x + 2.0 * x + 2.0 * x + x) == h * x
  {
    calc {
      (h / 6.0) * (x + 2.0 * x + 2.0 * x + x);
      == (h / 6.0) * (6.0 * x);
      == h * x;
    }
  }

  /** When the slopes at the three trial points equal the slope at y, RK4 takes the
      explicit Euler step. */
  lemma Rk4MatchesEuler(p: Params, I: real, h: real, y: Vec)
    requires var k1 := Derivative(p, y, I);
      Derivative(p, y.Plus(k1.Times(0.5 * h)), I) == k1
      && Derivative(p, y.Plus(k1.Times(h)), I) == k1
    ensures Rk4Step(p, I, h, y) == EulerStep(p, y, I, h)
  {
    Rk4ConstantSlope(y, h, Derivative(p, y, I));
  }

  /** An equilibrium is a fixed point of the RK4 step. */
  lemma Rk4AtRest(p: Params, I: real, h: real, y: Vec)
    requires Derivative(p, y, I) == Zero
    ensures Rk4Step(p, I, h, y) == y
  {
    assert Zero.Times(0.5 * h) == Zero && Zero.Times(h) == Zero;
    assert y.Plus(Zero) == y;
    Rk4MatchesEuler(p, I, h, y);
    EulerAtRest(p, y, I, h);
  }

  // ---------------------------------------------------------------------------
  // The frame

  /** The fields the script changes: (v, w), the clock, the frame timer, the shared
      reading index, the two buffers and what the two stats texts last showed. */
  datatype State = State(y: Vec, timeElapsed: real, simTimer: real, readingIndex: int,
                         ve: seq<int>, vrs: seq<int>, eulerStats: Option<Stats>, rk4Stats: Option<Stats>)

  predicate WellFormed(s: State) {
    |s.ve| == BufferSize && |s.vrs| == BufferSize && 0 <= s.readingIndex
  }

  /** The invariant the frames keep: the reading index is inside the buffers. */
  predicate Inv(s: State) {
    WellFormed(s) && s.readingIndex < BufferSize
  }

  /** `Euler()`: the clock advances one step, the Euler update is computed from the
      pre-step v and w, its voltage is recorded in VE, then the crossing reset. */
  function EulerTick(p: Params, I: real, h: real, s: State): State
    requires WellFormed(s)
  {
    var next := EulerStep(p, s.y, I, h);
    var r := Store(s.ve, s.readingIndex, next.v);
    s.(y := CrossingStep(p, I, h, s.y), timeElapsed := s.timeElapsed + SimulationStep,
       readingIndex := r.index, ve := r.buffer,
       eulerStats := if r.stats.Some? then r.stats else s.eulerStats)
  }

  /** `SimulateOneStepRK4()`: the RK4 update, its voltage recorded in VR, then the
      reset whenever v is at or above v_peak. The clock is not advanced. */
  function Rk4Tick(p: Params, I: real, h: real, s: State): State
    requires WellFormed(s)
  {
    var next := Rk4Step(p, I, h, s.y);
    var r := Store(s.vrs, s.readingIndex, next.v);
    s.(y := if next.v >= p.vpeak then Reset(p, next.w) else next,
       readingIndex := r.index, vrs := r.buffer,
       rk4Stats := if r.stats.Some? then r.stats else s.rk4Stats)
  }

  /** `Update()`: the frame time is added to the timer, and when a whole step has
      accumulated one step runs and one step is taken off the timer. */
  function Frame(p: Params, I: real, h: real, rk4On: bool, s: State, deltaTime: real): State
    requires WellFormed(s)
  {
    var timer := s.simTimer + deltaTime;
    var s1 := s.(simTimer := timer);
    if timer >= SimulationStep then
      (if rk4On then Rk4Tick(p, I, h, s1) else EulerTick(p, I, h, s1)).(simTimer := timer - SimulationStep)
    else s1
  }

  /** Every frame keeps the reading index inside the buffers. */
  lemma FrameKeepsInv(p: Params, I: real, h: real, rk4On: bool, s: State, deltaTime: real)
    requires Inv(s)
    ensures Inv(Frame(p, I, h, rk4On, s, deltaTime))
  {
    var s1 := s.(simTimer := s.simTimer + deltaTime);
    StoreKeepsIndex(s1.ve, s1.readingIndex, EulerStep(p, s1.y, I, h).v);
    StoreKeepsIndex(s1.vrs, s1.readingIndex, Rk4Step(p, I, h, s1.y).v);
  }

  /** A frame runs at most one step: it steps exactly when the timer reaches one step,
      and only then is one step taken off the timer. An Euler step moves the clock by
      one step; an RK4 step and a frame without a step leave it. Only the buffer of
      the integrator that ran changes. */
  lemma FrameRunsAtMostOneStep(p: Params, I: real, h: real, rk4On: bool, s: State, deltaTime: real)
    requires WellFormed(s)
    ensures var r := Frame(p, I, h, rk4On, s, deltaTime);
      var stepped := s.simTimer + deltaTime >= SimulationStep;
      r.simTimer == s.simTimer + deltaTime - (if stepped then SimulationStep else 0.0)
      && r.timeElapsed == s.timeElapsed + (if stepped && !rk4On then SimulationStep else 0.0)
      && (!stepped ==> r == s.(simTimer := s.simTimer + deltaTime))
      && (rk4On || r.vrs == s.vrs) && (!rk4On || r.ve == s.ve)
  {
  }

  /** With one step per frame the timer falls behind: two and a half steps of frame
      time leave more than a whole step on the timer. */
  lemma TimerFallsBehind(p: Params, I: real, h: real, rk4On: bool, s: State)
    requires WellFormed(s) && s.simTimer == 0.0
    ensures Frame(p, I, h, rk4On, s, 0.0025).simTimer == 0.0015 > SimulationStep
  {
  }

  /** The two reset rules: after an RK4 step v is always below v_peak when c is,
      whereas the Euler step keeps v below v_peak only from below. */
  lemma Rk4LandsBelowPeak(p: Params, I: real, h: real, s: State)
    requires WellFormed(s) && p.c < p.vpeak
    ensures Rk4Tick(p, I, h, s).y.v < p.vpeak
    ensures s.y.v < p.vpeak ==> EulerTick(p, I, h, s).y.v < p.vpeak
  {
    if s.y.v < p.vpeak {
      BelowPeakIsKept(p, I, h, s.y);
    }
  }

  class NeuronDynamics {
    /** vr, vt, c, d, v_peak and h as set in the Inspector. */
    const settings: Settings
    /** The Euler and RK4 reading buffers. */
    const VE: array<int>
    const VR: array<int>
    var readingIndex: int
    /** Membrane potential and recovery variable. */
    var v: real
    var w: real
    var timeElapsed: real
    var simTimer: real
    /** What the Euler and RK4 stats texts last showed. */
    var eulerStats: Option<Stats>
    var rk4Stats: Option<Stats>

    ghost predicate Valid()
      reads this
    {
      VE != VR && VE.Length == BufferSize && VR.Length == BufferSize && 0 <= readingIndex
    }

    function Snap(): State
      reads this, VE, VR
    {
      State(Vec(v, w), timeElapsed, simTimer, readingIndex, VE[..], VR[..], eulerStats, rk4Stats)
    }

    /** The component as Unity creates it: the Inspector constants, zeroed buffers,
        index 0, the float fields at zero. */
    constructor (settings: Settings)
      ensures Valid() && fresh(VE) && fresh(VR) && this.settings == settings
      ensures Snap() == State(Zero, 0.0, 0.0, 0, seq(BufferSize, _ => 0), seq(BufferSize, _ => 0), None, None)
    {
      this.settings := settings;
      VE := new int[BufferSize](_ => 0);
      VR := new int[BufferSize](_ => 0);
      readingIndex := 0;
      v, w, timeElapsed, simTimer := 0.0, 0.0, 0.0, 0.0;
      eulerStats, rk4Stats := None, None;
    }

    /** `Start`: the initial conditions v = vr, w = 0, timeElapsed = 0. */
    method Start()
      requires Valid()
      modifies this
      ensures Valid() && Snap() == old(Snap()).(y := Vec(settings.vr, 0.0), timeElapsed := 0.0)
    {
      v := settings.vr;
      w := 0.0;
      timeElapsed := 0.0;
    }

    /** `Update`: at most one step per frame. */
    method Update(sliders: Sliders, rk4On: bool, deltaTime: real)
      requires Valid()
      modifies this, VE, VR
      ensures Valid() && WellFormed(old(Snap()))
      ensures Snap() == Frame(ParamsOf(settings, sliders), sliders.I, settings.h, rk4On, old(Snap()), deltaTime)
    {
      simTimer := simTimer + deltaTime;
      if simTimer >= SimulationStep {
        if rk4On {
          SimulateOneStepRK4(sliders);
        } else {
          Euler(sliders);
        }
        simTimer := simTimer - SimulationStep;
      }
    }

    /** `Euler()`. */
    method Euler(sliders: Sliders)
      requires Valid()
      modifies this, VE
      ensures Valid() && WellFormed(old(Snap()))
      ensures Snap() == EulerTick(ParamsOf(settings, sliders), sliders.I, settings.h, old(Snap()))
    {
      ghost var s := Snap();
      timeElapsed := timeElapsed + SimulationStep;
      var vOld := v;
      var p := ParamsOf(settings, sliders);
      var dvdt := Dv(p, v, w, sliders.I);
      var dwdt := Dw(p, v, w);
      v := v + settings.h * dvdt;
      w := w + settings.h * dwdt;
      assert Vec(v, w) == EulerStep(p, s.y, sliders.I, settings.h);
      var stats := Record(VE, v);
      if stats.Some? {
        eulerStats := stats;
      }
      if vOld < settings.vPeak && v >= settings.vPeak {
        v := settings.c;
        w := w + settings.d;
      }
    }

    /** `SimulateOneStepRK4()`. */
    method SimulateOneStepRK4(sliders: Sliders)
      requires Valid()
      modifies this, VR
      ensures Valid() && WellFormed(old(Snap()))
      ensures Snap() == Rk4Tick(ParamsOf(settings, sliders), sliders.I, settings.h, old(Snap()))
    {
      var p := ParamsOf(settings, sliders);
      var h := settings.h;
      var y0 := Vec(v, w);
      var k1 := Derivative(p, y0, sliders.I);
      var k2 := Derivative(p, y0.Plus(k1.Times(0.5 * h)), sliders.I);
      var k3 := Derivative(p, y0.Plus(k2.Times(0.5 * h)), sliders.I);
      var k4 := Derivative(p, y0.Plus(k3.Times(h)), sliders.I);
      var y := y0.Plus(k1.Plus(k2.Times(2.0)).Plus(k3.Times(2.0)).Plus(k4).Times(h / 6.0));
      assert y == Rk4Step(p, sliders.I, h, y0);
      v, w := y.v, y.w;
      var stats := Record(VR, v);
      if stats.Some? {
        rk4Stats := stats;
      }
      if v >= settings.vPeak {
        v := settings.c;
        w := w + settings.d;
      }
    }

    /** The reading block shared by both steps, on the given buffer. */
    method Record(buffer: array<int>, v: real) returns (stats: Option<Stats>)
      requires buffer.Length == BufferSize && 0 <= readingIndex
      modifies this`readingIndex, buffer
      ensures Reading(buffer[..], readingIndex, stats) == Store(old(buffer[..]), old(readingIndex), v)
    {
      if readingIndex < BufferSize {
        buffer[readingIndex] := Trunc(v);
        readingIndex := readingIndex + 1;
      }
      stats := None;
      if readingIndex == BufferSize {
        var maxV, minV := Scan(buffer);
        stats := Some(Stats(maxV, minV));
        readingIndex := 0;
      }
    }
  }
}
