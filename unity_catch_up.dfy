/** The Unity MonoBehaviour in unity/firing_neurons/Assets/NeuronDynamics.cs. Every
    frame adds the frame time to a timer and then runs as many 1 ms Euler steps as
    whole milliseconds have accumulated (a catch-up `while` loop). Each step advances
    `timeElapsed` by 1 ms and resets the neuron on an upward crossing of v_peak. */
module UnityCatchUp {
  import opened NeuronModel
  import opened UnityCommon

  /** The fields the script changes: (v, w), `timeElapsed` and `simTimer`. */
  datatype State = State(y: Vec, timeElapsed: real, simTimer: real)

  /** `SimulateOneStep`: the clock moves on by one step and the neuron takes the
      Euler step with the crossing reset; the timer is not touched. */
  function OneStep(p: Params, I: real, h: real, s: State): State {
    State(CrossingStep(p, I, h, s.y), s.timeElapsed + SimulationStep, s.simTimer)
  }

  /** The number of whole steps that fit in the timer. */
  function WholeSteps(timer: real): nat
    decreases (timer * 1000.0).Floor
  {
    if timer >= SimulationStep then 1 + WholeSteps(timer - SimulationStep) else 0
  }

  /** n successive crossing steps from y. */
  function Steps(p: Params, I: real, h: real, y: Vec, n: nat): Vec {
    if n == 0 then y else CrossingStep(p, I, h, Steps(p, I, h, y, n - 1))
  }

  /** The catch-up loop: while the timer holds a whole step, run one step and take
      it off the timer. */
  function CatchUp(p: Params, I: real, h: real, s: State): State
    decreases (s.simTimer * 1000.0).Floor
  {
    if s.simTimer >= SimulationStep then
      CatchUp(p, I, h, OneStep(p, I, h, s).(simTimer := s.simTimer - SimulationStep))
    else s
  }

  /** `Update` after the timer has grown by the frame time. */
  function Frame(p: Params, I: real, h: real, s: State, deltaTime: real): State {
    CatchUp(p, I, h, s.(simTimer := s.simTimer + deltaTime))
  }

  /** n = WholeSteps(timer) is the number of whole steps in a non-negative timer:
      n steps fit and n + 1 do not. */
  lemma {:induction false} WholeStepsFit(timer: real)
    ensures var n := WholeSteps(timer);
      (timer >= 0.0 ==> n as real * SimulationStep <= timer)
      && timer < (n + 1) as real * SimulationStep
    decreases (timer * 1000.0).Floor
  {
    if timer >= SimulationStep {
      WholeStepsFit(timer - SimulationStep);
    }
  }

  /** After the loop the timer is below one step; exactly WholeSteps(timer) steps
      ran, each taking one step off the timer and adding one to the clock, and the
      neuron took that many crossing steps in a row. */
  lemma {:induction false} CatchUpRunsWholeSteps(p: Params, I: real, h: real, s: State)
    ensures var r := CatchUp(p, I, h, s);
      var n := WholeSteps(s.simTimer);
      r.simTimer < SimulationStep
      && r.simTimer == s.simTimer - n as real * SimulationStep
      && r.timeElapsed == s.timeElapsed + n as real * SimulationStep
      && r.y == Steps(p, I, h, s.y, n)
    decreases (s.simTimer * 1000.0).Floor
  {
    if s.simTimer >= SimulationStep {
      var s1 := OneStep(p, I, h, s).(simTimer := s.simTimer - SimulationStep);
      CatchUpRunsWholeSteps(p, I, h, s1);
      StepsShift(p, I, h, s.y, WholeSteps(s1.simTimer));
    }
  }

  /** Running n + 1 steps is one step followed by n more. */
  lemma {:induction false} StepsShift(p: Params, I: real, h: real, y: Vec, n: nat)
    ensures Steps(p, I, h, y, n + 1) == Steps(p, I, h, CrossingStep(p, I, h, y), n)
  {
    if n > 0 {
      StepsShift(p, I, h, y, n - 1);
    }
  }

  /** A frame leaves a non-negative timer below one step when the frame time is
      non-negative. */
  lemma FrameKeepsTimer(p: Params, I: real, h: real, s: State, deltaTime: real)
    requires 0.0 <= s.simTimer && 0.0 <= deltaTime
    ensures 0.0 <= Frame(p, I, h, s, deltaTime).simTimer < SimulationStep
  {
    var t := s.simTimer + deltaTime;
    CatchUpRunsWholeSteps(p, I, h, s.(simTimer := t));
    WholeStepsFit(t);
  }

  class NeuronDynamics {
    /** vr, vt, c, d, v_peak and h as set in the Inspector. */
    const settings: Settings
    /** Membrane potential. */
    var v: real
    /** Recovery variable. */
    var w: real
    var timeElapsed: real
    var simTimer: real

    /** The component as Unity creates it: the Inspector constants, the float fields
        at zero. */
    constructor (settings: Settings)
      ensures this.settings == settings
      ensures v == 0.0 && w == 0.0 && timeElapsed == 0.0 && simTimer == 0.0
    {
      this.settings := settings;
      v, w, timeElapsed, simTimer := 0.0, 0.0, 0.0, 0.0;
    }

    function Snap(): State
      reads this
    {
      State(Vec(v, w), timeElapsed, simTimer)
    }

    /** `Start`: the initial conditions v = vr, w = 0, timeElapsed = 0. */
    method Start()
      modifies this
      ensures v == settings.vr && w == 0.0 && timeElapsed == 0.0 && simTimer == old(simTimer)
    {
      v := settings.vr;
      w := 0.0;
      timeElapsed := 0.0;
    }

    /** `Update`: the frame time is added to the timer and the catch-up loop runs. */
    method Update(sliders: Sliders, deltaTime: real)
      modifies this
      ensures Snap() == Frame(ParamsOf(settings, sliders), sliders.I, settings.h, old(Snap()), deltaTime)
      ensures simTimer < SimulationStep
    {
      ghost var p := ParamsOf(settings, sliders);
      simTimer := simTimer + deltaTime;
      ghost var start := Snap();
      while simTimer >= SimulationStep
        invariant CatchUp(p, sliders.I, settings.h, Snap()) == CatchUp(p, sliders.I, settings.h, start)
        decreases (simTimer * 1000.0).Floor
      {
        SimulateOneStep(sliders);
        simTimer := simTimer - SimulationStep;
      }
    }

    /** `SimulateOneStep`: the clock advances by one step, v and w take the Euler
        update from their pre-step values, and the neuron is reset when v crossed
        v_peak from below. */
    method SimulateOneStep(sliders: Sliders)
      modifies this
      ensures Snap() == OneStep(ParamsOf(settings, sliders), sliders.I, settings.h, old(Snap()))
    {
      timeElapsed := timeElapsed + SimulationStep;
      var vOld := v;
      var p := ParamsOf(settings, sliders);
      var dvdt := Dv(p, v, w, sliders.I);
      var dwdt := Dw(p, v, w);
      v := v + settings.h * dvdt;
      w := w + settings.h * dwdt;
      if vOld < settings.vPeak && v >= settings.vPeak {
        v := settings.c;
        w := w + settings.d;
      }
    }
  }
}
