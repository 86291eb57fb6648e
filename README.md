# Izhikevich neuron integrators

This project models the integrators of the Dynamic Neuron Model project in Dafny and proves properties of them. All of them advance the two-variable Izhikevich neuron

    C dv/dt = k (v - vr)(v - vt) - w + I
      dw/dt = a (b (v - vr) - w)

and apply a spike rule: when v reaches the cutoff `vpeak`, v is reset to `c` and `d` is added to `w`. The integrators modelled are:

- Backward Euler with a Newton solve (analytic Jacobian, Cramer's rule, 1e-6 tolerance, at most 100 iterations).
- The four-stage Runge-Kutta-Chebyshev recurrence.
- Adaptive Runge-Kutta-Fehlberg 4(5).
- Fixed-step explicit Euler and Heun (in two Euler scripts and one Heun script).
- The two Unity `NeuronDynamics` MonoBehaviours (explicit Euler, classical RK4, a reading buffer with a min/max scan, and a frame timer).

Module layout:

| file | module | models |
|---|---|---|
| numerics.dfy | `Numerics` | Option, `abs`, truncating casts, Python negative indexing, `np.clip` |
| neuron_model.dfy | `NeuronModel` | the parameter record, the state vector and the right-hand side, one Euler step, the reset |
| pre_step_spike.dfy | `PreStepSpike` | the driver of the Backward Euler and RKC scripts: spike check on the stored `v[i]` before the step, one iteration record per step |
| post_step_spike.dfy | `PostStepSpike` | the driver of the Euler and Heun scripts: reset after the step, `v[i]` overwritten with `vpeak` |
| backward_euler.dfy | `BackwardEuler` | `neuron_ode`, `backward_euler`, `find_time_index`, `calculate_errors` |
| rkc.dfy | `Chebyshev` | `rkc_solver` |
| rkf45.dfy | `Fehlberg` | `neuron_ode` with the stimulus window, `rkf45_step`, the adaptive `while t < T` loop |
| indexed_input.dfy | `IndexedInput` | the input array `In` and the slope `f(i, y)` |
| euler_method.dfy | `EulerMethod` | `euler` in Euler_method/code/euler_method.py |
| heun.dfy | `HeunMethod` | the predictor-corrector loop of Heun_method/code/Heun_method.py |
| euler_script.dfy | `EulerGlobals` | Euler_method/Code/Euler.py, whose globals (`ncall`, the loop index `i`, the arrays) become one object |
| unity_common.dfy | `UnityCommon` | the sliders, the Inspector constants and the Euler step with the upward-crossing reset |
| unity_catch_up.dfy | `UnityCatchUp` | unity/firing_neurons/Assets/NeuronDynamics.cs |
| unity_readings.dfy | `UnityReadings` | unity/firing_neurons/Assets/Scripts/NeuronDynamics.cs |

Each loop that fills arrays in place is a method, proved to produce exactly a specification function of the initial arrays (`Run` of the matching driver). The properties the scripts promise are proved about those functions.

The fixed constants of each script are Dafny constants, for example `BackwardEuler.ScriptParams`, `Chebyshev.ScriptParams` with `d = 20`, and `Fehlberg.Tol`. The general operations take the parameters as an argument.

Where the code and its description disagree, the model follows the code:

- The RKF45 script starts with `w = vr` (`y = np.array([vr, vr])` and `w_vals = [vr]`), not with `w = 0`. `Fehlberg.Initial` does the same.
- The bound `H_MIN <= h <= H_MAX` of the RKF45 script holds at the end of each loop iteration. It does not hold for the step itself: the overshoot clamp `h = T - t` can take h below `H_MIN` (`Fehlberg.ClampBounds` only gives `0 < h`).
- The spike rule is not one shared rule. The Backward Euler and RKC scripts check the stored voltage before the step. The Euler and Heun scripts check the new voltage after the step. RKF45 checks the previous accepted state at the top of its loop. Unity's Euler step resets only on an upward crossing, and Unity's RK4 step resets whenever v is at or above the cutoff. Each rule is modelled where it occurs.
- In Scripts/NeuronDynamics.cs, `Update` runs at most one step per frame. A frame longer than one step therefore leaves more than a step on the timer, so the simulation falls behind real time (`UnityReadings.TimerFallsBehind`). The other MonoBehaviour catches up with a `while` loop.

## Model

| member | source | states |
|---|---|---|
| Numerics.Trunc | Backward_Euler_method/code/Backward_Euler_Method.py:135 | `int(x)` truncates toward zero: the result lies within one unit of x, on the side toward zero |
| Numerics.Abs | Backward_Euler_method/code/Backward_Euler_Method.py:144-145 | `abs(x)` is non-negative and is x or -x |
| Numerics.PyAt | Backward_Euler_method/code/Backward_Euler_Method.py:144-148 | Python indexing: every index in [-len, len) reads the entry at that index modulo the length, so negative indices count from the end |
| Numerics.Clip | Runge-Kutta-Fehlburg/code/Runge-Kutta-Fehlburg.py:141 | `np.clip` lands in [lo, hi], keeps a value already inside, and maps values below or above to the nearer bound |
| NeuronModel.EquilibriumIff | Backward_Euler_method/code/Backward_Euler_Method.py:30-34 | with a != 0, the right-hand side vanishes exactly when w = b (v - vr) and the voltage equation balances |
| NeuronModel.EulerAtRest | Backward_Euler_method/code/Backward_Euler_Method.py:71-73 | at an equilibrium the explicit Euler step returns the state, for any step size |
| NeuronModel.ResetRearms | Backward_Euler_method/code/Backward_Euler_Method.py:51-54 | with c below the cutoff, the after-spike state v = c lies below the cutoff, so the next spike check does not fire on it |
| PreStepSpike.Step | Backward_Euler_method/code/Backward_Euler_Method.py:49-124 | one step appends exactly one record, keeps the earlier records and w samples, and changes no v sample before index i |
| PreStepSpike.Run | Backward_Euler_method/code/Backward_Euler_Method.py:42-49 | after n steps there are n records and n + 1 samples, record j has step j and time j·dt, and w[0] is the initial w |
| PreStepSpike.RunUnfold | Backward_Euler_method/code/Backward_Euler_Method.py:49 | n + 1 steps are one more step after n steps |
| PreStepSpike.SpikeStepShape | Backward_Euler_method/code/Backward_Euler_Method.py:51-65 | when the stored v[i] is at or above vpeak: v[i] becomes vpeak, v[i+1] = c, w[i+1] = w[i] + d, and the record has 0 iterations and the spike message |
| PreStepSpike.NormalStepShape | Backward_Euler_method/code/Backward_Euler_Method.py:67-124 | below the cutoff the method's result becomes sample i+1 and the record carries its iteration count and the method's message |
| PreStepSpike.RunPrefix | Backward_Euler_method/code/Backward_Euler_Method.py:49-124 | later steps never change earlier records or w samples, and v samples only at the step's own index |
| PreStepSpike.SpikeStep | Backward_Euler_method/code/Backward_Euler_Method.py:51-65 | in the final arrays a spike step leaves v[i] = vpeak, w[i+1] = w[i] + d and v[i+1] = c (unless the next step clamps it too), with a record of 0 iterations |
| PreStepSpike.SpikeRearms | Backward_Euler_method/code/Backward_Euler_Method.py:51-67 | with c below the cutoff, the step right after a spike step is a normal step |
| PreStepSpike.SpikeIgnoresSolver | Backward_Euler_method/code/Backward_Euler_Method.py:51-65 | a spike step does not depend on the solver at all: no Newton or stage computation runs |
| PreStepSpike.NormalStep | Backward_Euler_method/code/Backward_Euler_Method.py:67-124 | in the final arrays a normal step has v[i] below vpeak, and w[i+1] and its record come from the method's result |
| PreStepSpike.RecordShape | Backward_Euler_method/code/Backward_Euler_Method.py:55-64 | every record is either a spike record (0 iterations, vAfter = c) or a normal record holding the method's result |
| PreStepSpike.RecordedIterationsWithin | Backward_Euler_method/code/Backward_Euler_Method.py:60 | if every call of the method reports between lo and hi iterations, so does every normal record, and spike records report 0 |
| BackwardEuler.ScriptStepCount | Backward_Euler_method/code/Backward_Euler_Method.py:20-22 | `steps = int(T / dt)` is 4000 |
| BackwardEuler.JacobianIsDerivative | Backward_Euler_method/code/Backward_Euler_Method.py:89-93 | the analytic J is the derivative of the residual F: moving the guess by δ changes F by J·δ plus the quadratic term -dt·k·δv²/C |
| BackwardEuler.CramerSolves | Backward_Euler_method/code/Backward_Euler_Method.py:96-101 | with det != 0 the Cramer update solves J·δ = -F |
| BackwardEuler.NewtonFrom | Backward_Euler_method/code/Backward_Euler_Method.py:78-109 | the iteration count lies in [count, 100] and grows by at least one, a convergence exit has both updates below 1e-6, and the cap exit has exactly 100 iterations |
| BackwardEuler.SingularKeepsGuess | Backward_Euler_method/code/Backward_Euler_Method.py:96-98 | a zero determinant leaves the loop with the guess unchanged and this iteration counted |
| BackwardEuler.UpdatesSolveLinearSystem | Backward_Euler_method/code/Backward_Euler_Method.py:85-109 | each applied update solves J·δ = -F at the current guess; the loop stops after it exactly when both components are below tolerance |
| BackwardEuler.NewtonSolve | Backward_Euler_method/code/Backward_Euler_Method.py:75-109 | the Newton loop returns the specified guess and count, and the count lies in [1, 100] |
| BackwardEuler.RestIsFixedPoint | Backward_Euler_method/code/Backward_Euler_Method.py:71-109 | at an equilibrium the Euler guess is the state and Newton returns it unchanged after one iteration |
| BackwardEuler.RestResidual | Backward_Euler_method/code/Backward_Euler_Method.py:85-87 | at an equilibrium the residual at the current state is zero |
| BackwardEuler.ZeroResidualConverges | Backward_Euler_method/code/Backward_Euler_Method.py:100-109 | a zero residual with det != 0 gives δ = 0: convergence after one iteration with the guess kept |
| BackwardEuler.ZeroSolution | Backward_Euler_method/code/Backward_Euler_Method.py:96-101 | with det != 0 the only solution of J·δ = 0 is δ = 0 |
| BackwardEuler.StepIterations | Backward_Euler_method/code/Backward_Euler_Method.py:76-82 | every Backward Euler step reports between 1 and 100 iterations |
| BackwardEuler.AllStepIterations | Backward_Euler_method/code/Backward_Euler_Method.py:76-82 | the same bound for every state |
| BackwardEuler.NewtonIterationBounds | Backward_Euler_method/code/Backward_Euler_Method.py:78-82 | Newton started from any guess counts between 1 and 100 iterations |
| BackwardEuler.RecordedIterations | Backward_Euler_method/code/Backward_Euler_Method.py:55-64 | in the returned records a spike step has 0 iterations and a normal step between 1 and 100 |
| BackwardEuler.Simulate | Backward_Euler_method/code/Backward_Euler_Method.py:37-130 | the arrays (length steps + 1) and the record list are exactly the driver's run with the Newton step |
| BackwardEuler.StepInPlace | Backward_Euler_method/code/Backward_Euler_Method.py:49-124 | one pass of the loop writes the driver's step into the arrays and returns its record |
| BackwardEuler.FindTimeIndex | Backward_Euler_method/code/Backward_Euler_Method.py:133-135 | `int(t / dt)` raises ZeroDivisionError exactly when dt = 0; otherwise, for positive dt and non-negative t, the index brackets t: idx·dt <= t < (idx + 1)·dt |
| BackwardEuler.IndexBrackets | Backward_Euler_method/code/Backward_Euler_Method.py:135 | `int(t / dt)` brackets t between idx·dt and (idx + 1)·dt |
| BackwardEuler.ErrorEntryMeaning | Backward_Euler_method/code/Backward_Euler_Method.py:141-165 | an in-range index gives errors \|v[idx] - ref\| >= 0, zero exactly when they agree; an out-of-range index gives None and 'Time exceeds simulation duration' |
| BackwardEuler.ErrorRowRaises | Backward_Euler_method/code/Backward_Euler_Method.py:142-161 | for arrays of equal length, pass i raises ZeroDivisionError when dt = 0, and otherwise raises (an IndexError) exactly when a reference list has no entry i or the index lies below -len(v) |
| BackwardEuler.ErrorsMeaning | Backward_Euler_method/code/Backward_Euler_Method.py:138-166 | `calculate_errors` completes exactly when every pass does, and then returns one entry per reference time in order; otherwise it raises the exception of the first failing pass |
| BackwardEuler.RaiseStops | Backward_Euler_method/code/Backward_Euler_Method.py:141-166 | once a pass raises, the later reference times change nothing: the call raises that exception |
| BackwardEuler.CalculateErrors | Backward_Euler_method/code/Backward_Euler_Method.py:138-166 | the loop returns the list of entries, or stops at the first ZeroDivisionError or IndexError, exactly as specified by `Errors` |
| BackwardEuler.ScriptErrorsComplete | Backward_Euler_method/code/Backward_Euler_Method.py:20-27 | the script's own call, with 4001 samples, dt = 0.25 and reference times 0..1000 ms, never raises and reports errors at every reference time |
| Chebyshev.ScriptStepCount | Runge-Kutta-Chebyshev_method/code/Runge-Kutta-Chebyshev.py:19-21 | `steps = int(T / dt)` is 80 |
| Chebyshev.TauIsOne | Runge-Kutta-Chebyshev_method/code/Runge-Kutta-Chebyshev.py:40-41 | `tau = 1/mu²` is 1 for mu = 1 |
| Chebyshev.Omega | Runge-Kutta-Chebyshev_method/code/Runge-Kutta-Chebyshev.py:77-78 | `1 + sin²/3` is at least 1 |
| Chebyshev.BetaValues | Runge-Kutta-Chebyshev_method/code/Runge-Kutta-Chebyshev.py:75-85 | beta is 2 at j = 2 (factor 2 and omega_j = omega_0), beta is positive, and alpha = beta/tau equals beta |
| Chebyshev.RkcUpdate | Runge-Kutta-Chebyshev_method/code/Runge-Kutta-Chebyshev.py:64-97 | the first stage and the stage loop j = 2..4 compute the RKC step |
| Chebyshev.StageStep | Runge-Kutta-Chebyshev_method/code/Runge-Kutta-Chebyshev.py:88-91 | `y_new = (1 - alpha) y_prev + alpha y_curr + beta (dt/s) fj` with the stage's alpha and beta |
| Chebyshev.StageAtRest | Runge-Kutta-Chebyshev_method/code/Runge-Kutta-Chebyshev.py:91 | the blend weights 1 - alpha and alpha sum to one, so a stage from two equal equilibrium states returns that state |
| Chebyshev.RecurrenceAtRest | Runge-Kutta-Chebyshev_method/code/Runge-Kutta-Chebyshev.py:74-94 | the remaining stages from an equilibrium stay at it |
| Chebyshev.RestIsFixedPoint | Runge-Kutta-Chebyshev_method/code/Runge-Kutta-Chebyshev.py:64-97 | an equilibrium is a fixed point of the whole RKC step, which reports 4 stages |
| Chebyshev.RecordedIterations | Runge-Kutta-Chebyshev_method/code/Runge-Kutta-Chebyshev.py:99-108 | a normal record reports `iterations = s = 4`, a spike record 0 |
| Chebyshev.Simulate | Runge-Kutta-Chebyshev_method/code/Runge-Kutta-Chebyshev.py:30-108 | the arrays and records are exactly the driver's run with the RKC step (d = 20 in the script) |
| Chebyshev.StepInPlace | Runge-Kutta-Chebyshev_method/code/Runge-Kutta-Chebyshev.py:43-108 | one pass of the loop writes the driver's step into the arrays and returns its record |
| Fehlberg.SquaredThresholds | Runge-Kutta-Fehlburg/code/Runge-Kutta-Fehlburg.py:24 | the thresholds on the squared error are the squares of TOL and 1e-15 |
| Fehlberg.StimulusWindow | Runge-Kutta-Fehlburg/code/Runge-Kutta-Fehlburg.py:35 | the current is I_stim exactly when t_stim_on <= t <= t_stim_off, and 0 otherwise |
| Fehlberg.TableauConsistent | Runge-Kutta-Fehlburg/code/Runge-Kutta-Fehlburg.py:54-65 | each a_coeffs row sums to the matching c_coeffs entry, and b4 and b5 each sum to 1 |
| Fehlberg.Slopes | Runge-Kutta-Fehlburg/code/Runge-Kutta-Fehlburg.py:68-72 | the first n slopes k_0..k_{n-1} form a list of length n |
| Fehlberg.ErrorVanishesIff | Runge-Kutta-Fehlburg/code/Runge-Kutta-Fehlburg.py:79 | the squared error \|y5 - y4\|² is non-negative and is zero exactly when y4 = y5 |
| Fehlberg.Rkf45Step | Runge-Kutta-Fehlburg/code/Runge-Kutta-Fehlburg.py:42-81 | the k array loop returns the 5th-order result and the squared error of the 4th-order estimate against it |
| Fehlberg.NextSlope | Runge-Kutta-Fehlburg/code/Runge-Kutta-Fehlburg.py:69-72 | one pass of the k loop extends the slopes k_0..k_i by k_{i+1} = f(t + c_{i+1} h, y + h Σ a_{ij} k_j) |
| Fehlberg.InitialInv | Runge-Kutta-Fehlburg/code/Runge-Kutta-Fehlburg.py:85-94 | the initial lists have one entry each, and t and h satisfy the loop invariant |
| Fehlberg.RecordKeepsOrder | Runge-Kutta-Fehlburg/code/Runge-Kutta-Fehlburg.py:131-134 | appending a point keeps the four lists the same length and t_vals nondecreasing |
| Fehlberg.SpikeRecords | Runge-Kutta-Fehlburg/code/Runge-Kutta-Fehlburg.py:99-115 | a spike at the top of the loop appends (t, vpeak, w) and then (t, c, w + d) at the same t, resets y and counts one spike; otherwise nothing changes |
| Fehlberg.SpikePhaseInv | Runge-Kutta-Fehlburg/code/Runge-Kutta-Fehlburg.py:99-115 | the spike block keeps the invariant, t and h |
| Fehlberg.ClampBounds | Runge-Kutta-Fehlburg/code/Runge-Kutta-Fehlburg.py:118-119 | after the overshoot clamp t + h <= T, keeping 0 < h and h no larger than before |
| Fehlberg.AcceptOrReject | Runge-Kutta-Fehlburg/code/Runge-Kutta-Fehlburg.py:125-134 | accepted iff error <= TOL or h <= H_MIN: then t grows by h, y takes the new value and one point is appended; otherwise t, y and the lists are unchanged |
| Fehlberg.AdaptBounds | Runge-Kutta-Fehlburg/code/Runge-Kutta-Fehlburg.py:138-141 | the new h lies in [H_MIN, H_MAX], nothing else changes, and below 1e-15 error the candidate is 2h |
| Fehlberg.IterationInv | Runge-Kutta-Fehlburg/code/Runge-Kutta-Fehlburg.py:97-141 | one iteration keeps equal list lengths, t_vals nondecreasing, 0 <= t <= T and H_MIN <= h <= H_MAX |
| Fehlberg.LoopInv | Runge-Kutta-Fehlburg/code/Runge-Kutta-Fehlburg.py:97-141 | the loop keeps the invariant, never lowers the spike count or shortens the lists, and a loop that reaches T ends exactly at T |
| Fehlberg.StopsOnlyAtEnd | Runge-Kutta-Fehlburg/code/Runge-Kutta-Fehlburg.py:97 | the loop runs at most fuel passes, and it stops with t below T only when the fuel ran out |
| Fehlberg.IterationGrows | Runge-Kutta-Fehlburg/code/Runge-Kutta-Fehlburg.py:97-141 | one iteration counts at most one spike and appends at most three points |
| Fehlberg.Simulate | Runge-Kutta-Fehlburg/code/Runge-Kutta-Fehlburg.py:85-141 | the loop's four lists and spike count are those of the specified loop |
| Fehlberg.LoopBody | Runge-Kutta-Fehlburg/code/Runge-Kutta-Fehlburg.py:98-141 | one pass of the loop body is the specified iteration |
| Fehlberg.SpikeCheck | Runge-Kutta-Fehlburg/code/Runge-Kutta-Fehlburg.py:99-115 | the spike block is the specified spike phase |
| Fehlberg.AcceptAndAdapt | Runge-Kutta-Fehlburg/code/Runge-Kutta-Fehlburg.py:125-141 | acceptance followed by step-size adaptation, as specified |
| Fehlberg.ScriptRun | Runge-Kutta-Fehlburg/code/Runge-Kutta-Fehlburg.py:85-141 | the script's own run keeps the invariant |
| Fehlberg.SlopesAtRest | Runge-Kutta-Fehlburg/code/Runge-Kutta-Fehlburg.py:68-72 | when the slope vanishes at the state at every stage time, all six k-values are zero |
| Fehlberg.ZeroWeightedSum | Runge-Kutta-Fehlburg/code/Runge-Kutta-Fehlburg.py:71 | a weighted sum of zero slopes is zero |
| Fehlberg.CombineAtRest | Runge-Kutta-Fehlburg/code/Runge-Kutta-Fehlburg.py:75-76 | combining zero slopes leaves the state unchanged |
| Fehlberg.CombinesAtRest | Runge-Kutta-Fehlburg/code/Runge-Kutta-Fehlburg.py:68-76 | at rest both weighted combinations return the state |
| Fehlberg.RestIsFixedPoint | Runge-Kutta-Fehlburg/code/Runge-Kutta-Fehlburg.py:68-81 | at rest y5 = y4 = y and the error is zero |
| Fehlberg.RestIsAccepted | Runge-Kutta-Fehlburg/code/Runge-Kutta-Fehlburg.py:122-125 | a step from rest is accepted, whatever h is |
| IndexedInput.StepInputShape | Euler_method/code/euler_method.py:18-19 | `In[j] = 0` for j < 101 and 70 from 101 on |
| PostStepSpike.Step | Euler_method/code/euler_method.py:39-49 | step i changes v only at i and i+1 and w only at i+1, and counts one spike exactly when the new v reaches vpeak |
| PostStepSpike.Run | Euler_method/code/euler_method.py:38-50 | the run keeps the array lengths and counts at most one spike per step |
| PostStepSpike.StepEffect | Euler_method/code/euler_method.py:43-48 | a normal step stores the new state at i+1; a spike step stores vpeak at i and the after-spike state of the new w (v = c, w + d) at i+1 |
| PostStepSpike.RunLeavesTail | Euler_method/code/euler_method.py:39-48 | entries beyond the last step index are untouched |
| PostStepSpike.CountPeaks | Heun_method/code/Heun_method.py:112 | the count of entries equal to vpeak is at most the length |
| PostStepSpike.CountPeaksLast | Heun_method/code/Heun_method.py:112 | the count grows by one exactly for a last entry equal to vpeak |
| PostStepSpike.SpikesArePeaks | Euler_method/code/euler_method.py:45-49 | with c < vpeak, the spike counter equals the number of stored samples equal to vpeak |
| PostStepSpike.StepCountsPeak | Euler_method/code/euler_method.py:45-49 | one step keeps the counter equal to the number of vpeak samples |
| PostStepSpike.RunBoundedByPeak | Euler_method/code/euler_method.py:45-48 | with c < vpeak, no stored voltage ever exceeds vpeak |
| EulerMethod.EulerAdvanceAdmits | Euler_method/code/euler_method.py:41 | the Euler step can be taken at every index that has an input |
| EulerMethod.Euler | Euler_method/code/euler_method.py:37-50 | the arrays and the returned spike count are exactly the driver's run of 1000 Euler steps |
| EulerMethod.EulerLoopBody | Euler_method/code/euler_method.py:40-49 | one pass of the loop is the driver's step i |
| EulerMethod.Script | Euler_method/code/euler_method.py:18-52 | no stored voltage exceeds vpeak, and the returned spikes equal the vpeak samples, at most 1000 |
| HeunMethod.CorrectorMatchesPredictor | Heun_method/code/Heun_method.py:40-41 | if f(i+1, y_pred) = f(i, y), the corrector equals the predictor |
| HeunMethod.RestIsFixedPoint | Heun_method/code/Heun_method.py:40-41 | at an equilibrium under an unchanged input the Heun step stays put |
| HeunMethod.HeunAdvanceAdmits | Heun_method/code/Heun_method.py:41 | the corrector can be taken at every index below the last input |
| HeunMethod.HeunLoop | Heun_method/code/Heun_method.py:36-48 | the loop over i = 0..999 writes exactly the driver's run, within the length-1001 arrays |
| HeunMethod.HeunLoopBody | Heun_method/code/Heun_method.py:37-48 | one pass: predictor, corrector, store, post-step reset |
| HeunMethod.Script | Heun_method/code/Heun_method.py:16-48 | no stored voltage exceeds vpeak, and the printed spike count equals the number of spike steps of the loop from the initial arrays, at most 1000 |
| HeunMethod.InitialArrays | Heun_method/code/Heun_method.py:18-22 | two distinct fresh arrays of 1001 zeros, with v[0] = vr |
| HeunMethod.ScriptRunFacts | Heun_method/code/Heun_method.py:36-48 | the script's run keeps every sample at or below vpeak and counts exactly the samples at vpeak |
| HeunMethod.PeaksOfRun | Heun_method/code/Heun_method.py:36-48 | for any run over the whole arrays with c < vpeak from samples at or below vpeak, the same two facts |
| HeunMethod.CountPeaksOf | Heun_method/code/Heun_method.py:112 | the list comprehension counts the samples equal to vpeak |
| EulerGlobals.EulerScript.constructor | Euler_method/Code/Euler.py:15-24 | the module set-up: ncall = 0, `In` as specified, v[0] = vr, other samples zero |
| EulerGlobals.EulerScript.Neuron | Euler_method/Code/Euler.py:27-34 | returns the slope under `In[i]` for the global i and increments ncall by 1 |
| EulerGlobals.EulerScript.Euler | Euler_method/Code/Euler.py:37-40 | returns y + h·neuron(t, y), one call counted |
| EulerGlobals.EulerScript.Simulate | Euler_method/Code/Euler.py:46-54 | the loop i = 0..nout writes the driver's run of nout + 1 steps into arrays of length nout + 2 and adds nout + 1 to ncall |
| EulerGlobals.EulerScript.Iterate | Euler_method/Code/Euler.py:47-54 | one pass: Euler step stored at i+1, post-step reset with cn and dn |
| EulerGlobals.Script | Euler_method/Code/Euler.py:15-54 | after the loop ncall = 1001 and no stored voltage exceeds vpeak |
| UnityCommon.ResetIffCrossing | unity/firing_neurons/Assets/NeuronDynamics.cs:77-81 | with d != 0 the step leaves the Euler update exactly on an upward crossing vOld < v_peak <= v, and then resets to v = c, w + d |
| UnityCommon.NoResetFromAbove | unity/firing_neurons/Assets/NeuronDynamics.cs:77 | if vOld >= v_peak, no reset occurs even if v stays above the peak |
| UnityCommon.BelowPeakIsKept | unity/firing_neurons/Assets/NeuronDynamics.cs:72-81 | with c < v_peak, a state below the peak stays below it |
| UnityCommon.CrossingStepAtRest | unity/firing_neurons/Assets/NeuronDynamics.cs:69-73 | an equilibrium below the peak is a fixed point of the step |
| UnityCatchUp.WholeStepsFit | unity/firing_neurons/Assets/NeuronDynamics.cs:55-59 | the number of loop passes n is how many whole steps fit: n·step <= timer < (n + 1)·step |
| UnityCatchUp.CatchUpRunsWholeSteps | unity/firing_neurons/Assets/NeuronDynamics.cs:55-59 | after the loop the timer is below one step, lowered by n steps, the clock has advanced by n steps and the neuron has taken n steps |
| UnityCatchUp.StepsShift | unity/firing_neurons/Assets/NeuronDynamics.cs:55-59 | n + 1 steps are one step followed by n steps |
| UnityCatchUp.FrameKeepsTimer | unity/firing_neurons/Assets/NeuronDynamics.cs:51-60 | with a non-negative frame time, the timer stays in [0, simulationStep) |
| UnityCatchUp.NeuronDynamics.constructor | unity/firing_neurons/Assets/NeuronDynamics.cs:14-49 | the Inspector constants, fields at zero |
| UnityCatchUp.NeuronDynamics.Start | unity/firing_neurons/Assets/NeuronDynamics.cs:40-46 | `Start` sets v = vr, w = 0 and timeElapsed = 0 |
| UnityCatchUp.NeuronDynamics.Update | unity/firing_neurons/Assets/NeuronDynamics.cs:51-60 | the fields after `Update` are those of the catch-up loop, and simTimer < simulationStep |
| UnityCatchUp.NeuronDynamics.SimulateOneStep | unity/firing_neurons/Assets/NeuronDynamics.cs:63-91 | timeElapsed grows by one step, v and w take the Euler update from their pre-step values, then the crossing reset |
| UnityReadings.MaxOfIsMaximum | unity/firing_neurons/Assets/Scripts/NeuronDynamics.cs:106-111 | the running maximum bounds every entry and occurs in the buffer |
| UnityReadings.MinOfIsMinimum | unity/firing_neurons/Assets/Scripts/NeuronDynamics.cs:107-111 | the running minimum bounds every entry and occurs in the buffer |
| UnityReadings.Scan | unity/firing_neurons/Assets/Scripts/NeuronDynamics.cs:104-113 | the scan over VE[0..999] yields maxV >= every entry and minV <= every entry, both occurring |
| UnityReadings.StoreKeepsIndex | unity/firing_neurons/Assets/Scripts/NeuronDynamics.cs:98-119 | `(int)v` is written at readingIndex and nowhere else; the index stays in [0, 1000) and wraps to 0 (with a scan) exactly when it reaches 1000 |
| UnityReadings.ScanStatsAreExtremes | unity/firing_neurons/Assets/Scripts/NeuronDynamics.cs:104-118 | the shown max and min bound every buffer entry and both occur in it |
| UnityReadings.Rk4ConstantSlope | unity/firing_neurons/Assets/Scripts/NeuronDynamics.cs:164-165 | the RK4 update h/6·(k1 + 2k2 + 2k3 + k4) adds h·K when all four slopes equal K |
| UnityReadings.Rk4MatchesEuler | unity/firing_neurons/Assets/Scripts/NeuronDynamics.cs:142-165 | when the trial-point slopes equal the slope at y, RK4 is the explicit Euler step |
| UnityReadings.Rk4AtRest | unity/firing_neurons/Assets/Scripts/NeuronDynamics.cs:142-165 | an equilibrium is a fixed point of the RK4 update |
| UnityReadings.FrameKeepsInv | unity/firing_neurons/Assets/Scripts/NeuronDynamics.cs:64-83 | every frame keeps readingIndex in [0, 1000) |
| UnityReadings.FrameRunsAtMostOneStep | unity/firing_neurons/Assets/Scripts/NeuronDynamics.cs:64-96 | a frame steps iff the timer reaches one step and subtracts simulationStep only then; only Euler advances timeElapsed; only the running integrator's buffer changes |
| UnityReadings.TimerFallsBehind | unity/firing_neurons/Assets/Scripts/NeuronDynamics.cs:64-83 | a 2.5 ms frame from an empty timer leaves 1.5 ms, more than one step, on the timer |
| UnityReadings.Rk4LandsBelowPeak | unity/firing_neurons/Assets/Scripts/NeuronDynamics.cs:191-194 | with c < v_peak, RK4 always leaves v below the peak (it resets whenever v >= v_peak), while Euler does so only from below the peak |
| UnityReadings.NeuronDynamics.constructor | unity/firing_neurons/Assets/Scripts/NeuronDynamics.cs:7-62 | zeroed 1000-entry buffers, index 0, float fields at zero |
| UnityReadings.NeuronDynamics.Start | unity/firing_neurons/Assets/Scripts/NeuronDynamics.cs:52-59 | `Start` sets v = vr, w = 0 and timeElapsed = 0 and changes nothing else |
| UnityReadings.NeuronDynamics.Update | unity/firing_neurons/Assets/Scripts/NeuronDynamics.cs:64-83 | the new fields and buffers are those of the specified frame |
| UnityReadings.NeuronDynamics.Euler | unity/firing_neurons/Assets/Scripts/NeuronDynamics.cs:86-134 | clock + one step, Euler update from the pre-step v and w, reading stored in VE, reset on an upward crossing |
| UnityReadings.NeuronDynamics.SimulateOneStepRK4 | unity/firing_neurons/Assets/Scripts/NeuronDynamics.cs:136-204 | RK4 update, reading stored in VR, reset whenever v >= v_peak, clock unchanged |
| UnityReadings.NeuronDynamics.Record | unity/firing_neurons/Assets/Scripts/NeuronDynamics.cs:98-119 | the reading block on the given buffer is the specified store, scan and wrap |

## Left out

- BackwardEuler.CalculateErrors: the `np.arange(0, len(v)·dt, dt)` argument of `find_time_index` is built and never used; only its ZeroDivisionError for dt = 0, which coincides with the division in `find_time_index`, is modelled.
- Floating point: everything is over unbounded reals. Rounding, overflow, NaN and C# single precision (`0.001f` is not exactly 0.001) are not modelled. The reference values of the Backward Euler script enter `CalculateErrors` as inputs; the numbers the script would print for them are not computed.
- `(int)v` in the Unity script is truncation toward zero; a float outside the `int` range is not modelled.
- Transcendentals. RKF45's `np.linalg.norm` is replaced by the squared norm, compared with TOL² and (1e-15)². The step-size factor `S·(TOL/error)^0.2` is a function parameter `factor`, about which nothing is assumed. RKC's `sin²(θ_j)` values are an input table with entries in [0, 1] (`Chebyshev.SineTable`).
- Fehlberg.Simulate: the `while t < T` loop is run with a fuel bound (at most `fuel` iterations), because its termination depends on the error model. The properties hold for every fuel.
- The wall-clock timing (`time.time()`), every `print` (including Heun's per-step print and RKC's "Abnormal voltage" warning, which changes no state), tables, matplotlib plots, `os.makedirs` and `savefig`.
- The unresolved merge-conflict block in the plotting code of the Backward Euler script (plotting only, not valid Python).
- HeunMethod.HeunLoop: the spike counter is ghost, because the script keeps none; the printed count is modelled by `HeunMethod.CountPeaksOf`.
- The unused `t` argument of `neuron(t, y)` in Euler.py is accepted and ignored, as in the script.
- Unity: the sliders are read-only parameters (`UnityCommon.Sliders`), and the slider for C is assumed non-zero. The RK4 toggle and `Time.deltaTime` are parameters of `Update`. `Instantiate` of the firing effect, `MoveAlongPath`, TextMeshPro output (modelled as the last stats shown), `Debug.Log` and the null checks on UI objects are left out. The Inspector constants are a constructor parameter.
- DL-PINN_model/overview/Results.js is a dashboard with hard-coded numbers and is not part of this model. The midpoint and exponential Rosenbrock scripts are not part of this model either.
- Convergence order, accuracy and stability of the methods are not stated.
