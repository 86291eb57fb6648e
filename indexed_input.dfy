/** The input current as the Python scripts lay it out: an array `In` of zeros with
    `In[101:] = 70`, read by the slope `f(i, y)` at the step index i. */
module IndexedInput {
  import opened NeuronModel

  const InputOnset := 101
  const InputLevel := 70.0

  /** numpy's slice assignment `s[from:] = x`; a start past the end changes nothing. */
  function FillFrom(s: seq<real>, from: nat, x: real): (r: seq<real>)
    ensures |r| == |s|
    ensures forall j :: 0 <= j < |s| ==> r[j] == (if j < from then s[j] else x)
  {
    if from >= |s| then s else s[..from] + seq(|s| - from, _ => x)
  }

  /** `np.zeros(n)`. */
  function Zeros(n: nat): (r: seq<real>)
    ensures |r| == n && forall j :: 0 <= j < n ==> r[j] == 0.0
  {
    seq(n, _ => 0.0)
  }

  /** `In = np.zeros(n); In[101:] = 70`. */
  function StepInput(n: nat): seq<real> {
    FillFrom(Zeros(n), InputOnset, InputLevel)
  }

  /** The input is 0 before index 101 and 70 from index 101 on. */
  lemma StepInputShape(n: nat)
    ensures |StepInput(n)| == n
    ensures forall j :: 0 <= j < n ==> StepInput(n)[j] == (if j < InputOnset then 0.0 else InputLevel)
  {
  }

  /** `f(i, y)`: the model's slope under the input current at index i. */
  function F(p: Params, input: seq<real>, i: nat, y: Vec): Vec
    requires i < |input|
  {
    Derivative(p, y, input[i])
  }
}
