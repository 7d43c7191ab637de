/**
 * Model of internal/network/neurons.go: neurons as objects with a bias and
 * a weight vector, and a layer as a list of neurons.
 *
 * The weight vector is a Go slice, so it is shared, not copied: it is an
 * array here. The `Neuron` interface has one implementation, SigmoidNeuron,
 * which embeds a pointer to a baseNeuron; the embedding is the field `base`.
 */
module Neurons {
  import opened Vector
  import opened Helpers

  /** baseNeuron (lines 29-32). */
  class BaseNeuron {
    var bias: real
    var weights: array<real>

    constructor (b: real, w: array<real>)
      ensures bias == b && weights == w
    {
      bias := b;
      weights := w;
    }

    /** Weights (lines 35-37): the neuron's own weight array, not a copy. */
    function Weights(): (w: array<real>)
      reads this
      ensures w == weights
    {
      weights
    }

    /** Bias (lines 40-42). */
    function Bias(): (b: real)
      reads this
      ensures b == bias
    {
      bias
    }

    /** SetWeight (lines 45-47): writes one weight in place; an index out of range panics. */
    method SetWeight(index: int, value: real)
      requires 0 <= index < weights.Length
      modifies weights
      ensures weights[index] == value
      ensures forall k :: 0 <= k < weights.Length && k != index ==> weights[k] == old(weights[k])
      ensures bias == old(bias)
    {
      weights[index] := value;
    }

    /** SetBias (lines 50-52). */
    method SetBias(value: real)
      modifies this`bias
      ensures bias == value
      ensures weights == old(weights) && weights[..] == old(weights[..])
    {
      bias := value;
    }
  }

  /** SigmoidNeuron (lines 61-64): a neuron whose activation is the sigmoid. */
  class SigmoidNeuron {
    const base: BaseNeuron

    /** NewSigmoidNeuron (lines 54-58): a fresh baseNeuron holding `b` and the caller's slice `w`. */
    constructor NewSigmoidNeuron(b: real, w: array<real>)
      ensures fresh(base)
      ensures base.Bias() == b && base.Weights() == w
    {
      base := new BaseNeuron(b, w);
    }

    /**
     * Activate (lines 67-69): `sigmoid(dot(weights, input) + bias)`. Entries
     * of the input beyond the neuron's weights play no part.
     */
    function Activate(input: Vec): (r: real)
      reads this, base, base.weights
      requires base.weights.Length <= |input|
      ensures r == Sigmoid(Dot(base.weights[..], input[..base.weights.Length]) + base.bias)
    {
      DotPrefix(base.weights[..], input, input[..base.weights.Length]);
      Sigmoid(Dot(base.weights[..], input) + base.bias)
    }
  }

  /** Every neuron of the layer has no more weights than the input has entries. */
  predicate Accepts(l: seq<SigmoidNeuron>, input: Vec)
    reads set n | n in l :: n.base
  {
    forall i :: 0 <= i < |l| ==> l[i].base.weights.Length <= |input|
  }

  /** Layer.Activate (lines 12-17): entry `i` is what neuron `i` outputs for `input`. */
  method ActivateLayer(l: seq<SigmoidNeuron>, input: Vec) returns (res: Vec)
    requires Accepts(l, input)
    ensures |res| == |l|
    ensures forall i :: 0 <= i < |l| ==> res[i] == l[i].Activate(input)
  {
    var a := new real[|l|];
    for i := 0 to |l|
      invariant forall k :: 0 <= k < i ==> a[k] == l[k].Activate(input)
    {
      a[i] := l[i].Activate(input);
    }
    res := a[..];
  }

  /**
   * A client of the getters: the array `Weights()` returns is the neuron's
   * own, so a later SetWeight is visible through it.
   */
  method WeightsSeeSetWeight(n: BaseNeuron, index: int, value: real) returns (w: array<real>)
    requires 0 <= index < n.weights.Length
    modifies n.weights
    ensures w == n.weights && w[index] == value
  {
    w := n.Weights();
    n.SetWeight(index, value);
  }

  /** A sigmoid neuron carrying `row` and `b` outputs `sigmoid(dot(input, row) + b)`. */
  lemma NeuronAgreesWithRow(n: SigmoidNeuron, row: Vec, b: real, input: Vec)
    requires n.base.weights[..] == row && n.base.bias == b && |row| == |input|
    ensures n.base.weights.Length <= |input|
    ensures n.Activate(input) == Sigmoid(Dot(input, row) + b)
  {
    DotSymmetric(row, input);
  }

  /** Neuron `j` of `l` carries row `j` of `rows` and entry `j` of `b`, each row as long as `input`. */
  ghost predicate Carries(l: seq<SigmoidNeuron>, rows: seq<Vec>, b: Vec, input: Vec)
    reads set n | n in l :: n.base, set n | n in l :: n.base.weights
  {
    |l| == |rows| == |b| &&
    forall j :: 0 <= j < |l| ==>
      l[j].base.weights[..] == rows[j] && l[j].base.bias == b[j] && |rows[j]| == |input|
  }

  /**
   * A layer of sigmoid neurons carrying the rows of a weight matrix and the
   * entries of a bias vector computes, neuron for neuron, what the network's
   * forward pass computes for that layer: `sigmoid(dot(input, row) + bias)`.
   */
  lemma LayerAgreesWithRows(l: seq<SigmoidNeuron>, rows: seq<Vec>, b: Vec, input: Vec, j: nat)
    requires Carries(l, rows, b, input) && j < |l|
    ensures Accepts(l, input)
    ensures l[j].Activate(input) == Sigmoid(Dot(input, rows[j]) + b[j])
  {
    forall k | 0 <= k < |l|
      ensures l[k].base.weights.Length <= |input|
    {
      assert l[k].base.weights.Length == |l[k].base.weights[..]|;
    }
    NeuronAgreesWithRow(l[j], rows[j], b[j], input);
  }
}
