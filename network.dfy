/**
 * Model of internal/network/network.go: a fully connected network of sigmoid
 * layers, its forward pass, and one epoch of stochastic gradient descent.
 *
 * The Go struct becomes a class whose fields the methods reassign. Each
 * method is proved against the functions of module NetworkSpec: FeedForward
 * returns `Output`, the per-example loop adds `AddExample`, a batch ends in
 * `Update`, and StochasticGradientDescent leaves the network at `Epoch` of
 * the shuffled data. The body of StochasticGradientDescent (lines 59-147) is
 * split into one method per block of the source.
 */
module Network {
  import opened Results
  import opened Vector
  import opened Helpers
  import opened NetworkSpec

  /** The error FeedForward reports (line 35). */
  datatype NetError = InvalidInputSize(got: nat, expected: nat)

  /** Lines 40-43: the activations of one layer, from the previous layer's. */
  method LayerActivations(w: Matrix, b: Vec, prev: Vec) returns (a: Vec)
    requires |w| == |b| && forall j :: 0 <= j < |w| ==> |prev| <= |w[j]|
    ensures a == Mapped(LayerZ(w, b, prev), Sigmoid)
  {
    var res := new real[|b|](_ => 0.0);
    for j := 0 to |b|
      invariant forall k :: 0 <= k < j ==> res[k] == Sigmoid(Dot(prev, w[k]) + b[k])
    {
      res[j] := Sigmoid(Dot(prev, w[j]) + b[j]);
    }
    a := res[..];
    assert forall k :: 0 <= k < |b| ==> a[k] == Mapped(LayerZ(w, b, prev), Sigmoid)[k];
  }

  /** Lines 92-98: the weighted inputs and the activations of one layer. */
  method LayerValues(w: Matrix, b: Vec, prev: Vec) returns (z: Vec, a: Vec)
    requires |w| == |b| && forall j :: 0 <= j < |w| ==> |prev| <= |w[j]|
    ensures z == LayerZ(w, b, prev) && a == Mapped(z, Sigmoid)
  {
    var zr := new real[|b|](_ => 0.0);
    var ar := new real[|b|](_ => 0.0);
    for j := 0 to |b|
      invariant forall k :: 0 <= k < j ==> zr[k] == Dot(prev, w[k]) + b[k]
      invariant forall k :: 0 <= k < j ==> ar[k] == Sigmoid(zr[k])
    {
      zr[j] := Dot(prev, w[j]) + b[j];
      ar[j] := Sigmoid(zr[j]);
    }
    z, a := zr[..], ar[..];
    assert forall k :: 0 <= k < |b| ==> z[k] == LayerZ(w, b, prev)[k];
    assert forall k :: 0 <= k < |b| ==> a[k] == Mapped(z, Sigmoid)[k];
  }

  /** Lines 127-129: entry `j` of the next layer's error times column `j` of its weights, times `sp`. */
  method TransposedEntry(d: Vec, next: Matrix, j: nat, sp: real) returns (sum: real)
    requires |next| == |d| && forall k :: 0 <= k < |d| ==> j < |next[k]|
    ensures sum == BackSum(d, next, j, sp, |d|)
    ensures sum == Dot(d, Column(next, j)) * sp
  {
    sum := 0.0;
    for k := 0 to |d|
      invariant sum == BackSum(d, next, j, sp, k)
    {
      sum := sum + d[k] * next[k][j] * sp;
    }
    BackSumIsTransposedProduct(d, next, j, sp, |d|);
    assert d[..|d|] == d;
  }

  /**
   * Lines 125-133: the error of a hidden layer, entry by entry, each entry
   * added at once to the weight gradient row of its neuron.
   */
  method TransposedLayer(deltas: Vec, next: Matrix, sp: Vec, prev: Vec, rows0: Matrix) returns (nd: Vec, rows: Matrix)
    requires |next| == |deltas| && forall k :: 0 <= k < |deltas| ==> |sp| <= |next[k]|
    requires |rows0| == |sp| && forall j :: 0 <= j < |rows0| ==> |rows0[j]| <= |prev|
    ensures nd == HiddenDelta(deltas, next, sp)
    ensures rows == AddWeightGrad(rows0, nd, prev)
  {
    var newDeltas := new real[|sp|](_ => 0.0);
    rows := rows0;
    for j := 0 to |sp|
      invariant |rows| == |sp|
      invariant forall k :: 0 <= k < j ==> newDeltas[k] == BackSum(deltas, next, k, sp[k], |deltas|)
      invariant forall k :: 0 <= k < j ==> rows[k] == Add(rows0[k], Scaled(prev, newDeltas[k]))
      invariant forall k :: j <= k < |rows| ==> rows[k] == rows0[k]
    {
      newDeltas[j] := TransposedEntry(deltas, next, j, sp[j]);
      var neuronDeltas := Scale(prev, newDeltas[j]);
      rows := rows[j := Add(rows[j], neuronDeltas)];
    }
    nd := newDeltas[..];
    assert nd == HiddenDelta(deltas, next, sp);
    assert rows == AddWeightGrad(rows0, nd, prev);
  }

  /** Lines 73-76: `count` rows of `width` zeros. */
  method ZeroRows(count: nat, width: nat) returns (rows: Matrix)
    ensures rows == ZeroMatrix(count, width)
  {
    var a := new Vec[count](_ => []);
    for j := 0 to count
      invariant forall k :: 0 <= k < j ==> a[k] == CreateZero(width)
    {
      a[j] := CreateZero(width);
    }
    rows := a[..];
  }

  /** Lines 143-145: row `j` of a weight matrix moves by `ratio` times gradient row `j`. */
  method UpdateRows(w: Matrix, gw: Matrix, ratio: real) returns (rows: Matrix)
    requires |w| <= |gw| && forall j :: 0 <= j < |w| ==> |w[j]| <= |gw[j]|
    ensures rows == UpdatedRows(w, gw, ratio)
  {
    rows := w;
    for j := 0 to |w|
      invariant |rows| == |w|
      invariant forall k :: 0 <= k < j ==> rows[k] == Substract(w[k], Scaled(gw[k], ratio))
      invariant forall k :: j <= k < |rows| ==> rows[k] == w[k]
    {
      var rowStep := Scale(gw[j], ratio);
      rows := rows[j := Substract(rows[j], rowStep)];
    }
  }

  class Network {
    var layers: int
    var sizes: seq<nat>
    var biases: seq<Vec>
    var weights: seq<Matrix>

    /** `layers` counts the layers after the input one, and the parameters have the shapes of `sizes`. */
    ghost predicate Valid()
      reads this
    {
      layers == |sizes| - 1 && Shaped(sizes, biases, weights)
    }

    /** The state as a value of NetworkSpec. */
    function Model(): Net
      reads this
    {
      Net(sizes, biases, weights)
    }

    /**
     * NewRandom (lines 10-23): biases and weights drawn at random, one layer
     * per pair of consecutive sizes. Every vector is drawn with the kit's
     * vector.go functions, with the fan-in of the layer as normalisation.
     */
    constructor NewRandom(sizes: seq<nat>)
      requires |sizes| >= 1
      ensures Valid() && this.sizes == sizes && layers == |sizes| - 1
    {
      var b := CreateManyNormalRandom(sizes[1..], sizes[..|sizes| - 1]);
      var res := new Matrix[|sizes| - 1](_ => []);
      for i := 1 to |sizes|
        invariant forall k {:trigger res[k]} :: 0 <= k < i - 1 ==> IsMatrix(res[k], sizes[k + 1], sizes[k])
      {
        res[i - 1] := CreateManyFixedSizeNormalRandom(sizes[i], sizes[i - 1], sizes[i - 1]);
      }
      layers := |sizes| - 1;
      this.sizes := sizes;
      biases := b;
      weights := res[..];
    }

    /**
     * FeedForward (lines 33-56): the activations of the last layer, or an
     * error when the input does not match the first layer. A network with no
     * layer after the input one falls through the loop and returns nil.
     */
    method FeedForward(input: Vec) returns (r: Result<Vec, NetError>)
      requires Valid()
      ensures |input| != sizes[0] <==> r == Err(InvalidInputSize(|input|, sizes[0]))
      ensures |input| == sizes[0] && layers == 0 ==> r == Ok([])
      ensures |input| == sizes[0] && layers >= 1 ==> r == Ok(Output(Model(), input))
    {
      if |input| != sizes[0] {
        return Err(InvalidInputSize(|input|, sizes[0]));
      }
      ghost var t := Forward(Model(), input, layers);
      var x := input;
      var i := 0;
      while i < layers
        invariant 0 <= i <= layers
        invariant layers >= 1 ==> i < layers
        invariant x == t.acts[i]
      {
        ForwardLinks(Model(), input, layers, i);
        var a := LayerActivations(weights[i], biases[i], x);
        if i + 1 == layers {
          return Ok(a);
        }
        x := a;
        i := i + 1;
      }
      return Ok([]);
    }

    /** Lines 69-77: accumulators of zeros, shaped like the parameters. */
    method ZeroAccumulators() returns (g: Grads)
      requires Valid()
      ensures g == Zeros(sizes)
    {
      var biasDeltas := new Vec[|sizes| - 1](_ => []);
      var weightDeltas := new Matrix[|sizes| - 1](_ => []);
      for i := 1 to |sizes|
        invariant forall k :: 0 <= k < i - 1 ==> biasDeltas[k] == CreateZero(sizes[k + 1])
        invariant forall k {:trigger weightDeltas[k]} :: 0 <= k < i - 1 ==> weightDeltas[k] == ZeroMatrix(sizes[k + 1], sizes[k])
      {
        biasDeltas[i - 1] := CreateZero(sizes[i]);
        var rows := ZeroRows(sizes[i], sizes[i - 1]);
        weightDeltas[i - 1] := rows;
      }
      g := Grads(biasDeltas[..], weightDeltas[..]);
      assert g.bias == Zeros(sizes).bias;
    }

    /** Lines 86-102: the weighted inputs and the activations of every layer for one input. */
    method ForwardTrace(input: Vec) returns (t: Trace)
      requires Valid() && |input| == sizes[0]
      ensures t == Forward(Model(), input, layers)
    {
      ghost var n := Model();
      var activations := [input];
      var zs := new Vec[layers](_ => []);
      for i := 0 to layers
        invariant Trace(zs[..i], activations) == Forward(n, input, i)
      {
        var z, activation := LayerValues(weights[i], biases[i], activations[i]);
        zs[i] := z;
        assert zs[..i + 1] == zs[..i] + [z];
        activations := activations + [activation];
      }
      assert zs[..] == zs[..layers];
      t := Trace(zs[..], activations);
    }

    /** Lines 104-117: the output layer's error, added to the last layer's accumulators. */
    method OutputLayer(t: Trace, expected: Vec, g: Grads) returns (deltas: Vec, r: Grads)
      requires Valid() && layers >= 1 && TraceShaped(Model(), t) && |expected| == sizes[layers]
      requires Shaped(sizes, g.bias, g.weight)
      ensures deltas == Delta(Model(), t, expected, layers - 1)
      ensures r == AddLayer(Model(), t, expected, g, layers - 1)
    {
      var lli := layers - 1;
      var cost := Substract(expected, t.acts[layers]);
      var sp := Apply(t.zs[lli], SigmoidPrime);
      deltas := Hadamard(cost, sp);
      assert deltas == OutputDelta(expected, t.acts[layers], t.zs[lli]);
      var bias := g.bias[lli := Add(g.bias[lli], deltas)];
      var rows := g.weight[lli];
      for j := 0 to sizes[layers]
        invariant |rows| == sizes[layers]
        invariant forall k :: 0 <= k < j ==> rows[k] == Add(g.weight[lli][k], Scaled(t.acts[lli], deltas[k]))
        invariant forall k :: j <= k < |rows| ==> rows[k] == g.weight[lli][k]
      {
        var neuronDeltas := Scale(t.acts[lli], deltas[j]);
        assert neuronDeltas == Scaled(t.acts[lli], deltas[j]);
        rows := rows[j := Add(rows[j], neuronDeltas)];
      }
      assert rows == AddWeightGrad(g.weight[lli], deltas, t.acts[lli]);
      r := Grads(bias, g.weight[lli := rows]);
    }

    /** Lines 120-137, one iteration: the error of hidden layer `i`, added to its accumulators. */
    method HiddenLayer(i: nat, t: Trace, expected: Vec, deltas: Vec, g: Grads) returns (newDeltas: Vec, r: Grads)
      requires Valid() && i + 1 < layers && TraceShaped(Model(), t) && |expected| == sizes[layers]
      requires deltas == Delta(Model(), t, expected, i + 1)
      requires Shaped(sizes, g.bias, g.weight)
      ensures newDeltas == Delta(Model(), t, expected, i)
      ensures r == AddLayer(Model(), t, expected, g, i)
    {
      ghost var n := Model();
      var sp := Apply(t.zs[i], SigmoidPrime);
      assert sp == Mapped(t.zs[i], SigmoidPrime);
      var rows;
      newDeltas, rows := TransposedLayer(deltas, weights[i + 1], sp, t.acts[i], g.weight[i]);
      DeltaHidden(n, t, expected, i);
      r := Grads(g.bias[i := Add(g.bias[i], newDeltas)], g.weight[i := rows]);
    }
  
    /**
     * Lines 79-137, one example: its forward trace, then the errors from the
     * output layer back to the first one, each added to the accumulators.
     */
    method Backpropagate(ex: Input, g: Grads) returns (r: Grads)
      requires Valid() && layers >= 1 && Fits(sizes, ex) && Shaped(sizes, g.bias, g.weight)
      ensures r == AddExample(Model(), g, ex)
    {
      ghost var n := Model();
      var t := ForwardTrace(ex.input);
      var deltas, acc := OutputLayer(t, ex.expected, g);
      AddedAboveStep(n, t, ex.expected, g, g, layers - 1);
      acc := HiddenLayers(t, ex.expected, g, deltas, acc);
      AddedAboveAll(n, ex, t, g, acc);
      r := acc;
    }

    /** Lines 122-137: the errors of the hidden layers, from the last one back to the first, added in turn. */
    method HiddenLayers(t: Trace, expected: Vec, g: Grads, outputDeltas: Vec, outputAcc: Grads) returns (acc: Grads)
      requires Valid() && layers >= 1 && TraceShaped(Model(), t) && |expected| == sizes[layers]
      requires Shaped(sizes, g.bias, g.weight) && Shaped(sizes, outputAcc.bias, outputAcc.weight)
      requires outputDeltas == Delta(Model(), t, expected, layers - 1)
      requires AddedAbove(Model(), t, expected, g, outputAcc, layers - 2)
      ensures Shaped(sizes, acc.bias, acc.weight)
      ensures AddedAbove(Model(), t, expected, g, acc, -1)
    {
      ghost var n := Model();
      var deltas := outputDeltas;
      acc := outputAcc;
      var i := layers - 2;
      while i >= 0
        invariant -1 <= i <= layers - 2
        invariant deltas == Delta(n, t, expected, i + 1)
        invariant Shaped(sizes, acc.bias, acc.weight)
        invariant AddedAbove(n, t, expected, g, acc, i)
        decreases i
      {
        ghost var before := acc;
        deltas, acc := HiddenLayer(i, t, expected, deltas, acc);
        AddedAboveStep(n, t, expected, g, before, i);
        i := i - 1;
      }
    }

    /** Lines 140-146: every parameter moves by `ratio` times its accumulated gradient. */
    method ApplyUpdate(g: Grads, ratio: real)
      requires Valid() && Shaped(sizes, g.bias, g.weight)
      modifies this
      ensures layers == old(layers) && Model() == Update(old(Model()), g, ratio)
    {
      ghost var n := Model();
      for i := 0 to layers
        invariant sizes == n.sizes && layers == |sizes| - 1
        invariant |biases| == layers && |weights| == layers
        invariant forall m :: 0 <= m < i ==>
          biases[m] == Substract(n.biases[m], Scaled(g.bias[m], ratio)) &&
          weights[m] == UpdatedRows(n.weights[m], g.weight[m], ratio)
        invariant forall m :: i <= m < layers ==> biases[m] == n.biases[m] && weights[m] == n.weights[m]
      {
        var step := Scale(g.bias[i], ratio);
        biases := biases[i := Substract(biases[i], step)];
        SameShape(n.weights[i], g.weight[i], sizes[i + 1], sizes[i]);
        var rows := UpdateRows(weights[i], g.weight[i], ratio);
        weights := weights[i := rows];
      }
      ghost var target := Update(n, g, ratio);
      assert biases == target.biases;
      assert weights == target.weights;
    }

    /**
     * StochasticGradientDescent (lines 59-147): shuffles the caller's data in
     * place, cuts it into batches, and for each batch accumulates the
     * gradients of its examples and applies the update. The network ends at
     * `Epoch` of the data as shuffled. With fewer examples than a batch
     * nothing is trained; otherwise every example must match the topology
     * and there must be a layer (the source indexes `zs[-1]` and panics
     * otherwise).
     */
    method StochasticGradientDescent(trainingData: array<Input>, batchSize: int, learningRate: real)
      requires Valid() && batchSize > 0
      requires EpochReady(Model(), trainingData[..], batchSize)
      modifies this, trainingData
      ensures Valid() && sizes == old(sizes)
      ensures multiset(trainingData[..]) == multiset(old(trainingData[..]))
      ensures EpochReady(old(Model()), trainingData[..], batchSize)
      ensures Model() == Epoch(old(Model()), trainingData[..], batchSize, learningRate)
    {
      ghost var n0 := Model();
      ghost var before := trainingData[..];
      var shuffled, partners := ShuffleSlice(trainingData);
      ghost var data := shuffled[..];
      EpochReadyPermuted(n0, before, data, batchSize);
      var batches := SplitIntoBatches(shuffled[..], batchSize);
      BatchesTrainable(n0, data, batchSize);
      TrainBatches(batches, learningRate);
      assert trainingData[..] == data;
    }

    /** Lines 64-146: every batch in turn, each moving the network by one step. */
    method TrainBatches(batches: seq<seq<Input>>, learningRate: real)
      requires Valid() && Trainable(sizes, batches)
      modifies this
      ensures Valid() && sizes == old(sizes)
      ensures Model() == Train(old(Model()), batches, learningRate, |batches|)
    {
      ghost var n0 := Model();
      for b := 0 to |batches|
        invariant Valid() && sizes == n0.sizes
        invariant Model() == Train(n0, batches, learningRate, b)
      {
        TrainBatch(batches[b], learningRate);
      }
    }

    /** Lines 65-146, one batch: the accumulated gradients, then the update by `-learningRate / M`. */
    method TrainBatch(batch: seq<Input>, learningRate: real)
      requires Valid() && layers >= 1 && |batch| > 0 && AllFit(sizes, batch)
      modifies this
      ensures Valid() && sizes == old(sizes)
      ensures Model() == Step(old(Model()), batch, learningRate)
    {
      var m := |batch| as real;
      var ratio := -learningRate / m;
      var g := AccumulateBatch(batch);
      ApplyUpdate(g, ratio);
    }

    /** Lines 69-138: the gradients of every example of a batch, added to zero accumulators. */
    method AccumulateBatch(batch: seq<Input>) returns (g: Grads)
      requires Valid() && layers >= 1 && AllFit(sizes, batch)
      ensures g == Accumulate(Model(), batch, |batch|)
    {
      ghost var n := Model();
      g := ZeroAccumulators();
      for e := 0 to |batch|
        invariant g == Accumulate(n, batch, e)
      {
        g := Backpropagate(batch[e], g);
      }
    }
  }
}
