/**
 * The computation of internal/network/network.go as functions on values:
 * the shape of the parameters, the forward pass and its trace, the deltas of
 * backpropagation, the gradient accumulators of a batch, the update applied
 * after a batch, and a whole epoch. The class in module Network is proved to
 * compute exactly these.
 */
module NetworkSpec {
  import opened Vector
  import opened Helpers

  /** A weight matrix, one row per neuron of a layer. */
  type Matrix = seq<Vec>

  predicate IsMatrix(m: Matrix, rows: nat, cols: nat)
  {
    |m| == rows && forall j :: 0 <= j < rows ==> |m[j]| == cols
  }

  /**
   * Layer `i` (from 0) maps `sizes[i]` activations to `sizes[i + 1]`: it has a
   * bias vector of length `sizes[i + 1]` and `sizes[i + 1]` weight rows of
   * length `sizes[i]`.
   */
  predicate Shaped(sizes: seq<nat>, biases: seq<Vec>, weights: seq<Matrix>)
  {
    && |sizes| >= 1
    && |biases| == |sizes| - 1
    && |weights| == |sizes| - 1
    && (forall i :: 0 <= i < |biases| ==> |biases[i]| == sizes[i + 1])
    && (forall i {:trigger weights[i]} :: 0 <= i < |weights| ==> IsMatrix(weights[i], sizes[i + 1], sizes[i]))
  }

  /** The state of a Network: its topology and its parameters. */
  datatype Net = Net(sizes: seq<nat>, biases: seq<Vec>, weights: seq<Matrix>)
  {
    predicate Valid()
    {
      Shaped(sizes, biases, weights)
    }

    function Layers(): int
    {
      |sizes| - 1
    }
  }

  /** An example matches the topology: its input feeds layer 0, its expected output matches the last layer. */
  predicate Fits(sizes: seq<nat>, ex: Input)
    requires |sizes| >= 1
  {
    |ex.input| == sizes[0] && |ex.expected| == sizes[|sizes| - 1]
  }

  // ---------------------------------------------------------------------
  // Forward pass
  // ---------------------------------------------------------------------

  /** The weighted inputs of one layer: entry `j` is `dot(a, w[j]) + b[j]`. */
  function LayerZ(w: Matrix, b: Vec, a: Vec): Vec
    requires |w| == |b| && forall j :: 0 <= j < |w| ==> |a| <= |w[j]|
  {
    seq(|b|, j requires 0 <= j < |b| => Dot(a, w[j]) + b[j])
  }

  /** The weighted inputs `zs[i]` of every layer and the activations `acts[i]`, `acts[0]` being the input. */
  datatype Trace = Trace(zs: seq<Vec>, acts: seq<Vec>)

  /** The forward pass through the first `k` layers. */
  function Forward(n: Net, x: Vec, k: nat): (t: Trace)
    requires n.Valid() && |x| == n.sizes[0] && k <= n.Layers()
    ensures |t.zs| == k && |t.acts| == k + 1 && t.acts[0] == x
    ensures forall i :: 0 <= i <= k ==> |t.acts[i]| == n.sizes[i]
    ensures forall i :: 0 <= i < k ==> |t.zs[i]| == n.sizes[i + 1]
    decreases k
  {
    if k == 0 then Trace([], [x])
    else
      var t := Forward(n, x, k - 1);
      var z := LayerZ(n.weights[k - 1], n.biases[k - 1], t.acts[k - 1]);
      Trace(t.zs + [z], t.acts + [Mapped(z, Sigmoid)])
  }

  /** Layer `i` of trace `t` follows from its input: `zs[i]` is its weighted input, `acts[i + 1]` its sigmoid. */
  predicate Links(n: Net, t: Trace, i: nat)
    requires n.Valid() && i < n.Layers() && i < |t.zs| && i + 1 < |t.acts| && |t.acts[i]| == n.sizes[i]
  {
    && t.zs[i] == LayerZ(n.weights[i], n.biases[i], t.acts[i])
    && t.acts[i + 1] == Mapped(t.zs[i], Sigmoid)
  }

  /** Every layer of the forward pass is the sigmoid of its weighted input, itself computed from the layer before. */
  lemma {:induction false} ForwardLinks(n: Net, x: Vec, k: nat, i: nat)
    requires n.Valid() && |x| == n.sizes[0] && k <= n.Layers() && i < k
    ensures Links(n, Forward(n, x, k), i)
    decreases k
  {
    if i < k - 1 {
      ForwardLinks(n, x, k - 1, i);
      var t, r := Forward(n, x, k - 1), Forward(n, x, k);
      assert r.zs[i] == t.zs[i] && r.acts[i] == t.acts[i] && r.acts[i + 1] == t.acts[i + 1];
    }
  }

  /** One more layer of the forward pass, computed entry by entry. */
  lemma ForwardStep(n: Net, x: Vec, i: nat, zs: seq<Vec>, acts: seq<Vec>, z: Vec, a: Vec)
    requires n.Valid() && |x| == n.sizes[0] && i < n.Layers() && Trace(zs, acts) == Forward(n, x, i)
    requires |z| == n.sizes[i + 1] && |a| == n.sizes[i + 1]
    requires forall k :: 0 <= k < |z| ==> z[k] == Dot(acts[i], n.weights[i][k]) + n.biases[i][k]
    requires forall k :: 0 <= k < |a| ==> a[k] == Sigmoid(z[k])
    ensures Trace(zs + [z], acts + [a]) == Forward(n, x, i + 1)
  {
    assert z == LayerZ(n.weights[i], n.biases[i], acts[i]);
    assert a == Mapped(z, Sigmoid);
  }

  /** What FeedForward returns for a valid input: the last layer's activations. */
  function Output(n: Net, x: Vec): (o: Vec)
    requires n.Valid() && |x| == n.sizes[0] && n.Layers() >= 1
    ensures |o| == n.sizes[n.Layers()]
    ensures var i := n.Layers() - 1;
      o == Mapped(LayerZ(n.weights[i], n.biases[i], Forward(n, x, i).acts[i]), Sigmoid)
  {
    Forward(n, x, n.Layers()).acts[n.Layers()]
  }

  /** A trace shaped like the forward pass of `n`. */
  predicate TraceShaped(n: Net, t: Trace)
    requires n.Valid()
  {
    && |t.zs| == n.Layers()
    && |t.acts| == n.Layers() + 1
    && (forall i :: 0 <= i < n.Layers() ==> |t.zs[i]| == n.sizes[i + 1])
    && (forall i :: 0 <= i <= n.Layers() ==> |t.acts[i]| == n.sizes[i])
  }

  // ---------------------------------------------------------------------
  // Backpropagation
  // ---------------------------------------------------------------------

  /**
   * The output layer's error: `(expected - a) ⊙ sigmoidPrime(z)`. An output
   * that already matches the expected one has no error.
   */
  function OutputDelta(expected: Vec, a: Vec, z: Vec): (d: Vec)
    requires |expected| <= |a| && |expected| <= |z|
    ensures |d| == |expected|
    ensures forall j :: 0 <= j < |d| ==> d[j] == (expected[j] - a[j]) * SigmoidPrime(z[j])
    ensures expected == a[..|expected|] ==> IsZero(d)
  {
    Product(Substract(expected, a), Mapped(z, SigmoidPrime))
  }

  /**
   * `d[0]·next[0][j]·sp + ... + d[m-1]·next[m-1][j]·sp`, added in that order
   * from 0. No error in the layer above sends no error back.
   */
  function BackSum(d: Vec, next: Matrix, j: nat, sp: real, m: nat): (r: real)
    requires m <= |d| && m <= |next| && forall k :: 0 <= k < m ==> j < |next[k]|
    ensures (forall k :: 0 <= k < m ==> d[k] == 0.0) ==> r == 0.0
  {
    if m == 0 then 0.0 else BackSum(d, next, j, sp, m - 1) + d[m - 1] * next[m - 1][j] * sp
  }

  /**
   * A hidden layer's error, from the next layer's error `d` and weights
   * `next`: one entry per neuron of the layer, all zero when `d` is.
   */
  function HiddenDelta(d: Vec, next: Matrix, sp: Vec): (r: Vec)
    requires |next| == |d| && forall k :: 0 <= k < |d| ==> |sp| <= |next[k]|
    ensures |r| == |sp|
    ensures IsZero(d) ==> IsZero(r)
  {
    seq(|sp|, j requires 0 <= j < |sp| => BackSum(d, next, j, sp[j], |d|))
  }

  /** The error of layer `i`, propagated back from the output layer. */
  function Delta(n: Net, t: Trace, expected: Vec, i: nat): (d: Vec)
    requires n.Valid() && TraceShaped(n, t) && |expected| == n.sizes[n.Layers()]
    requires i < n.Layers()
    ensures |d| == n.sizes[i + 1]
    decreases n.Layers() - i
  {
    var last := n.Layers();
    if i == last - 1 then OutputDelta(expected, t.acts[last], t.zs[last - 1])
    else HiddenDelta(Delta(n, t, expected, i + 1), n.weights[i + 1], Mapped(t.zs[i], SigmoidPrime))
  }

  /** Below the output layer, the error is the hidden one computed from the layer above. */
  lemma DeltaHidden(n: Net, t: Trace, expected: Vec, i: nat)
    requires n.Valid() && TraceShaped(n, t) && |expected| == n.sizes[n.Layers()]
    requires i + 1 < n.Layers()
    ensures Delta(n, t, expected, i)
         == HiddenDelta(Delta(n, t, expected, i + 1), n.weights[i + 1], Mapped(t.zs[i], SigmoidPrime))
  {
  }

  /** Column `j` of a matrix: the weights from neuron `j` into each neuron of the next layer. */
  function Column(m: Matrix, j: nat): Vec
    requires forall k :: 0 <= k < |m| ==> j < |m[k]|
  {
    seq(|m|, k requires 0 <= k < |m| => m[k][j])
  }

  /**
   * The hidden error is the textbook one: entry `j` is the next layer's
   * error times column `j` of its weights (the transposed product), times
   * `sigmoidPrime(z[j])`.
   */
  lemma {:induction false} BackSumIsTransposedProduct(d: Vec, next: Matrix, j: nat, sp: real, m: nat)
    requires m <= |d| && |next| == |d| && forall k :: 0 <= k < |d| ==> j < |next[k]|
    ensures BackSum(d, next, j, sp, m) == Dot(d[..m], Column(next, j)) * sp
  {
    if m > 0 {
      BackSumIsTransposedProduct(d, next, j, sp, m - 1);
      assert d[..m][..m - 1] == d[..m - 1];
      var c := Column(next, j);
      assert Dot(d[..m], c) == Dot(d[..m - 1], c) + d[m - 1] * c[m - 1];
      assert (Dot(d[..m - 1], c) + d[m - 1] * c[m - 1]) * sp
          == Dot(d[..m - 1], c) * sp + d[m - 1] * c[m - 1] * sp;
    }
  }

  // ---------------------------------------------------------------------
  // Gradient accumulation
  // ---------------------------------------------------------------------

  /** Gradient accumulators, one bias vector and one weight matrix per layer. */
  datatype Grads = Grads(bias: seq<Vec>, weight: seq<Matrix>)

  predicate IsZeroMatrix(m: Matrix)
  {
    forall j :: 0 <= j < |m| ==> IsZero(m[j])
  }

  /** Accumulators all zero, shaped like the parameters of the topology. */
  function Zeros(sizes: seq<nat>): (g: Grads)
    requires |sizes| >= 1
    ensures Shaped(sizes, g.bias, g.weight)
    ensures forall i :: 0 <= i < |g.bias| ==> IsZero(g.bias[i]) && IsZeroMatrix(g.weight[i])
  {
    Grads(ZeroBiases(sizes), ZeroWeights(sizes))
  }

  /** A zero bias vector per layer after the input one. */
  function ZeroBiases(sizes: seq<nat>): (b: seq<Vec>)
    requires |sizes| >= 1
    ensures |b| == |sizes| - 1
    ensures forall i :: 0 <= i < |b| ==> |b[i]| == sizes[i + 1] && IsZero(b[i])
  {
    seq(|sizes| - 1, i requires 0 <= i < |sizes| - 1 => CreateZero(sizes[i + 1]))
  }

  /** A zero weight matrix per layer after the input one. */
  function ZeroWeights(sizes: seq<nat>): (w: seq<Matrix>)
    requires |sizes| >= 1
    ensures |w| == |sizes| - 1
    ensures forall i {:trigger w[i]} :: 0 <= i < |w| ==> IsMatrix(w[i], sizes[i + 1], sizes[i]) && IsZeroMatrix(w[i])
  {
    seq(|sizes| - 1, i requires 0 <= i < |sizes| - 1 => ZeroMatrix(sizes[i + 1], sizes[i]))
  }

  /** `rows` rows of `cols` zeros. */
  function ZeroMatrix(rows: nat, cols: nat): (m: Matrix)
    ensures IsMatrix(m, rows, cols) && IsZeroMatrix(m)
  {
    seq(rows, _ => CreateZero(cols))
  }

  /** Adds the weight gradient of one layer: row `j` gets `d[j]` times the previous activations. */
  function AddWeightGrad(rows: Matrix, d: Vec, a: Vec): (r: Matrix)
    requires |rows| <= |d| && forall j :: 0 <= j < |rows| ==> |rows[j]| <= |a|
    ensures |r| == |rows| && forall j :: 0 <= j < |r| ==> |r[j]| == |rows[j]|
  {
    seq(|rows|, j requires 0 <= j < |rows| => Add(rows[j], Scaled(a, d[j])))
  }

  /** The accumulators after adding the gradients of one example. */
  function AddExample(n: Net, g: Grads, ex: Input): (r: Grads)
    requires n.Valid() && n.Layers() >= 1 && Fits(n.sizes, ex)
    requires Shaped(n.sizes, g.bias, g.weight)
    ensures Shaped(n.sizes, r.bias, r.weight)
  {
    var last := n.Layers();
    var t := Forward(n, ex.input, last);
    Grads(seq(last, i requires 0 <= i < last => Add(g.bias[i], Delta(n, t, ex.expected, i))),
          seq(last, i requires 0 <= i < last => AddWeightGrad(g.weight[i], Delta(n, t, ex.expected, i), t.acts[i])))
  }

  /** Layer `i`'s gradients of one example, added to accumulators `acc`. */
  function AddLayer(n: Net, t: Trace, expected: Vec, acc: Grads, i: nat): (r: Grads)
    requires n.Valid() && TraceShaped(n, t) && |expected| == n.sizes[n.Layers()]
    requires Shaped(n.sizes, acc.bias, acc.weight) && i < n.Layers()
    ensures Shaped(n.sizes, r.bias, r.weight)
  {
    var d := Delta(n, t, expected, i);
    Grads(acc.bias[i := Add(acc.bias[i], d)], acc.weight[i := AddWeightGrad(acc.weight[i], d, t.acts[i])])
  }

  /** The layers above `i` of `acc` hold the example's gradients added to `g`; the others are those of `g`. */
  predicate AddedAbove(n: Net, t: Trace, expected: Vec, g: Grads, acc: Grads, i: int)
    requires n.Valid() && TraceShaped(n, t) && |expected| == n.sizes[n.Layers()]
    requires Shaped(n.sizes, g.bias, g.weight) && Shaped(n.sizes, acc.bias, acc.weight)
  {
    && (forall m :: 0 <= m < n.Layers() && m <= i ==> acc.bias[m] == g.bias[m] && acc.weight[m] == g.weight[m])
    && (forall m :: i < m < n.Layers() && 0 <= m ==>
          acc.bias[m] == Add(g.bias[m], Delta(n, t, expected, m)) &&
          acc.weight[m] == AddWeightGrad(g.weight[m], Delta(n, t, expected, m), t.acts[m]))
  }

  /** Adding layer `i` moves the boundary down by one. */
  lemma AddedAboveStep(n: Net, t: Trace, expected: Vec, g: Grads, acc: Grads, i: nat)
    requires n.Valid() && TraceShaped(n, t) && |expected| == n.sizes[n.Layers()]
    requires Shaped(n.sizes, g.bias, g.weight) && Shaped(n.sizes, acc.bias, acc.weight) && i < n.Layers()
    requires AddedAbove(n, t, expected, g, acc, i)
    ensures AddedAbove(n, t, expected, g, AddLayer(n, t, expected, acc, i), i - 1)
  {
  }

  /** Once every layer is added, the accumulators are those of AddExample. */
  lemma AddedAboveAll(n: Net, ex: Input, t: Trace, g: Grads, acc: Grads)
    requires n.Valid() && n.Layers() >= 1 && Fits(n.sizes, ex) && t == Forward(n, ex.input, n.Layers())
    requires Shaped(n.sizes, g.bias, g.weight) && Shaped(n.sizes, acc.bias, acc.weight)
    requires AddedAbove(n, t, ex.expected, g, acc, -1)
    ensures acc == AddExample(n, g, ex)
  {
    var want := AddExample(n, g, ex);
    assert acc.bias == want.bias;
    assert acc.weight == want.weight;
  }

  /** Every example of the batch matches the topology. */
  predicate AllFit(sizes: seq<nat>, batch: seq<Input>)
    requires |sizes| >= 1
  {
    forall x :: x in batch ==> Fits(sizes, x)
  }

  /** The accumulators after the first `m` examples of a batch. */
  function Accumulate(n: Net, batch: seq<Input>, m: nat): (g: Grads)
    requires n.Valid() && n.Layers() >= 1 && AllFit(n.sizes, batch) && m <= |batch|
    ensures Shaped(n.sizes, g.bias, g.weight)
  {
    if m == 0 then Zeros(n.sizes) else AddExample(n, Accumulate(n, batch, m - 1), batch[m - 1])
  }

  // ---------------------------------------------------------------------
  // Update and training
  // ---------------------------------------------------------------------

  /** The rows of a weight matrix, each moved by `ratio` times its gradient row. */
  function UpdatedRows(w: Matrix, gw: Matrix, ratio: real): Matrix
    requires |w| <= |gw| && forall j :: 0 <= j < |w| ==> |w[j]| <= |gw[j]|
  {
    seq(|w|, j requires 0 <= j < |w| => Substract(w[j], Scaled(gw[j], ratio)))
  }

  /** Every parameter `p` becomes `p - ratio * g`, `g` being its accumulated gradient. */
  function Update(n: Net, g: Grads, ratio: real): (r: Net)
    requires n.Valid() && Shaped(n.sizes, g.bias, g.weight)
    ensures r.Valid() && r.sizes == n.sizes
  {
    var last := n.Layers();
    Net(n.sizes,
        seq(last, i requires 0 <= i < last => Substract(n.biases[i], Scaled(g.bias[i], ratio))),
        seq(last, i requires 0 <= i < last =>
          SameShape(n.weights[i], g.weight[i], n.sizes[i + 1], n.sizes[i]);
          UpdatedRows(n.weights[i], g.weight[i], ratio)))
  }

  lemma SameShape(w: Matrix, gw: Matrix, rows: nat, cols: nat)
    requires IsMatrix(w, rows, cols) && IsMatrix(gw, rows, cols)
    ensures |w| <= |gw| && forall j :: 0 <= j < |w| ==> |w[j]| <= |gw[j]|
  {
  }

  /** One batch: accumulate every example's gradients, then step by `-learningRate / len(batch)`. */
  function Step(n: Net, batch: seq<Input>, learningRate: real): (r: Net)
    requires n.Valid() && n.Layers() >= 1 && |batch| > 0 && AllFit(n.sizes, batch)
    ensures r.Valid() && r.sizes == n.sizes
  {
    Update(n, Accumulate(n, batch, |batch|), -learningRate / (|batch| as real))
  }

  /** Batches the trainer can process for `sizes`: non-empty, fitting, and only for a network with a layer. */
  predicate Trainable(sizes: seq<nat>, batches: seq<seq<Input>>)
    requires |sizes| >= 1
  {
    && (|batches| > 0 ==> |sizes| >= 2)
    && forall b :: 0 <= b < |batches| ==> |batches[b]| > 0 && AllFit(sizes, batches[b])
  }

  /** The network after the first `k` batches. */
  function Train(n: Net, batches: seq<seq<Input>>, learningRate: real, k: nat): (r: Net)
    requires n.Valid() && Trainable(n.sizes, batches) && k <= |batches|
    ensures r.Valid() && r.sizes == n.sizes
  {
    if k == 0 then n else Step(Train(n, batches, learningRate, k - 1), batches[k - 1], learningRate)
  }

  /** What the data must satisfy for an epoch: whenever there is a batch, every example fits a network with a layer. */
  predicate EpochReady(n: Net, data: seq<Input>, batchSize: nat)
    requires n.Valid()
  {
    |data| >= batchSize ==> n.Layers() >= 1 && AllFit(n.sizes, data)
  }

  /** Shuffling keeps the data ready: it holds the same examples. */
  lemma EpochReadyPermuted(n: Net, a: seq<Input>, b: seq<Input>, batchSize: nat)
    requires n.Valid() && multiset(a) == multiset(b) && EpochReady(n, a, batchSize)
    ensures EpochReady(n, b, batchSize)
  {
    assert |a| == |multiset(a)| == |b|;
    forall x | x in b
      ensures x in a
    {
      assert x in multiset(b);
    }
  }

  lemma BatchesTrainable(n: Net, data: seq<Input>, batchSize: nat)
    requires n.Valid() && batchSize > 0 && EpochReady(n, data, batchSize)
    ensures Trainable(n.sizes, Batches(data, batchSize))
  {
    var bs := Batches(data, batchSize);
    forall b | 0 <= b < |bs|
      ensures |bs[b]| > 0 && AllFit(n.sizes, bs[b])
    {
      BatchSizes(data, batchSize, b);
      forall x | x in bs[b]
        ensures Fits(n.sizes, x)
      {
        BatchMembers(data, batchSize, b, x);
      }
    }
  }

  /** One epoch over data already shuffled: every batch of `Batches(data, batchSize)` in order. */
  function Epoch(n: Net, data: seq<Input>, batchSize: nat, learningRate: real): (r: Net)
    requires n.Valid() && batchSize > 0 && EpochReady(n, data, batchSize)
    ensures r.Valid() && r.sizes == n.sizes
  {
    BatchesTrainable(n, data, batchSize);
    var batches := Batches(data, batchSize);
    Train(n, batches, learningRate, |batches|)
  }

  // ---------------------------------------------------------------------
  // Properties
  // ---------------------------------------------------------------------

  /** Entry `j` of layer `i + 1`, as the trace computes it. */
  lemma TraceEntry(n: Net, x: Vec, t: Trace, i: nat, j: nat)
    requires n.Valid() && |x| == n.sizes[0] && t == Forward(n, x, n.Layers())
    requires i < n.Layers() && j < n.sizes[i + 1]
    ensures t.acts[i + 1][j] == Sigmoid(Dot(t.acts[i], n.weights[i][j]) + n.biases[i][j])
  {
    ForwardLinks(n, x, n.Layers(), i);
    var z := t.zs[i];
    assert t.acts[i + 1][j] == Sigmoid(z[j]);
    assert z[j] == Dot(t.acts[i], n.weights[i][j]) + n.biases[i][j];
  }

  /** Entry `j` of layer `i + 1` is `sigmoid(dot(weights[i][j], a_i) + biases[i][j])`. */
  lemma ForwardEntry(n: Net, x: Vec, t: Trace, i: nat, j: nat)
    requires n.Valid() && |x| == n.sizes[0] && t == Forward(n, x, n.Layers())
    requires i < n.Layers() && j < n.sizes[i + 1]
    ensures t.acts[i + 1][j] == Sigmoid(Dot(n.weights[i][j], t.acts[i]) + n.biases[i][j])
  {
    TraceEntry(n, x, t, i, j);
    DotSymmetric(t.acts[i], n.weights[i][j]);
  }

  /** Whatever the sigmoid is, as long as it maps into (0, 1), so does every output. */
  lemma OutputInUnitInterval(n: Net, x: Vec)
    requires n.Valid() && |x| == n.sizes[0] && n.Layers() >= 1
    requires forall y: real :: 0.0 < Sigmoid(y) < 1.0
    ensures |Output(n, x)| == n.sizes[n.Layers()]
    ensures forall j :: 0 <= j < |Output(n, x)| ==> 0.0 < Output(n, x)[j] < 1.0
  {
    var last := n.Layers();
    var t := Forward(n, x, last);
    ForwardLinks(n, x, last, last - 1);
    assert Output(n, x) == Mapped(t.zs[last - 1], Sigmoid);
  }

  /** A network whose weights and biases are all zero gives `sigmoid(0)` on every output, whatever the input. */
  lemma ZeroNetworkConstant(n: Net, x: Vec)
    requires n.Valid() && |x| == n.sizes[0] && n.Layers() >= 1
    requires forall i :: 0 <= i < n.Layers() ==> IsZero(n.biases[i]) && IsZeroMatrix(n.weights[i])
    ensures Output(n, x) == seq(n.sizes[n.Layers()], _ => Sigmoid(0.0))
  {
    var last := n.Layers();
    var t := Forward(n, x, last);
    ForwardLinks(n, x, last, last - 1);
    var z := t.zs[last - 1];
    forall j | 0 <= j < |z|
      ensures z[j] == 0.0
    {
      DotZero(t.acts[last - 1], n.weights[last - 1][j]);
    }
  }

  /** Corollary: a zero network cannot tell two inputs apart. */
  lemma ZeroNetworkIgnoresInput(n: Net, x: Vec, y: Vec)
    requires n.Valid() && |x| == |y| == n.sizes[0] && n.Layers() >= 1
    requires forall i :: 0 <= i < n.Layers() ==> IsZero(n.biases[i]) && IsZeroMatrix(n.weights[i])
    ensures Output(n, x) == Output(n, y)
  {
    ZeroNetworkConstant(n, x);
    ZeroNetworkConstant(n, y);
  }

  /**
   * The update, entry by entry: each parameter becomes its old value minus
   * `ratio` times its accumulated gradient (Step uses `ratio = -learningRate / M`,
   * `M` being the actual length of the batch), and nothing else changes shape.
   */
  lemma UpdateEntries(n: Net, g: Grads, ratio: real, i: nat, j: nat, k: nat)
    requires n.Valid() && Shaped(n.sizes, g.bias, g.weight)
    requires i < n.Layers() && j < n.sizes[i + 1] && k < n.sizes[i]
    ensures Update(n, g, ratio).biases[i][j] == n.biases[i][j] - g.bias[i][j] * ratio
    ensures Update(n, g, ratio).weights[i][j][k] == n.weights[i][j][k] - g.weight[i][j][k] * ratio
  {
    var r := Update(n, g, ratio);
    assert r.biases[i] == Substract(n.biases[i], Scaled(g.bias[i], ratio));
    assert r.weights[i][j] == Substract(n.weights[i][j], Scaled(g.weight[i][j], ratio));
  }

  /** Fewer examples than a batch: no batch, so the epoch leaves the network as it was. */
  lemma ShortEpochUnchanged(n: Net, data: seq<Input>, batchSize: nat, learningRate: real)
    requires n.Valid() && batchSize > 0 && |data| < batchSize
    ensures Epoch(n, data, batchSize, learningRate) == n
  {
    ShortDataNoBatches(data, batchSize);
  }
}
