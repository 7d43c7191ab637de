# gocr in Dafny

A model of gocr, a small Go program that trains a fully connected
sigmoid network to recognise the handwritten digits of the MNIST
database. Six files of the repository are modelled, each in its own
module:

- **Vector** (`kit/vector/vector.go`) and **VectorUtils** (`kit/vector/utils.go`):
  the vector primitives. These are MaxKey (the first index of the maximum),
  the component-wise operations, and the zero and random constructors. Both
  files declare the same identifiers in one Go package, so they cannot be
  compiled together. Each is modelled as written, in a module of its own.
- **Helpers** (`internal/network/helpers.go`): `sigmoidPrime`, the training
  example, `splitIntoBatches` and the in-place `shuffleSlice`.
- **Neurons** (`internal/network/neurons.go`): the neuron objects, with their
  getters and setters, and a layer's activation.
- **NetworkSpec** and **Network** (`internal/network/network.go`).
  NetworkSpec holds the network's computation as functions on values. These
  cover the parameter shapes, the forward pass and its trace, the errors of
  backpropagation, the gradient accumulators, the update after a batch, and
  one epoch. Network is the Go struct as a class whose methods reassign its
  fields. Each of its methods is proved to compute exactly the NetworkSpec
  function of the same step.
- **Mnist** (`internal/mnist/mnist.go`): decoding the IDX files of the MNIST
  database into training examples. A file is an object holding its bytes and
  a read position. The decoding covers the big-endian 32-bit header fields,
  the magic numbers `0x00000803` (images) and `0x00000801` (labels), the
  row splitting and image grouping, and the one-hot label encoding.

Scalars are `real`. The sigmoid is an uninterpreted function
`Helpers.Sigmoid`, and `sigmoidPrime` is stated in terms of it. Random draws
are arbitrary values, and the shuffle's random index is a nondeterministic
choice in `[0, i]`. The gosl `la` calls are specified by their
component-wise results. `VecDot(u, v)` is the left-to-right sum over the
indices of `u`, so it needs `v` to be at least as long as `u`.

Behaviour of the code that a reader might not expect:

- With fewer examples than one batch, `splitIntoBatches` makes no batch at
  all, so an epoch leaves the network unchanged (`Helpers.ShortDataNoBatches`,
  `NetworkSpec.ShortEpochUnchanged`).
- The topology is not validated. A topology with a single entry makes
  `FeedForward` skip its loop and return `(nil, nil)`, which is `Ok([])` in
  the model.
- The output error is `expected - activation`, and the update step uses the
  ratio `-learningRate / M`, with `M` the actual length of the batch. The two
  signs cancel, so the step is the usual descent step.
- `network.go` does not compile against either vector file. Line 14 calls
  `CreateManyNormalRandom` with the one-argument signature of `utils.go`, and
  line 18 passes two arguments to `CreateManyFixedSizeNormalRandom`, which
  takes three in `vector.go`. `Network.Network.NewRandom` uses the `vector.go`
  functions and normalises every layer by its fan-in. The values are
  arbitrary in the model anyway, so the choice affects only the shapes, and
  those are the ones the source intends.

## Model

| member | source | states |
|---|---|---|
| `Vector.Add` | kit/vector/vector.go:57-62 | the result has `len(u)` entries, entry `i` being `u[i] + v[i]`; `v` must be at least as long |
| `Vector.Substract` | kit/vector/vector.go:64-69 | the result has `len(u)` entries, entry `i` being `u[i] - v[i]` |
| `Vector.Dot` | kit/vector/vector.go:26-29 | the sum of `u[i] * v[i]` over the indices of `u`, zero when `u` is a zero vector; needs `len(v) >= len(u)` |
| `Vector.CreateZero` | kit/vector/vector.go:71-75 | a vector of `size` entries, all zero |
| `Vector.MaxKey` | kit/vector/vector.go:13-24 | on a non-empty vector: a valid index whose entry is at least every entry, and strictly greater than every entry before it (the first maximum) |
| `Vector.Hadamard` | kit/vector/vector.go:31-38 | `len(u)` entries, entry `i` being `u[i] * v[i]`; needs `len(v) >= len(u)` |
| `Vector.Scale` | kit/vector/vector.go:40-47 | same length as `u`, entry `i` being `u[i] * scalar` |
| `Vector.Apply` | kit/vector/vector.go:49-55 | same length as `v`, entry `i` being `f(v[i])` |
| `Vector.CreateManyZero` | kit/vector/vector.go:77-83 | one vector per size; vector `i` has `sizes[i]` entries, all zero |
| `Vector.CreateNormalRandom` | kit/vector/vector.go:85-93 | a vector of `size` entries |
| `Vector.CreateManyNormalRandom` | kit/vector/vector.go:95-102 | one vector per size, vector `i` of length `sizes[i]`; needs a norm parameter per size |
| `Vector.CreateManyFixedSizeNormalRandom` | kit/vector/vector.go:104-111 | `amount` vectors, each of length `size` |
| `Vector.DotPrefix` | kit/vector/vector.go:26-29 | the dot product reads only the first `len(u)` entries of `v` |
| `Vector.DotSymmetric` | kit/vector/vector.go:26-29 | on vectors of equal length the dot product does not depend on the order of its operands |
| `Vector.DotZero` | kit/vector/vector.go:26-29 | a dot product with a zero vector is zero |
| `Vector.AddThenSubstract` | kit/vector/vector.go:57-69 | Substract undoes Add: `(u + v) - v == u` |
| `VectorUtils.MaxKey` | kit/vector/utils.go:11-22 | the first index of the maximum of a non-empty vector, as in vector.go |
| `VectorUtils.Add` | kit/vector/utils.go:29-34 | `len(u)` entries, the component-wise sum |
| `VectorUtils.Substract` | kit/vector/utils.go:36-41 | `len(u)` entries, the component-wise difference |
| `VectorUtils.CreateZeroVector` | kit/vector/utils.go:43-47 | `size` entries, all zero |
| `VectorUtils.CreateManyZeroVector` | kit/vector/utils.go:49-55 | vector `i` has `sizes[i]` entries, all zero |
| `VectorUtils.CreateNormalRandom` | kit/vector/utils.go:57-64 | a vector of `size` entries |
| `VectorUtils.CreateManyNormalRandom` | kit/vector/utils.go:66-73 | as written: vectors `0 .. len(sizes)-2` have their sizes, and the last one stays nil (empty) |
| `VectorUtils.OutputBiasLeftNil` | internal/network/network.go:14 | for the topology `[2, 3, 1]` the biases from this function are a vector of 3 and an empty vector, although the output layer has one neuron |
| `Helpers.SigmoidPrime` | internal/network/helpers.go:14-18 | `sigmoidPrime(x) == sigmoid(x) * (1 - sigmoid(x))` |
| `Helpers.BatchEnd` | internal/network/helpers.go:36-40 | where batch `i` ends lies between its start `batchSize * i` and the end of the data |
| `Helpers.SplitIntoBatches` | internal/network/helpers.go:31-44 | `len / batchSize` batches; batch `i` is the slice from `batchSize * i` to `batchSize * (i + 1)`, the last one extended by `len % batchSize`; needs `batchSize > 0` |
| `Helpers.BatchesPrefix` | internal/network/helpers.go:35-42 | the first `k` batches, joined, are the first `batchSize * k` examples |
| `Helpers.BatchesCover` | internal/network/helpers.go:35-42 | with at least one batch, the batches joined are exactly the input: consecutive, no example lost or repeated |
| `Helpers.BatchSizes` | internal/network/helpers.go:32-42 | every batch holds `batchSize` examples except the last, which holds `batchSize + len % batchSize` |
| `Helpers.ShortDataNoBatches` | internal/network/helpers.go:32-35 | with fewer examples than a batch there is no batch at all |
| `Helpers.BatchMembers` | internal/network/helpers.go:41 | every example in a batch is one of the input's |
| `Helpers.TwentyThreeInTens` | internal/network/helpers.go:31-44 | 23 examples in batches of 10 give two batches, of 10 and 13 |
| `Helpers.Shuffled` | internal/network/helpers.go:46-51 | the specification of the swap steps that ShuffleSlice is proved against; the first `k` steps keep the length (their permutation property is `Helpers.ShuffledPermutes`) |
| `Helpers.SwapPermutes` | internal/network/helpers.go:49 | one swap keeps the same elements, each as often |
| `Helpers.ShuffledPermutes` | internal/network/helpers.go:46-51 | any sequence of swap steps keeps the same multiset |
| `Helpers.ShuffleSlice` | internal/network/helpers.go:46-52 | swaps the caller's array in place and returns that same array; every partner `j` of step `i` lies in `[0, i]`; the result is the swap sequence applied to the old contents, a permutation of them |
| `Neurons.BaseNeuron.constructor` | internal/network/neurons.go:29-32 | a neuron holding the given bias and the given weight array |
| `Neurons.BaseNeuron.Weights` | internal/network/neurons.go:34-37 | the neuron's own weight array, not a copy |
| `Neurons.BaseNeuron.Bias` | internal/network/neurons.go:39-42 | the neuron's bias |
| `Neurons.BaseNeuron.SetWeight` | internal/network/neurons.go:44-47 | weight `index` becomes `value`; the other weights and the bias are unchanged |
| `Neurons.BaseNeuron.SetBias` | internal/network/neurons.go:49-52 | the bias becomes `value`; the weight array and its contents are unchanged |
| `Neurons.SigmoidNeuron.NewSigmoidNeuron` | internal/network/neurons.go:54-59 | a fresh base neuron whose `Bias()` is `b` and whose `Weights()` is the caller's `w` itself |
| `Neurons.ActivateLayer` | internal/network/neurons.go:11-18 | one entry per neuron, entry `i` being what neuron `i` outputs for the input |
| `Neurons.WeightsSeeSetWeight` | internal/network/neurons.go:35-47 | the array `Weights()` returned shows a later `SetWeight` |
| `Neurons.SigmoidNeuron.Activate` | internal/network/neurons.go:66-69 | `sigmoid(dot(weights, input) + bias)`, where only the first `len(weights)` entries of the input count |
| `Neurons.NeuronAgreesWithRow` | internal/network/neurons.go:66-69 | a sigmoid neuron outputs `sigmoid(dot(weights, input) + bias)` |
| `Neurons.LayerAgreesWithRows` | internal/network/neurons.go:12-17 | a layer of neurons carrying the rows of a weight matrix computes, neuron for neuron, the network's `sigmoid(dot(input, row) + bias)` |
| `NetworkSpec.Forward` | internal/network/network.go:86-102 | the trace of the first `k` layers: `k` weighted inputs and `k + 1` activations, the first being the input, each of its layer's size |
| `NetworkSpec.ForwardLinks` | internal/network/network.go:91-102 | every layer's weighted input is `dot(prev, w[j]) + b[j]` on the activations before it, and its activations are their sigmoid |
| `NetworkSpec.ForwardStep` | internal/network/network.go:95-101 | a layer computed entry by entry extends the trace by one layer |
| `NetworkSpec.TraceEntry` | internal/network/network.go:95-97 | entry `j` of layer `i + 1` is `sigmoid(dot(a_i, weights[i][j]) + biases[i][j])` |
| `NetworkSpec.ForwardEntry` | internal/network/network.go:38-43 | entry `j` of layer `i + 1` is `sigmoid(dot(weights[i][j], a_i) + biases[i][j])` |
| `NetworkSpec.Output` | internal/network/network.go:38-47 | `sizes[layers]` entries: the sigmoid of the last layer's weighted input, computed from the forward pass through the layers before it |
| `NetworkSpec.OutputInUnitInterval` | internal/network/network.go:38-47 | the output has `sizes[layers]` entries, and every one lies in `(0, 1)` whenever the sigmoid does |
| `NetworkSpec.ZeroNetworkConstant` | internal/network/network.go:38-47 | with all weights and biases zero, every output entry is `sigmoid(0)`, whatever the input |
| `NetworkSpec.ZeroNetworkIgnoresInput` | internal/network/network.go:33-56 | a zero network gives the same output for any two inputs of the right length |
| `NetworkSpec.OutputDelta` | internal/network/network.go:109-111 | one entry per expected output, entry `j` being `(expected[j] - a[j]) * sigmoidPrime(z[j])`; all zero when the output matches the expected one |
| `NetworkSpec.BackSum` | internal/network/network.go:124-129 | the back-propagated sum for neuron `j` over the first `m` neurons above is zero when their errors are |
| `NetworkSpec.HiddenDelta` | internal/network/network.go:120-136 | one error per neuron of the hidden layer, all zero when the layer above has no error |
| `NetworkSpec.Delta` | internal/network/network.go:109-137 | the error of layer `i` has `sizes[i + 1]` entries |
| `NetworkSpec.DeltaHidden` | internal/network/network.go:120-136 | below the output layer the error is the hidden error computed from the error and weights of the layer above |
| `NetworkSpec.BackSumIsTransposedProduct` | internal/network/network.go:124-129 | `Σ_k deltas[k]·weights[i+1][k][j]·sp[j]`, summed in the source's order, is the dot product of the next layer's error with column `j` of its weights, times `sp[j]` |
| `NetworkSpec.Zeros` | internal/network/network.go:69-77 | accumulators shaped exactly like the parameters, every entry zero |
| `NetworkSpec.ZeroBiases` | internal/network/network.go:69-72 | one zero vector per layer, of that layer's size |
| `NetworkSpec.ZeroWeights` | internal/network/network.go:70-76 | one zero matrix per layer, `sizes[i + 1]` rows of `sizes[i]` entries |
| `NetworkSpec.ZeroMatrix` | internal/network/network.go:73-76 | `rows` rows of `cols` entries, all zero |
| `NetworkSpec.AddWeightGrad` | internal/network/network.go:114-117 | adding a layer's weight gradient keeps the number of rows and every row's length |
| `NetworkSpec.AddExample` | internal/network/network.go:79-137 | adding one example's gradients keeps the accumulators shaped like the parameters |
| `NetworkSpec.AddLayer` | internal/network/network.go:113-117 | adding one layer's gradients keeps the accumulators shaped like the parameters |
| `NetworkSpec.AddedAboveStep` | internal/network/network.go:120-137 | adding layer `i`'s gradients extends the layers already added down to `i` and leaves the others as they were |
| `NetworkSpec.AddedAboveAll` | internal/network/network.go:113-137 | once every layer from the output back to the first is added, the accumulators are those of the whole example |
| `NetworkSpec.Accumulate` | internal/network/network.go:79-138 | the accumulators of a batch's first `m` examples are shaped like the parameters |
| `NetworkSpec.Update` | internal/network/network.go:140-146 | the updated network has the same topology and parameters of the same shapes |
| `NetworkSpec.UpdateEntries` | internal/network/network.go:140-146 | each bias and weight becomes `old - ratio · accumulated`, entry by entry |
| `NetworkSpec.Step` | internal/network/network.go:65-146 | one batch keeps the network valid and its topology unchanged |
| `NetworkSpec.Train` | internal/network/network.go:63-147 | any number of batches keeps the network valid and its topology unchanged |
| `NetworkSpec.EpochReadyPermuted` | internal/network/network.go:60 | shuffled data still fits the network: it holds the same examples |
| `NetworkSpec.BatchesTrainable` | internal/network/network.go:61 | the batches of fitting data are non-empty and fit the network |
| `NetworkSpec.Epoch` | internal/network/network.go:59-147 | an epoch keeps the network valid and its topology unchanged |
| `NetworkSpec.ShortEpochUnchanged` | internal/network/network.go:61-64 | with fewer examples than a batch the epoch leaves the parameters untouched |
| `Network.LayerActivations` | internal/network/network.go:40-43 | a layer's activations are the sigmoid of `dot(prev, w[j]) + b[j]`, entry by entry |
| `Network.LayerValues` | internal/network/network.go:92-98 | a layer's weighted inputs and their sigmoid |
| `Network.TransposedEntry` | internal/network/network.go:127-129 | the inner sum of the hidden error, which is the next layer's error dotted with column `j` of its weights, times `sp` |
| `Network.TransposedLayer` | internal/network/network.go:125-133 | a hidden layer's error, with each entry added at once to its neuron's weight-gradient row |
| `Network.ZeroRows` | internal/network/network.go:73-76 | `count` rows of `width` zeros |
| `Network.UpdateRows` | internal/network/network.go:143-145 | each weight row moved by `ratio` times its gradient row |
| `Network.Network.NewRandom` | internal/network/network.go:10-23 | `layers == len(sizes) - 1` and `sizes` is stored; bias `i` has `sizes[i + 1]` entries and weight matrix `i` has `sizes[i + 1]` rows of `sizes[i]` entries |
| `Network.Network.FeedForward` | internal/network/network.go:33-56 | an error carrying both lengths exactly when `len(input) != sizes[0]`; `(nil, nil)` when there is no layer; otherwise the last layer's activations of the forward pass |
| `Network.Network.ZeroAccumulators` | internal/network/network.go:69-77 | the zero accumulators, shaped like the parameters |
| `Network.Network.ForwardTrace` | internal/network/network.go:86-102 | the weighted inputs and activations of every layer, as in the forward pass |
| `Network.Network.OutputLayer` | internal/network/network.go:104-117 | the output error `(expected - a_L) ⊙ sigmoidPrime(z_L)`, added to the last layer's accumulators |
| `Network.Network.HiddenLayer` | internal/network/network.go:120-137 | the error of hidden layer `i` from the error above it, added to that layer's accumulators |
| `Network.Network.HiddenLayers` | internal/network/network.go:120-137 | from the last hidden layer back to the first, every layer's gradients added, the accumulators staying shaped like the parameters |
| `Network.Network.Backpropagate` | internal/network/network.go:79-137 | one example's gradients added to the accumulators |
| `Network.Network.AccumulateBatch` | internal/network/network.go:69-138 | every example of the batch added to zero accumulators |
| `Network.Network.ApplyUpdate` | internal/network/network.go:140-146 | every parameter becomes `old - ratio · accumulated`; the topology is unchanged |
| `Network.Network.TrainBatch` | internal/network/network.go:65-146 | one batch step with the ratio `-learningRate / len(batch)`; the network stays valid with the same sizes |
| `Network.Network.TrainBatches` | internal/network/network.go:64-146 | every batch in turn, the network ending at `NetworkSpec.Train` of all of them |
| `Network.Network.StochasticGradientDescent` | internal/network/network.go:59-147 | the caller's data is permuted in place; the network stays valid with the same sizes and ends at the epoch over the data as shuffled |
| `Mnist.Encode32` | internal/mnist/mnist.go:38-42 | four bytes, most significant first |
| `Mnist.BigEndian4` | internal/mnist/mnist.go:38-42 | `v = v*256 + x` over four bytes is `((b0·256 + b1)·256 + b2)·256 + b3` |
| `Mnist.BigEndianBound` | internal/mnist/mnist.go:38-42 | the value of four bytes lies in `[0, 2^32)` |
| `Mnist.DecodeEncode` | internal/mnist/mnist.go:38-42 | decoding the four bytes of a 32-bit value gives it back |
| `Mnist.EncodeDecode` | internal/mnist/mnist.go:38-42 | encoding the value of four bytes gives the bytes back |
| `Mnist.File.Open` | internal/mnist/mnist.go:54 | a file just opened, at position 0 |
| `Mnist.File.Read` | internal/mnist/mnist.go:31 | the bytes still available up to the buffer's size, the position moved past them; the end of the file only when nothing is left and the buffer is not empty |
| `Mnist.ReadInt32` | internal/mnist/mnist.go:29-43 | the big-endian value of the next four bytes; the end of the file when none is left, an invalid-format error naming the file when fewer than four are left |
| `Mnist.Int32AtProperties` | internal/mnist/mnist.go:32-42 | a value exactly when four bytes are available, and it lies in `[0, 2^32)`; the end-of-file error exactly at the end |
| `Mnist.Int32RoundTrip` | internal/mnist/mnist.go:29-43 | reading an encoded value gives it back, whatever follows |
| `Mnist.ReadImagesFile` | internal/mnist/mnist.go:53-82 | the magic and the three header fields, then exactly `n * w * h` pixels; any failure is an invalid-format error naming the file |
| `Mnist.ReadLabelsFile` | internal/mnist/mnist.go:90-110 | the magic and the count, then exactly `n` labels; any failure is an invalid-format error naming the file |
| `Mnist.ImagesRoundTrip` | internal/mnist/mnist.go:59-81 | an encoded images file decodes to its images |
| `Mnist.ImagesAccepted` | internal/mnist/mnist.go:59-81 | an accepted images file starts with `0x00000803` and holds `n * w * h` pixels: re-encoding the result rebuilds the file up to the end of the pixels |
| `Mnist.ImagesWrongMagic` | internal/mnist/mnist.go:59-62 | a file not starting with the images magic is rejected, naming the file |
| `Mnist.ImagesTruncated` | internal/mnist/mnist.go:63-80 | a file cut anywhere before the end of its pixels is rejected, naming the file |
| `Mnist.LabelsRoundTrip` | internal/mnist/mnist.go:96-109 | an encoded labels file decodes to its labels |
| `Mnist.LabelsAccepted` | internal/mnist/mnist.go:96-109 | an accepted labels file starts with `0x00000801` and holds `n` labels: re-encoding the result rebuilds the file up to the last label |
| `Mnist.LabelsWrongMagic` | internal/mnist/mnist.go:96-99 | a file not starting with the labels magic is rejected, naming the file |
| `Mnist.LabelsTruncated` | internal/mnist/mnist.go:100-108 | a labels file cut before its last label is rejected, naming the file |
| `Mnist.Rows` | internal/mnist/mnist.go:184-192 | `count` rows cut from the data |
| `Mnist.SplitRows` | internal/mnist/mnist.go:184-192 | reslicing the data after each row gives consecutive rows `data[r*width .. (r+1)*width]` |
| `Mnist.SplitToRows` | internal/mnist/mnist.go:184-192 | as written: `n * h` rows of `h` bytes each, needing `n * h * h` bytes |
| `Mnist.RowAt` | internal/mnist/mnist.go:188 | row `r` is `data[r*width .. (r+1)*width]` |
| `Mnist.FlattenRows` | internal/mnist/mnist.go:184-191 | consecutive rows joined again are the bytes they were cut from |
| `Mnist.FlattenAt` | internal/mnist/mnist.go:184-191 | a row of joined rows sits right after the rows before it |
| `Mnist.RowsOfFlatten` | internal/mnist/mnist.go:184-191 | cutting joined rows of equal width gives the rows back |
| `Mnist.Pixels` | internal/mnist/mnist.go:135 | one input entry per byte |
| `Mnist.OneHot` | internal/mnist/mnist.go:129-130 | ten entries |
| `Mnist.OneHotMaxKey` | internal/mnist/mnist.go:129-130 | the only maximal index of the one-hot vector of `d` is `d`, so MaxKey recovers the digit |
| `Mnist.PixelRow` | internal/mnist/mnist.go:134-136 | one row's pixels, divided by 255, written after those already written; the rest of the vector unchanged |
| `Mnist.ImageInput` | internal/mnist/mnist.go:132-137 | corrected: with the index `j*h + k`, the image's pixels divided by 255, row after row, every index written once with `Image[j][k] / 255` |
| `Mnist.Dataset2NetInput` | internal/mnist/mnist.go:126-145 | corrected, with the pixel index of `Mnist.ImageInput`: one example per image, its pixels row after row divided by 255, and the one-hot vector of its digit; labels must be digits |
| `Mnist.WriteRowEffect` | internal/mnist/mnist.go:134-136 | the inner loop changes exactly the `h` entries from `j*w` on, to the pixels of row `j` |
| `Mnist.AsWrittenInRange` | internal/mnist/mnist.go:133-135 | with no more rows than columns, every index `j*w + k` lies inside the `w*h` entries |
| `Mnist.ImageInputAsWritten` | internal/mnist/mnist.go:132-137 | as written: a zero vector of `w*h` entries in which pixel `(j, k)` is stored at `j*w + k`, later rows overwriting earlier ones where they meet |
| `Mnist.AsWrittenSquare` | internal/mnist/mnist.go:132-137 | for square images the index as written gives the pixels row after row, as `Mnist.ImageInput` does |
| `Mnist.AsWrittenOverwrites` | internal/mnist/mnist.go:135 | two rows of three pixels: entry 2 ends up holding the second row's first pixel, entry 5 stays zero, and the vector is not the image's pixels row after row |
| `Mnist.AsWrittenOutOfRange` | internal/mnist/mnist.go:133-135 | with more rows than columns and at least one column, the last index written, `(w-1)*w + h-1`, is past the end, so the source panics |
| `Mnist.ImagePixels` | internal/mnist/mnist.go:162-167 | image `i` has `w * h` pixels |
| `Mnist.RowsShaped` | internal/mnist/mnist.go:188 | every row cut is `width` long |
| `Mnist.ImageOfRows` | internal/mnist/mnist.go:162-167 | image `m` is `w` rows of `h` pixels, and joined they are its pixels `data[m*w*h .. (m+1)*w*h]` |
| `Mnist.ImageFlat` | internal/mnist/mnist.go:162-167 | the rows of image `m`, joined, are its pixels |
| `Mnist.GroupImages` | internal/mnist/mnist.go:161-168 | corrected (the grouping of `Mnist.ToExamples`): image `m` takes rows `m*rows .. (m+1)*rows - 1`, and its digit is label `m`; called with `w` rows per image, where the source takes `H` |
| `Mnist.ReadDataSet` | internal/mnist/mnist.go:148-170 | the images file's error first, then the labels file's, then a count mismatch naming the labels file and then the images file; otherwise, corrected (the grouping of `Mnist.ToExamples`), one example per image with its label, where the source panics on non-square images |
| `Mnist.ToExamples` | internal/mnist/mnist.go:160-169 | the pixels cut into rows, grouped into images, made examples: one per image |
| `Mnist.ImagePixelsOfFlatten` | internal/mnist/mnist.go:162-167 | images laid end to end are cut apart again image by image |
| `Mnist.ExamplesOfFlatten` | internal/mnist/mnist.go:160-169 | the examples of images laid end to end are those of each image and its digit |
| `Mnist.DataSetRoundTrip` | internal/mnist/mnist.go:148-170 | corrected (the grouping of `Mnist.ToExamples`): encoding images and digits as the two files and reading them back gives one example per image, with its pixels and its digit; the source as written does so for square images only |
| `Mnist.SizeMismatch` | internal/mnist/mnist.go:157-159 | two accepted files with different counts are refused, naming the labels file and then the images file |
| `Mnist.AsWrittenNeedsSquare` | internal/mnist/mnist.go:184-192 | as written, an accepted file of non-empty images with fewer rows than columns has fewer than the `n * h * h` bytes splitToRows slices |
| `Mnist.NonSquareImagesPanic` | internal/mnist/mnist.go:162 | one image of one row of two pixels is accepted, yet the data fails splitToRows's demand |

## Left out

- Floating point: `real` stands for `float64`, and rounding is not modelled. The sigmoid (`math.Exp`) is uninterpreted.
- Randomness: the normal draws of the random constructors are arbitrary values, so their contracts state shapes only. Uniformity of the shuffle is not modelled.
- `Network.Network.NewRandom`: states shapes and not the distribution of the drawn values, for the same reason.
- `Network.Network.NewRandom`: requires a topology with at least one entry. The source slices `sizes[1:]` at line 14, which panics on an empty topology.
- The convergence property stated in `internal/network/network_test.go` depends on floating-point sigmoid training; that file is not part of this model.
- `os.Open`, `defer f.Close()` and the paths: a file is its name and its bytes. `ReadTrainSet` and `ReadTestSet` only join a directory and a file name, and are not modelled.
- Short reads: `File.Read` returns every available byte up to the buffer's size, which is what a regular file gives.
- `os.Open` failures cannot arise in the model; every other error keeps its kind and the file's name.
- `Mnist.ReadImagesFile`: does not model the wrap-around of `n * w * h` in Go's 64-bit `int`. The header fields are below 2^32, so the product of three of them can exceed 2^63.
- `Mnist.ReadDataSet`: requires every label to be a digit whenever both files are accepted with the same count. The source does not check this and panics on the index `expected[Digit]` instead.
- `Mnist.ReadDataSet`: groups the pixels as `Mnist.ToExamples` does, `w` rows of `h` bytes per image. On an accepted file with `n >= 1` and `w != h >= 1` the source panics instead: for `w < h` splitToRows slices past the end of the data (lines 188-189, `Mnist.NonSquareImagesPanic`), and for `w > h` each image keeps only `h` rows, so `Image[j]` with `j >= h` is out of range (line 135).
- `Mnist.DataSetRoundTrip`: holds of the corrected reader. The source as written reaches it only for square images (`w == h`), no images (`n == 0`) or images of no columns (`h == 0`), and panics on the other files, as the `Mnist.ReadDataSet` line above says.
- `Mnist.Dataset2NetInput`: requires digits in `[0, 10)` for the same reason. It also uses the corrected pixel index `j*h + k` of `Mnist.ImageInput`.
- `Mnist.ImageInput`: writes pixel `(j, k)` at `j*h + k`, not at the `j*w + k` of the source line 135. The two agree on square images (`Mnist.AsWrittenSquare`); the code as written is `Mnist.ImageInputAsWritten`.
- `Mnist.ImageInputAsWritten`: requires `w <= h` or `h == 0`. Otherwise the source writes past the end of the vector and panics (`Mnist.AsWrittenOutOfRange`).
- `Helpers.SplitIntoBatches`: requires `batchSize > 0`. The source divides by it and panics when it is zero. A negative size gives no batch when there are fewer examples than its magnitude, and a negative `make` length, which panics, otherwise.
- `Vector.MaxKey`: requires a non-empty vector. The source reads `v[0]` and panics on an empty one.
- `VectorUtils.MaxKey`: requires a non-empty vector, for the same reason as `Vector.MaxKey`.
- `Vector.Dot`: requires `len(v) >= len(u)`, because the sum runs over the indices of `u`. The model does not state what `la.VecDot` does with a shorter `v`.
- `Vector.Hadamard`: requires `len(v) >= len(u)`. The source reads `v[i]` for every index of `u` and panics on a shorter `v`.
- `Vector.Add`: requires `len(v) >= len(u)`. `la.VecAdd` reads `v` at every index of the result, which has `len(u)` entries.
- `Vector.Substract`: requires `len(v) >= len(u)`, for the same reason as `Vector.Add`.
- `VectorUtils.Add`: requires `len(v) >= len(u)`, as `Vector.Add`.
- `VectorUtils.Substract`: requires `len(v) >= len(u)`, as `Vector.Substract`.
- `Neurons.BaseNeuron.SetWeight`: requires `index` to be a valid weight index. The source panics on any other index.
- `Network.Network.StochasticGradientDescent`: requires every example to fit the topology, and a layer, once there is a batch. Otherwise the source may index out of range and panic; some such inputs do not panic (with the topology `[k, 0]`, an example of any input length and an empty expected vector), and the model does not cover them.
- Trailing bytes after the pixels or the labels are accepted and ignored, as in the source. The lemmas `Mnist.ImagesAccepted` and `Mnist.LabelsAccepted` state this.
- `Mnist.ImageInput` and `Mnist.PixelRow` write the input vector as a sequence value. The source writes a fresh local slice, which nothing aliases.
- The loops of ReadDataSet and StochasticGradientDescent are split into one method per block of the source, each proved against its specification function.
- `PrintImage` (console output), `internal/network/cost.go`, `internal/network/activation.go` and `cmd/main.go` are not part of this model. The network never calls the cost or activation types.
- The `Neuron` interface has one implementation. Its dispatch is `Neurons.SigmoidNeuron`'s methods called directly.
- `Dot` and `la.VecDot` are not modelled as one call into gosl. They are the left-to-right sum over the indices of `u`.

## Findings

| source | as written | input that shows it | evidently intended | confidence | as-written member | corrected member |
|---|---|---|---|---|---|---|
| kit/vector/utils.go:67-73 | the loop stops at `len(sizes) - 1`, so the last vector stays nil; `NewRandom` (network.go:14) calls this signature for the biases | topology `[2, 3, 1]`: the biases are a vector of 3 and a nil vector, although the output layer has one neuron | every size gets its vector (`i < len(sizes)`), as in vector.go | not executed | `VectorUtils.CreateManyNormalRandom`, `VectorUtils.OutputBiasLeftNil` | `Network.Network.NewRandom` |
| internal/mnist/mnist.go:162-166 | `splitToRows(data, N, H)` cuts `N*H` rows of `H` bytes, and each image takes `H` rows; dataset2NetInput then reads `W` rows of it. The IDX header gives `W` rows of `H` columns per image, so this works only for square images | one image of one row of two pixels (`n = 1, w = 1, h = 2`, data `[0, 0]`): the file is accepted, and splitToRows needs 4 bytes, so it slices past the end and panics | `N*W` rows of `H` bytes, `W` rows per image, input index `j*H + k` | not executed | `Mnist.SplitToRows`, `Mnist.NonSquareImagesPanic` | `Mnist.ToExamples`, `Mnist.GroupImages`, `Mnist.ReadDataSet`, `Mnist.DataSetRoundTrip` |
| internal/mnist/mnist.go:132-137 | dataset2NetInput stores pixel `(j, k)` of an image of `W` rows of `H` columns at `input[j*W + k]`. Row `j` then starts at `j*W`, so for `W < H` consecutive rows overlap and the last entries are never written, and for `W > H` the last index is past the end | two rows of three pixels `[[1, 2, 3], [4, 5, 6]]` (`W = 2, H = 3`): entry 2 holds the pixel 4 instead of 3, entry 5 stays 0 instead of 6/255 | index `j*H + k`, the pixels row after row | not executed | `Mnist.ImageInputAsWritten`, `Mnist.AsWrittenOverwrites`, `Mnist.AsWrittenOutOfRange` | `Mnist.ImageInput`, `Mnist.Dataset2NetInput` |
