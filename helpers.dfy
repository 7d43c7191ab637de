/**
 * Model of internal/network/helpers.go: the activation function, the
 * training example, and the batching and shuffling of examples.
 */
module Helpers {
  import opened Vector

  /**
   * sigmoid (lines 10-12), the logistic function 1 / (1 + e^-x). The model
   * has no exponential, so the function is left uninterpreted.
   */
  const Sigmoid: real -> real

  /** sigmoidPrime (lines 15-18): the derivative, evaluated at a pre-activation value. */
  function SigmoidPrime(x: real): (y: real)
    ensures y == Sigmoid(x) * (1.0 - Sigmoid(x))
  {
    var s := Sigmoid(x);
    s * (1.0 - s)
  }

  /** A training example (lines 20-23). */
  datatype Input = Input(input: Vec, expected: Vec)

  // ---------------------------------------------------------------------
  // Batching
  // ---------------------------------------------------------------------

  /** Where batch `i` of `n` examples ends: the last batch also takes the remainder. */
  function BatchEnd(n: nat, batchSize: nat, i: nat): (e: nat)
    requires batchSize > 0 && i < n / batchSize
    ensures batchSize * i <= e <= n
  {
    SliceBounds(n, batchSize, i);
    if i + 1 == n / batchSize then batchSize * (i + 1) + n % batchSize else batchSize * (i + 1)
  }

  lemma SliceBounds(n: nat, batchSize: nat, i: nat)
    requires batchSize > 0 && i < n / batchSize
    ensures batchSize * i <= batchSize * (i + 1) <= batchSize * (n / batchSize)
    ensures batchSize * (n / batchSize) + n % batchSize == n
  {
    MulMonotone(batchSize, i + 1, n / batchSize);
  }

  lemma MulMonotone(a: nat, x: nat, y: nat)
    requires x <= y
    ensures a * x <= a * y
  {
  }

  /** The batches splitIntoBatches builds, as a value. */
  function Batches<T>(data: seq<T>, batchSize: nat): seq<seq<T>>
    requires batchSize > 0
  {
    seq(|data| / batchSize, i requires 0 <= i < |data| / batchSize =>
      data[batchSize * i .. BatchEnd(|data|, batchSize, i)])
  }

  /**
   * splitIntoBatches (lines 25-43): `len / batchSize` consecutive slices of
   * `batchSize` examples, the last one extended by `len % batchSize`.
   * Integer division by `batchSize` panics when it is zero.
   */
  method SplitIntoBatches<T>(trainingData: seq<T>, batchSize: int) returns (res: seq<seq<T>>)
    requires batchSize > 0
    ensures |res| == |trainingData| / batchSize
    ensures forall i :: 0 <= i < |res| ==>
      res[i] == trainingData[batchSize * i .. BatchEnd(|trainingData|, batchSize, i)]
    ensures res == Batches(trainingData, batchSize)
  {
    var amount := |trainingData| / batchSize;
    var remainder := |trainingData| % batchSize;
    ghost var spec := Batches(trainingData, batchSize);
    var batches := new seq<T>[amount];
    for i := 0 to amount
      invariant forall k :: 0 <= k < i ==> batches[k] == spec[k]
    {
      var from := batchSize * i;
      var to := batchSize * (i + 1);
      if i + 1 == amount {
        to := to + remainder;
      }
      assert to == BatchEnd(|trainingData|, batchSize, i);
      batches[i] := trainingData[from..to];
    }
    res := batches[..];
  }

  /** The elements of a sequence of sequences, in order. */
  function Flatten<T>(ss: seq<seq<T>>): seq<T>
  {
    if |ss| == 0 then [] else Flatten(ss[..|ss| - 1]) + ss[|ss| - 1]
  }

  lemma {:induction false} BatchesPrefix<T>(data: seq<T>, batchSize: nat, k: nat)
    requires batchSize > 0 && k < |data| / batchSize
    ensures batchSize * k <= |data|
    ensures Flatten(Batches(data, batchSize)[..k]) == data[..batchSize * k]
  {
    var bs := Batches(data, batchSize);
    if k > 0 {
      BatchesPrefix(data, batchSize, k - 1);
      assert bs[..k][..k - 1] == bs[..k - 1];
      assert BatchEnd(|data|, batchSize, k - 1) == batchSize * k;
      assert data[..batchSize * (k - 1)] + data[batchSize * (k - 1) .. batchSize * k] == data[..batchSize * k];
    }
  }

  /**
   * When there is at least one batch, the batches are consecutive and
   * together they are exactly the input: no example is lost or repeated.
   */
  lemma BatchesCover<T>(data: seq<T>, batchSize: nat)
    requires batchSize > 0 && |data| >= batchSize
    ensures Flatten(Batches(data, batchSize)) == data
  {
    var bs := Batches(data, batchSize);
    var amount := |data| / batchSize;
    assert amount >= 1;
    BatchesPrefix(data, batchSize, amount - 1);
    assert bs[..amount] == bs;
    assert BatchEnd(|data|, batchSize, amount - 1) == |data| by {
      SliceBounds(|data|, batchSize, amount - 1);
    }
    assert data[..batchSize * (amount - 1)] + data[batchSize * (amount - 1) ..] == data;
  }

  /** Every batch holds `batchSize` examples, except the last, which holds `batchSize + len % batchSize`. */
  lemma BatchSizes<T>(data: seq<T>, batchSize: nat, i: nat)
    requires batchSize > 0 && i < |data| / batchSize
    ensures |Batches(data, batchSize)[i]| ==
      if i + 1 == |data| / batchSize then batchSize + |data| % batchSize else batchSize
  {
  }

  /** Fewer examples than one batch: no batch at all, so every example is dropped. */
  lemma ShortDataNoBatches<T>(data: seq<T>, batchSize: nat)
    requires batchSize > 0 && |data| < batchSize
    ensures Batches(data, batchSize) == []
  {
  }

  /** Every example of a batch is one of the input's. */
  lemma BatchMembers<T>(data: seq<T>, batchSize: nat, i: nat, x: T)
    requires batchSize > 0 && i < |data| / batchSize && x in Batches(data, batchSize)[i]
    ensures x in data
  {
    var b := Batches(data, batchSize)[i];
    var k :| 0 <= k < |b| && b[k] == x;
    assert data[batchSize * i + k] == x;
  }

  /** Twenty-three examples in batches of ten: two batches, of ten and of thirteen. */
  lemma TwentyThreeInTens<T>(data: seq<T>)
    requires |data| == 23
    ensures |Batches(data, 10)| == 2
    ensures |Batches(data, 10)[0]| == 10 && |Batches(data, 10)[1]| == 13
  {
    BatchSizes(data, 10, 0);
    BatchSizes(data, 10, 1);
  }

  // ---------------------------------------------------------------------
  // Shuffling
  // ---------------------------------------------------------------------

  /** `s` with the entries at `i` and `j` exchanged. */
  function Swap<T>(s: seq<T>, i: nat, j: nat): (r: seq<T>)
    requires i < |s| && j < |s|
  {
    s[i := s[j]][j := s[i]]
  }

  /** Swap partners as shuffleSlice draws them: partner `k` lies in `[0, k]`. */
  predicate Partners(js: seq<nat>)
  {
    forall k :: 0 <= k < |js| ==> js[k] <= k
  }

  /** `s` after the first `|js|` steps of shuffleSlice, step `k` swapping entries `k` and `js[k]`. */
  function Shuffled<T>(s: seq<T>, js: seq<nat>): (r: seq<T>)
    requires |js| <= |s| && Partners(js)
    ensures |r| == |s|
  {
    if |js| == 0 then s
    else
      var n := |js| - 1;
      Swap(Shuffled(s, js[..n]), n, js[n])
  }

  lemma SwapPermutes<T>(s: seq<T>, i: nat, j: nat)
    requires i < |s| && j < |s|
    ensures multiset(Swap(s, i, j)) == multiset(s)
  {
    if i != j {
      var t := s[i := s[j]];
      assert multiset(t) == multiset(s) - multiset{s[i]} + multiset{s[j]};
      assert multiset(t[j := s[i]]) == multiset(t) - multiset{t[j]} + multiset{s[i]};
    }
  }

  /** Any sequence of swaps leaves the same examples, each as often as before. */
  lemma {:induction false} ShuffledPermutes<T>(s: seq<T>, js: seq<nat>)
    requires |js| <= |s| && Partners(js)
    ensures multiset(Shuffled(s, js)) == multiset(s)
  {
    if |js| > 0 {
      var n := |js| - 1;
      ShuffledPermutes(s, js[..n]);
      SwapPermutes(Shuffled(s, js[..n]), n, js[n]);
    }
  }

  /**
   * shuffleSlice (lines 45-51): swaps entry `i` with a random entry
   * `j <= i` of the caller's slice, in place, and returns that same slice.
   * The random index is a nondeterministic choice; `partners` records it.
   */
  method ShuffleSlice<T>(slice: array<T>) returns (r: array<T>, ghost partners: seq<nat>)
    modifies slice
    ensures r == slice
    ensures |partners| == slice.Length && Partners(partners)
    ensures slice[..] == Shuffled(old(slice[..]), partners)
    ensures multiset(slice[..]) == multiset(old(slice[..]))
  {
    partners := [];
    for i := 0 to slice.Length
      invariant |partners| == i && Partners(partners)
      invariant slice[..] == Shuffled(old(slice[..]), partners)
    {
      var j :| 0 <= j <= i;
      slice[i], slice[j] := slice[j], slice[i];
      assert (partners + [j])[..i] == partners;
      partners := partners + [j];
    }
    ShuffledPermutes(old(slice[..]), partners);
    r := slice;
  }
}
