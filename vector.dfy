/**
 * Model of kit/vector/vector.go: the vector primitives of the trainer.
 * A vector (`la.Vector`, a slice of float64) is a sequence of reals; the
 * calls into the gosl `la` package are specified by their component-wise
 * results only.
 */
module Vector {

  type Vec = seq<real>

  // ---------------------------------------------------------------------
  // Pure specifications
  // ---------------------------------------------------------------------

  /** `la.VecDot(u, v)`: the sum of `u[i] * v[i]` over the indices of `u`, added left to right. */
  function Dot(u: Vec, v: Vec): (r: real)
    requires |u| <= |v|
    ensures IsZero(u) ==> r == 0.0
    decreases |u|
  {
    if |u| == 0 then 0.0 else Dot(u[..|u| - 1], v) + u[|u| - 1] * v[|u| - 1]
  }

  /** The component-wise product of `u` with the first `|u|` entries of `v`. */
  function Product(u: Vec, v: Vec): Vec
    requires |u| <= |v|
  {
    seq(|u|, i requires 0 <= i < |u| => u[i] * v[i])
  }

  /** Every entry of `u` multiplied by `s`. */
  function Scaled(u: Vec, s: real): Vec
  {
    seq(|u|, i requires 0 <= i < |u| => u[i] * s)
  }

  /** `f` applied to every entry of `v`. */
  function Mapped(v: Vec, f: real -> real): Vec
  {
    seq(|v|, i requires 0 <= i < |v| => f(v[i]))
  }

  /** `v` holds only zeros. */
  predicate IsZero(v: Vec)
  {
    forall i :: 0 <= i < |v| ==> v[i] == 0.0
  }

  // ---------------------------------------------------------------------
  // Library calls (single `la` calls in the source): pure functions
  // ---------------------------------------------------------------------

  /** Add (lines 58-62): `la.VecAdd(res, 1, u, 1, v)` into a fresh vector of length `len(u)`. */
  function Add(u: Vec, v: Vec): (r: Vec)
    requires |u| <= |v|
    ensures |r| == |u|
    ensures forall i :: 0 <= i < |u| ==> r[i] == u[i] + v[i]
  {
    seq(|u|, i requires 0 <= i < |u| => u[i] + v[i])
  }

  /** Substract (lines 65-69): `la.VecAdd(res, 1, u, -1, v)` into a fresh vector of length `len(u)`. */
  function Substract(u: Vec, v: Vec): (r: Vec)
    requires |u| <= |v|
    ensures |r| == |u|
    ensures forall i :: 0 <= i < |u| ==> r[i] == u[i] - v[i]
  {
    seq(|u|, i requires 0 <= i < |u| => u[i] - v[i])
  }

  /** CreateZero (lines 71-75): `la.NewVector(size)` filled with 0. */
  function CreateZero(size: nat): (r: Vec)
    ensures |r| == size && IsZero(r)
  {
    seq(size, _ => 0.0)
  }

  // ---------------------------------------------------------------------
  // Loops over fresh arrays
  // ---------------------------------------------------------------------

  /** MaxKey (lines 14-24): the first index holding the largest entry. `v[0]` panics on an empty vector. */
  method MaxKey(v: Vec) returns (key: nat)
    requires |v| > 0
    ensures key < |v|
    ensures forall i :: 0 <= i < |v| ==> v[i] <= v[key]
    ensures forall i :: 0 <= i < key ==> v[i] < v[key]
  {
    var max := v[0];
    key := 0;
    for i := 1 to |v|
      invariant key < i && max == v[key]
      invariant forall k :: 0 <= k < i ==> v[k] <= max
      invariant forall k :: 0 <= k < key ==> v[k] < max
    {
      if v[i] > max {
        max := v[i];
        key := i;
      }
    }
  }

  /** Hadamard (lines 32-38): loops over `len(u)`, so `v` must be at least as long. */
  method Hadamard(u: Vec, v: Vec) returns (r: Vec)
    requires |u| <= |v|
    ensures |r| == |u|
    ensures forall i :: 0 <= i < |u| ==> r[i] == u[i] * v[i]
    ensures r == Product(u, v)
  {
    var res := new real[|u|];
    for i := 0 to |u|
      invariant forall k :: 0 <= k < i ==> res[k] == u[k] * v[k]
    {
      res[i] := u[i] * v[i];
    }
    r := res[..];
    assert forall k :: 0 <= k < |u| ==> r[k] == Product(u, v)[k];
  }

  /** Scale (lines 41-47). */
  method Scale(u: Vec, scalar: real) returns (r: Vec)
    ensures |r| == |u|
    ensures forall i :: 0 <= i < |u| ==> r[i] == u[i] * scalar
    ensures r == Scaled(u, scalar)
  {
    var res := new real[|u|];
    for i := 0 to |u|
      invariant forall k :: 0 <= k < i ==> res[k] == u[k] * scalar
    {
      res[i] := u[i] * scalar;
    }
    r := res[..];
    assert forall k :: 0 <= k < |u| ==> r[k] == Scaled(u, scalar)[k];
  }

  /** Apply (lines 49-55). */
  method Apply(v: Vec, f: real -> real) returns (r: Vec)
    ensures |r| == |v|
    ensures forall i :: 0 <= i < |v| ==> r[i] == f(v[i])
    ensures r == Mapped(v, f)
  {
    var res := new real[|v|];
    for i := 0 to |v|
      invariant forall k :: 0 <= k < i ==> res[k] == f(v[k])
    {
      res[i] := f(v[i]);
    }
    r := res[..];
  }

  /** CreateManyZero (lines 77-83): one zero vector per requested size. */
  method CreateManyZero(sizes: seq<nat>) returns (r: seq<Vec>)
    ensures |r| == |sizes|
    ensures forall i :: 0 <= i < |sizes| ==> |r[i]| == sizes[i] && IsZero(r[i])
  {
    var res := new Vec[|sizes|];
    for i := 0 to |sizes|
      invariant forall k :: 0 <= k < i ==> |res[k]| == sizes[k] && IsZero(res[k])
    {
      res[i] := CreateZero(sizes[i]);
    }
    r := res[..];
  }

  /**
   * CreateNormalRandom (lines 86-93). The entries are normal draws divided by
   * `sqrt(normParameter)`; the draws are not modelled, so every entry is an
   * arbitrary real and only the length is promised.
   */
  method CreateNormalRandom(size: nat, normParameter: int) returns (r: Vec)
    ensures |r| == size
  {
    var vec := new real[size];
    for i := 0 to size {
      var draw: real := *;
      vec[i] := draw;
    }
    r := vec[..];
  }

  /** CreateManyNormalRandom (lines 96-102): indexes `normParameters[i]`, so it needs one per size. */
  method CreateManyNormalRandom(sizes: seq<nat>, normParameters: seq<int>) returns (r: seq<Vec>)
    requires |normParameters| >= |sizes|
    ensures |r| == |sizes|
    ensures forall i :: 0 <= i < |sizes| ==> |r[i]| == sizes[i]
  {
    var vecs := new Vec[|sizes|];
    for i := 0 to |sizes|
      invariant forall k :: 0 <= k < i ==> |vecs[k]| == sizes[k]
    {
      vecs[i] := CreateNormalRandom(sizes[i], normParameters[i]);
    }
    r := vecs[..];
  }

  /** CreateManyFixedSizeNormalRandom (lines 105-111): `amount` vectors of length `size`. */
  method CreateManyFixedSizeNormalRandom(amount: nat, size: nat, normParameter: int) returns (r: seq<Vec>)
    ensures |r| == amount
    ensures forall i :: 0 <= i < amount ==> |r[i]| == size
  {
    var vecs := new Vec[amount];
    for i := 0 to amount
      invariant forall k :: 0 <= k < i ==> |vecs[k]| == size
    {
      vecs[i] := CreateNormalRandom(size, normParameter);
    }
    r := vecs[..];
  }

  // ---------------------------------------------------------------------
  // Lemmas
  // ---------------------------------------------------------------------

  /** The dot product reads only the first `|u|` entries of `v`. */
  lemma {:induction false} DotPrefix(u: Vec, v: Vec, w: Vec)
    requires |u| <= |v| && |u| <= |w| && v[..|u|] == w[..|u|]
    ensures Dot(u, v) == Dot(u, w)
  {
    if |u| > 0 {
      var n := |u| - 1;
      assert v[..n] == v[..|u|][..n] && w[..n] == w[..|u|][..n];
      assert v[n] == v[..|u|][n] && w[n] == w[..|u|][n];
      DotPrefix(u[..n], v, w);
    }
  }

  /** The dot product is symmetric on vectors of equal length. */
  lemma {:induction false} DotSymmetric(u: Vec, v: Vec)
    requires |u| == |v|
    ensures Dot(u, v) == Dot(v, u)
  {
    if |u| > 0 {
      var n := |u| - 1;
      DotSymmetric(u[..n], v[..n]);
      DotPrefix(u[..n], v, v[..n]);
      DotPrefix(v[..n], u, u[..n]);
    }
  }

  /** A zero right operand gives a zero dot product. */
  lemma {:induction false} DotZero(u: Vec, v: Vec)
    requires |u| <= |v| && IsZero(v)
    ensures Dot(u, v) == 0.0
  {
    if |u| > 0 {
      DotZero(u[..|u| - 1], v);
    }
  }

  /** Subtracting what was added gives back the original vector. */
  lemma AddThenSubstract(u: Vec, v: Vec)
    requires |u| <= |v|
    ensures Substract(Add(u, v), v) == u
  {
  }
}
