/**
 * Model of kit/vector/utils.go. It declares the same identifiers as
 * kit/vector/vector.go in the same package, so the two files cannot be
 * compiled together; each is modelled as written, in its own module.
 * Where the code of the two files is identical, the members here are the
 * ones of module Vector.
 */
module VectorUtils {
  import opened Vector

  /** MaxKey (lines 12-22), identical to vector.go's: the first index of the maximum. */
  method MaxKey(v: Vec) returns (key: nat)
    requires |v| > 0
    ensures key < |v|
    ensures forall i :: 0 <= i < |v| ==> v[i] <= v[key]
    ensures forall i :: 0 <= i < key ==> v[i] < v[key]
  {
    key := Vector.MaxKey(v);
  }

  /** Add (lines 30-34). */
  function Add(u: Vec, v: Vec): (r: Vec)
    requires |u| <= |v|
    ensures |r| == |u|
    ensures forall i :: 0 <= i < |u| ==> r[i] == u[i] + v[i]
  {
    Vector.Add(u, v)
  }

  /** Substract (lines 37-41). */
  function Substract(u: Vec, v: Vec): (r: Vec)
    requires |u| <= |v|
    ensures |r| == |u|
    ensures forall i :: 0 <= i < |u| ==> r[i] == u[i] - v[i]
  {
    Vector.Substract(u, v)
  }

  /** CreateZeroVector (lines 43-47). */
  function CreateZeroVector(size: nat): (r: Vec)
    ensures |r| == size && IsZero(r)
  {
    CreateZero(size)
  }

  /** CreateManyZeroVector (lines 49-55): one zero vector per requested size. */
  method CreateManyZeroVector(sizes: seq<nat>) returns (r: seq<Vec>)
    ensures |r| == |sizes|
    ensures forall i :: 0 <= i < |sizes| ==> |r[i]| == sizes[i] && IsZero(r[i])
  {
    r := CreateManyZero(sizes);
  }

  /** CreateNormalRandom (lines 58-64): `size` normal draws, unscaled; the draws are arbitrary reals here. */
  method CreateNormalRandom(size: nat) returns (r: Vec)
    ensures |r| == size
  {
    var vec := new real[size];
    for i := 0 to size {
      var draw: real := *;
      vec[i] := draw;
    }
    r := vec[..];
  }

  /**
   * CreateManyNormalRandom (lines 67-73), as written: the loop stops at
   * `len(sizes) - 1`, so the last vector is never created and stays nil
   * (the empty sequence).
   */
  method CreateManyNormalRandom(sizes: seq<nat>) returns (r: seq<Vec>)
    ensures |r| == |sizes|
    ensures forall i :: 0 <= i < |sizes| - 1 ==> |r[i]| == sizes[i]
    ensures |sizes| > 0 ==> r[|sizes| - 1] == []
  {
    var vecs := new Vec[|sizes|](_ => []);
    var i := 0;
    while i < |sizes| - 1
      invariant i == 0 || i <= |sizes| - 1
      invariant forall k :: 0 <= k < i && k < |sizes| ==> |vecs[k]| == sizes[k]
      invariant forall k :: i <= k < |sizes| ==> vecs[k] == []
    {
      vecs[i] := CreateNormalRandom(sizes[i]);
      i := i + 1;
    }
    r := vecs[..];
  }

  /**
   * The biases NewRandom would get for the topology [2, 3, 1] from the
   * function above: the output layer's bias vector is empty although that
   * layer has one neuron.
   */
  method OutputBiasLeftNil() returns (biases: seq<Vec>)
    ensures |biases| == 2 && |biases[0]| == 3 && biases[1] == []
  {
    var sizes: seq<nat> := [2, 3, 1];
    biases := CreateManyNormalRandom(sizes[1..]);
  }
}
