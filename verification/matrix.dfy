/** Dense real matrices as sequences of rows, with the products the
    kinematics needs. */
module Matrix {

  type Vector = seq<real>
  type Mat = seq<seq<real>>

  /** `m` has `rows` rows of `cols` entries each. */
  predicate Shape(m: Mat, rows: nat, cols: nat) {
    |m| == rows && forall i :: 0 <= i < |m| ==> |m[i]| == cols
  }

  function Dot(a: Vector, b: Vector): real
    requires |a| == |b|
    decreases |a|
  {
    if |a| == 0 then 0.0 else a[0] * b[0] + Dot(a[1..], b[1..])
  }

  /** Matrix times column vector. */
  function MatVec(m: Mat, v: Vector): (r: Vector)
    requires forall i :: 0 <= i < |m| ==> |m[i]| == |v|
    ensures |r| == |m|
    ensures forall i :: 0 <= i < |m| ==> r[i] == Dot(m[i], v)
  {
    seq(|m|, i requires 0 <= i < |m| => Dot(m[i], v))
  }

  /** A dot product of length four, written out. */
  lemma Dot4(a: Vector, b: Vector)
    requires |a| == 4 && |b| == 4
    ensures Dot(a, b) == a[0] * b[0] + a[1] * b[1] + a[2] * b[2] + a[3] * b[3]
  {
    var a1, b1 := a[1..], b[1..];
    var a2, b2 := a1[1..], b1[1..];
    var a3, b3 := a2[1..], b2[1..];
    assert Dot(a3, b3) == a[3] * b[3] + Dot(a3[1..], b3[1..]);
    assert Dot(a2, b2) == a[2] * b[2] + Dot(a3, b3);
    assert Dot(a1, b1) == a[1] * b[1] + Dot(a2, b2);
  }

  /** A dot product of length three, written out. */
  lemma Dot3(a: Vector, b: Vector)
    requires |a| == 3 && |b| == 3
    ensures Dot(a, b) == a[0] * b[0] + a[1] * b[1] + a[2] * b[2]
  {
    var a1, b1 := a[1..], b[1..];
    var a2, b2 := a1[1..], b1[1..];
    assert Dot(a2, b2) == a[2] * b[2] + Dot(a2[1..], b2[1..]);
    assert Dot(a1, b1) == a[1] * b[1] + Dot(a2, b2);
  }
}
