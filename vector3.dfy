/**
 * The `Vector3` value type: three float components with component-wise
 * arithmetic, exact comparison, the two "truthiness" combinators, rotation
 * about the Z axis with snap-to-zero, and flattening into a float array.
 *
 * Components are modelled as `real`. The transcendental functions the source
 * calls (`sin`, `cos`, `sqrt`) are parameters that the model never interprets.
 */
module Vectors {
  import opened Blocks

  /** The sine and cosine (of an angle in radians) that rotation uses. */
  datatype Trig = Trig(cos: real -> real, sin: real -> real)

  /** `M_PI`, as the header defines it. */
  const Pi: real := 3.14159265358979323846

  /** Rotated coordinates smaller than this in magnitude are snapped to exactly zero. */
  const SnapEpsilon: real := 0.00001

  function Abs(r: real): (a: real)
    ensures a >= 0.0 && (a == r || a == -r)
  {
    if r < 0.0 then -r else r
  }

  /** A coordinate that RotateZ can leave behind: zero, or at least SnapEpsilon away from it. */
  predicate Snapped(r: real)
  {
    r == 0.0 || Abs(r) >= SnapEpsilon
  }

  /** RotateZ's clean-up of one freshly rotated coordinate. */
  function Snap(r: real): (s: real)
    ensures Snapped(s)
    ensures Abs(r) >= SnapEpsilon ==> s == r
    ensures Abs(r) < SnapEpsilon ==> s == 0.0
  {
    if Abs(r) < SnapEpsilon then 0.0 else r
  }

  /** `Vector3(x = 0, y = 0, z = 0)`: omitted components default to zero. */
  datatype Vector3 = Vector3(x: real := 0.0, y: real := 0.0, z: real := 0.0)
  {
    static function Up(): Vector3 { Vector3(0.0, 1.0, 0.0) }
    static function Down(): Vector3 { Vector3(0.0, -1.0, 0.0) }
    static function Left(): Vector3 { Vector3(-1.0, 0.0, 0.0) }
    static function Right(): Vector3 { Vector3(1.0, 0.0, 0.0) }
    static function Forward(): Vector3 { Vector3(0.0, 0.0, 1.0) }
    static function Backward(): Vector3 { Vector3(0.0, 0.0, -1.0) }

    predicate NoZeroComponent()
    {
      x != 0.0 && y != 0.0 && z != 0.0
    }

    /** `operator+` */
    function Add(v: Vector3): Vector3
    {
      Vector3(x + v.x, y + v.y, z + v.z)
    }

    /** `operator-`: undoes `Add`. */
    function Sub(v: Vector3): (r: Vector3)
      ensures r.Add(v) == this
    {
      Vector3(x - v.x, y - v.y, z - v.z)
    }

    /** `operator*` between vectors (component-wise). */
    function Mul(v: Vector3): Vector3
    {
      Vector3(x * v.x, y * v.y, z * v.z)
    }

    /** `operator/` between vectors (component-wise): undoes `Mul`. */
    function Div(v: Vector3): (r: Vector3)
      requires v.NoZeroComponent()
      ensures r.Mul(v) == this
    {
      Vector3(x / v.x, y / v.y, z / v.z)
    }

    /** `v * scalar` */
    function Scale(s: real): (r: Vector3)
      ensures r == Mul(Vector3(s, s, s))
    {
      Vector3(x * s, y * s, z * s)
    }

    /** `v / scalar`: undoes `Scale`. */
    function DivScalar(s: real): (r: Vector3)
      requires s != 0.0
      ensures r.Scale(s) == this
    {
      Vector3(x / s, y / s, z / s)
    }

    /** `operator==`: exact comparison of the three components. */
    predicate Equal(v: Vector3)
      ensures Equal(v) <==> this == v
    {
      x == v.x && y == v.y && z == v.z
    }

    /** `operator!=` */
    predicate NotEqual(v: Vector3)
      ensures NotEqual(v) <==> this != v
    {
      !Equal(v)
    }

    /** `operator&&`: every component of both operands is nonzero. */
    predicate And(v: Vector3)
      ensures And(v) <==> NoZeroComponent() && v.NoZeroComponent()
      ensures And(v) ==> this != Vector3() && v != Vector3()
    {
      (x != 0.0 && y != 0.0 && z != 0.0) && (v.x != 0.0 && v.y != 0.0 && v.z != 0.0)
    }

    /** `operator||`: some component of either operand is nonzero. */
    predicate Or(v: Vector3)
      ensures Or(v) <==> !(this == Vector3() && v == Vector3())
    {
      (x != 0.0 || y != 0.0 || z != 0.0) || (v.x != 0.0 || v.y != 0.0 || v.z != 0.0)
    }

    /** `Inverted()`: a negated copy; the receiver, a value, is untouched. */
    function Inverted(): (r: Vector3)
      ensures Add(r) == Vector3()
    {
      Vector3(-x, -y, -z)
    }

    /**
     * `RotatedZ(theta)`: rotate counter-clockwise by `theta` degrees in the XY
     * plane, then snap each of x and y to zero when below SnapEpsilon.
     */
    function RotatedZ(theta: real, trig: Trig): (r: Vector3)
      ensures r.z == z
      ensures Snapped(r.x) && Snapped(r.y)
      ensures Abs(UnsnappedX(theta, trig)) >= SnapEpsilon ==> r.x == UnsnappedX(theta, trig)
      ensures Abs(UnsnappedX(theta, trig)) < SnapEpsilon ==> r.x == 0.0
      ensures Abs(UnsnappedY(theta, trig)) >= SnapEpsilon ==> r.y == UnsnappedY(theta, trig)
      ensures Abs(UnsnappedY(theta, trig)) < SnapEpsilon ==> r.y == 0.0
    {
      var newX := UnsnappedX(theta, trig);
      var newY := UnsnappedY(theta, trig);
      Vector3(Snap(newX), Snap(newY), z)
    }

    /** x after the counter-clockwise rotation by `theta` degrees, before snapping. */
    function UnsnappedX(theta: real, trig: Trig): real
    {
      var radTheta := theta * (Pi / 180.0);
      x * trig.cos(radTheta) - y * trig.sin(radTheta)
    }

    /** y after the counter-clockwise rotation by `theta` degrees, before snapping. */
    function UnsnappedY(theta: real, trig: Trig): real
    {
      var radTheta := theta * (Pi / 180.0);
      x * trig.sin(radTheta) + y * trig.cos(radTheta)
    }

    /** `Magnitude()`: the absolute value of the square root of the squared length. */
    function Magnitude(sqrt: real -> real): (m: real)
      ensures m >= 0.0
    {
      Abs(sqrt(x * x + y * y + z * z))
    }

    /** Static `Distance(v1, v2)`: the magnitude of the difference. */
    static function Distance(v1: Vector3, v2: Vector3, sqrt: real -> real): (d: real)
      ensures d >= 0.0
    {
      v1.Sub(v2).Magnitude(sqrt)
    }

    /** The single-vector `ToGLFloatArray`: writes x, y, z to the first three slots. */
    method ToGLFloatArray(outArray: array<real>)
      requires 3 <= outArray.Length
      modifies outArray
      ensures outArray[..3] == [x, y, z]
      ensures outArray[3..] == old(outArray[3..])
    {
      outArray[0] := x;
      outArray[1] := y;
      outArray[2] := z;
    }
  }

  /** The scalar-left `scalar * v`. */
  function ScalarMul(s: real, v: Vector3): (r: Vector3)
    ensures r == v.Scale(s)
  {
    Vector3(s * v.x, s * v.y, s * v.z)
  }

  /** The scalar-left `scalar / v`, component-wise. */
  function ScalarDiv(s: real, v: Vector3): (r: Vector3)
    requires v.NoZeroComponent()
    ensures r.Mul(v) == Vector3(s, s, s)
  {
    Vector3(s / v.x, s / v.y, s / v.z)
  }

  /** The free function `Dot`. */
  function Dot(v1: Vector3, v2: Vector3): real
  {
    v1.x * v2.x + v1.y * v2.y + v1.z * v2.z
  }

  lemma AddCommutative(a: Vector3, b: Vector3)
    ensures a.Add(b) == b.Add(a)
  {
  }

  lemma ScaleDistributes(a: Vector3, b: Vector3, s: real)
    ensures a.Add(b).Scale(s) == a.Scale(s).Add(b.Scale(s))
  {
  }

  lemma InvertedInvolutive(v: Vector3)
    ensures v.Inverted().Inverted() == v
    ensures v.Inverted() == v.Scale(-1.0)
  {
  }

  lemma AndSymmetric(a: Vector3, b: Vector3)
    ensures a.And(b) <==> b.And(a)
    ensures a.And(b) ==> a.Or(b)
  {
  }

  lemma OrSymmetric(a: Vector3, b: Vector3)
    ensures a.Or(b) <==> b.Or(a)
  {
  }

  lemma DistanceSymmetric(v1: Vector3, v2: Vector3, sqrt: real -> real)
    ensures Vector3.Distance(v1, v2, sqrt) == Vector3.Distance(v2, v1, sqrt)
    ensures Vector3.Distance(v1, v1, sqrt) == Abs(sqrt(0.0))
  {
    var d, e := v1.Sub(v2), v2.Sub(v1);
    assert d == e.Inverted();
    assert Dot(d, d) == Dot(e, e);
  }

  /** `+` and `-` undo each other, in either order. */
  lemma AddSubInverse(a: Vector3, b: Vector3)
    ensures a.Add(b).Sub(b) == a
    ensures a.Sub(b).Add(b) == a
  {
  }

  /** Component-wise `*` and `/` undo each other, in either order, when no component of the divisor is zero. */
  lemma MulDivInverse(a: Vector3, b: Vector3)
    requires b.NoZeroComponent()
    ensures a.Mul(b).Div(b) == a
    ensures a.Div(b).Mul(b) == a
  {
  }

  /** The free function `Dot` is symmetric. */
  lemma DotSymmetric(v1: Vector3, v2: Vector3)
    ensures Dot(v1, v2) == Dot(v2, v1)
  {
  }

  /** Moving both points by the same offset does not change their distance. */
  lemma DistanceTranslationInvariant(v1: Vector3, v2: Vector3, t: Vector3, sqrt: real -> real)
    ensures Vector3.Distance(v1.Add(t), v2.Add(t), sqrt) == Vector3.Distance(v1, v2, sqrt)
  {
    assert v1.Add(t).Sub(v2.Add(t)) == v1.Sub(v2);
  }

  /** Down is Up inverted. */
  lemma DownOpposesUp()
    ensures Vector3.Up().Inverted() == Vector3.Down()
  {
  }

  /** Left is Right inverted. */
  lemma LeftOpposesRight()
    ensures Vector3.Right().Inverted() == Vector3.Left()
  {
  }

  /** Backward is Forward inverted. */
  lemma BackwardOpposesForward()
    ensures Vector3.Forward().Inverted() == Vector3.Backward()
  {
  }

  /** The default constructor gives the zero vector; a two-argument construction has z = 0. */
  lemma DefaultComponents(a: real, b: real)
    ensures Vector3() == Vector3(0.0, 0.0, 0.0)
    ensures Vector3(a, b).z == 0.0
  {
  }

  /** x, y, z of one vector: the three floats it contributes to a flat array. */
  function Triple(v: Vector3): seq<real>
  {
    [v.x, v.y, v.z]
  }

  function Triples(vs: seq<Vector3>): (ts: seq<seq<real>>)
    ensures |ts| == |vs| && Uniform(ts, 3)
  {
    seq(|vs|, i requires 0 <= i < |vs| => Triple(vs[i]))
  }

  /** A sequence of vectors flattened into floats, three per vector. */
  function Components(vs: seq<Vector3>): seq<real>
  {
    Concat(Triples(vs))
  }

  /** Vector `i` occupies slots `3i`, `3i+1` and `3i+2`. */
  lemma ComponentsAt(vs: seq<Vector3>, i: nat)
    requires i < |vs|
    ensures |Components(vs)| == 3 * |vs|
    ensures 3 * i + 2 < |Components(vs)|
    ensures Components(vs)[3 * i] == vs[i].x
    ensures Components(vs)[3 * i + 1] == vs[i].y
    ensures Components(vs)[3 * i + 2] == vs[i].z
  {
    var ts := Triples(vs);
    ConcatAt(ts, 3, i, 0);
    ConcatAt(ts, 3, i, 1);
    ConcatAt(ts, 3, i, 2);
  }

  lemma ComponentsLength(vs: seq<Vector3>)
    ensures |Components(vs)| == 3 * |vs|
  {
    ConcatLength(Triples(vs), 3);
  }

  /**
   * The static `ToGLFloatArray(vecs, outArray)`: writes the components of
   * `vecs[i]` to slots `3i .. 3i+2`; slots past `3 * |vecs|` are untouched.
   */
  method ToGLFloatArray(vecs: seq<Vector3>, outArray: array<real>)
    requires 3 * |vecs| <= outArray.Length
    modifies outArray
    ensures outArray[..3 * |vecs|] == Components(vecs)
    ensures outArray[3 * |vecs|..] == old(outArray[3 * |vecs|..])
  {
    ghost var ts := Triples(vecs);
    for i := 0 to |vecs|
      invariant outArray[..3 * i] == Concat(ts[..i])
      invariant outArray[3 * i..] == old(outArray[3 * i..])
    {
      ConcatSnoc(ts, i);
      var j := 3 * i;
      ghost var before := outArray[..];
      outArray[j] := vecs[i].x;
      outArray[j + 1] := vecs[i].y;
      outArray[j + 2] := vecs[i].z;
      assert outArray[..j + 3] == before[..j] + ts[i];
      assert outArray[j + 3..] == before[j + 3..];
    }
    assert ts[..|vecs|] == ts;
  }
}
