/**
 * The shared particle shape: a regular polygon of `resolution` vertices
 * (`RenderCircle`) and its triangle-fan index list, built once and then only read.
 */
module Shape {
  import opened CTypes
  import opened Blocks
  import opened Vectors

  /**
   * The resolution RenderCircle actually uses: the absolute value of the
   * request, raised to 3 when it is 2 or less. `abs(INT_MIN)` is undefined
   * behaviour in C++; the model chooses the wrapped two's-complement value
   * INT_MIN, which the `<= 2` test then raises to 3.
   */
  function EffectiveResolution(resolution: int32): (n: nat)
    ensures 3 <= n < 0x8000_0000
    ensures resolution as int != MinInt32 ==>
      n == if -3 < resolution < 3 then 3 else if resolution < 0 then -(resolution as int) else resolution as int
    ensures resolution as int == MinInt32 ==> n == 3
  {
    var r: int32 := if resolution as int == MinInt32 then resolution
                    else if resolution < 0 then -resolution else resolution;
    if r <= 2 then 3 else r as nat
  }

  /** The angle in degrees between consecutive vertices. */
  function StepAngle(n: nat): real
    requires n > 0
  {
    360.0 / n as real
  }

  /** The first `n` vertices: Up() followed by each previous vertex rotated by `theta` degrees about Z. */
  function CircleVertices(n: nat, theta: real, trig: Trig): (vs: seq<Vector3>)
    requires n >= 1
    ensures |vs| == n
  {
    if n == 1 then [Vector3.Up()]
    else
      var prev := CircleVertices(n - 1, theta, trig);
      prev + [prev[n - 2].RotatedZ(theta, trig)]
  }

  /**
   * Vertex 0 is Up(), every later vertex is its predecessor rotated, and all of
   * them lie in the z = 0 plane with snapped x and y.
   */
  lemma {:induction false} CircleVerticesShape(n: nat, theta: real, trig: Trig, i: nat)
    requires 1 <= n && i < n
    ensures CircleVertices(n, theta, trig)[0] == Vector3.Up()
    ensures 0 < i ==> CircleVertices(n, theta, trig)[i] == CircleVertices(n, theta, trig)[i - 1].RotatedZ(theta, trig)
    ensures var v := CircleVertices(n, theta, trig)[i]; v.z == 0.0 && Snapped(v.x) && Snapped(v.y)
  {
    if n > 1 {
      var prev := CircleVertices(n - 1, theta, trig);
      assert CircleVertices(n, theta, trig) == prev + [prev[n - 2].RotatedZ(theta, trig)];
      CircleVerticesShape(n - 1, theta, trig, 0);
      if i < n - 1 {
        CircleVerticesShape(n - 1, theta, trig, i);
        if 0 < i {
          CircleVerticesShape(n - 1, theta, trig, i - 1);
        }
      } else {
        CircleVerticesShape(n - 1, theta, trig, n - 2);
      }
    }
  }

  /** Triangle `k` of the fan over `n` vertices: (0, k+1, k+2), and last the closing (0, n-1, 1). */
  function FanTriangle(n: nat, k: nat): seq<uint32>
    requires 3 <= n < 0x8000_0000 && k < n - 1
  {
    if k < n - 2 then [0, (k + 1) as uint32, (k + 2) as uint32]
    else [0, (n - 1) as uint32, 1]
  }

  function FanTriangles(n: nat): (ts: seq<seq<uint32>>)
    requires 3 <= n < 0x8000_0000
    ensures |ts| == n - 1 && Uniform(ts, 3)
  {
    seq(n - 1, k requires 0 <= k < n - 1 => FanTriangle(n, k))
  }

  /** The whole index list of the fan: n - 2 fan triangles, then the closing one. */
  function FanIndices(n: nat): seq<uint32>
    requires 3 <= n < 0x8000_0000
  {
    Concat(FanTriangles(n))
  }

  /** Triangle `k` of the fan occupies slots 3k .. 3k+2 of the index list. */
  lemma FanIndicesAt(n: nat, k: nat)
    requires 3 <= n < 0x8000_0000 && k < n - 1
    ensures |FanIndices(n)| == 3 * (n - 1)
    ensures 3 * k + 2 < |FanIndices(n)|
    ensures k < n - 2 ==>
      FanIndices(n)[3 * k] == 0 &&
      FanIndices(n)[3 * k + 1] as int == k + 1 &&
      FanIndices(n)[3 * k + 2] as int == k + 2
    ensures k == n - 2 ==>
      FanIndices(n)[3 * k] == 0 &&
      FanIndices(n)[3 * k + 1] as int == n - 1 &&
      FanIndices(n)[3 * k + 2] == 1
  {
    var ts := FanTriangles(n);
    ConcatAt(ts, 3, k, 0);
    ConcatAt(ts, 3, k, 1);
    ConcatAt(ts, 3, k, 2);
  }

  /** Every index of the fan names one of its `n` vertices. */
  lemma FanIndicesBound(n: nat)
    requires 3 <= n < 0x8000_0000
    ensures forall e :: e in FanIndices(n) ==> e as int < n
  {
    var ts := FanTriangles(n);
    forall e | e in FanIndices(n)
      ensures e as int < n
    {
      ConcatMember(ts, e);
    }
  }

  /** Shape geometry that indexes only its own vertices, three indices per triangle. */
  predicate ValidShape(vertices: seq<Vector3>, indices: seq<uint32>)
  {
    |indices| % 3 == 0 && forall e :: e in indices ==> e as int < |vertices|
  }

  /**
   * `RenderCircle(resolution, outVertices, outIndices)`. Both outputs are
   * fully replaced, so they are modelled as results.
   */
  method RenderCircle(resolution: int32, trig: Trig) returns (outVertices: seq<Vector3>, outIndices: seq<uint32>)
    ensures var n := EffectiveResolution(resolution);
      && outVertices == CircleVertices(n, StepAngle(n), trig)
      && outIndices == FanIndices(n)
      && |outIndices| == 3 * (n - 1)
    ensures ValidShape(outVertices, outIndices)
  {
    var res := if resolution as int == MinInt32 then resolution
               else if resolution < 0 then -resolution else resolution;
    if res <= 2 {
      res := 3;
    }
    var n := res as int;
    assert n == EffectiveResolution(resolution);

    var theta := 360.0 / res as real;
    assert theta == StepAngle(n);
    var vertexPos := CirclePositions(n, theta, trig);
    outIndices := FanIndexList(n);
    outVertices := vertexPos[..];
  }

  /** RenderCircle's first loop: vertex 0 is Up, each next one the previous rotated by theta. */
  method CirclePositions(n: nat, theta: real, trig: Trig) returns (vertexPos: array<Vector3>)
    requires 1 <= n
    ensures fresh(vertexPos)
    ensures vertexPos[..] == CircleVertices(n, theta, trig)
  {
    vertexPos := new Vector3[n](_ => Vector3());
    vertexPos[0] := Vector3.Up();
    for i := 1 to n
      invariant vertexPos[..i] == CircleVertices(i, theta, trig)
    {
      vertexPos[i] := vertexPos[i - 1].RotatedZ(theta, trig);
      assert vertexPos[..i + 1] == vertexPos[..i] + [vertexPos[i]];
    }
    assert vertexPos[..] == vertexPos[..n];
  }

  /** RenderCircle's second part: the fan triangles (0, i, i+1), then the closing (0, n-1, 1). */
  method FanIndexList(n: nat) returns (outIndices: seq<uint32>)
    requires 3 <= n < 0x8000_0000
    ensures outIndices == FanIndices(n)
    ensures |outIndices| == 3 * (n - 1)
    ensures forall e :: e in outIndices ==> e as int < n
  {
    outIndices := [];
    for i := 1 to n - 1
      invariant outIndices == Concat(FanTriangles(n)[..i - 1])
    {
      FanPush(n, i, outIndices);
      outIndices := outIndices + [0];
      outIndices := outIndices + [i as uint32];
      outIndices := outIndices + [(i + 1) as uint32];
    }
    FanClose(n, outIndices);
    outIndices := outIndices + [0];
    outIndices := outIndices + [(n - 1) as uint32];
    outIndices := outIndices + [1];
  }

  /** One pass of RenderCircle's fan loop appends triangle (0, i, i+1). */
  lemma FanPush(n: nat, i: nat, acc: seq<uint32>)
    requires 3 <= n < 0x8000_0000 && 1 <= i < n - 1
    requires acc == Concat(FanTriangles(n)[..i - 1])
    ensures acc + [0] + [i as uint32] + [(i + 1) as uint32] == Concat(FanTriangles(n)[..i])
  {
    var ts := FanTriangles(n);
    ConcatSnoc(ts, i - 1);
    assert ts[i - 1] == [0, i as uint32, (i + 1) as uint32];
  }

  /** The closing triangle (0, n-1, 1) completes the fan's index list. */
  lemma FanClose(n: nat, acc: seq<uint32>)
    requires 3 <= n < 0x8000_0000
    requires acc == Concat(FanTriangles(n)[..n - 2])
    ensures var indices := acc + [0] + [(n - 1) as uint32] + [1];
      && indices == FanIndices(n)
      && |indices| == 3 * (n - 1)
      && |indices| % 3 == 0
      && forall e :: e in indices ==> e as int < n
  {
    var ts := FanTriangles(n);
    ConcatSnoc(ts, n - 2);
    assert ts[n - 2] == [0, (n - 1) as uint32, 1];
    assert ts[..n - 1] == ts;
    FanIndicesAt(n, 0);
    FanIndicesBound(n);
    assert (3 * (n - 1)) % 3 == 0;
  }

  /** `ParticleShape`: the geometry every particle instance shares. */
  datatype ParticleShape = ParticleShape(localVertices: seq<Vector3>, indices: seq<uint32>)

  /**
   * The `ParticleShape(resolution = 1)` constructor. A request of 1 (the
   * default), or of anything from -2 to 2, gives the same triangle as 3.
   */
  method NewParticleShape(trig: Trig, resolution: int32 := 1) returns (shape: ParticleShape)
    ensures var n := EffectiveResolution(resolution);
      && shape.localVertices == CircleVertices(n, StepAngle(n), trig)
      && shape.indices == FanIndices(n)
      && |shape.localVertices| == n && |shape.indices| == 3 * (n - 1)
    ensures ValidShape(shape.localVertices, shape.indices)
    ensures -2 <= resolution <= 2 ==> |shape.localVertices| == 3 && shape.indices == [0, 1, 2, 0, 2, 1]
  {
    var localVertices, indices := RenderCircle(resolution, trig);
    shape := ParticleShape(localVertices, indices);
    if -2 <= resolution <= 2 {
      TriangleFan();
    }
  }

  /** The smallest polygon: one fan triangle and the closing triangle over the same three vertices. */
  lemma TriangleFan()
    ensures FanIndices(3) == [0, 1, 2, 0, 2, 1]
  {
    var ts := FanTriangles(3);
    assert ts[0] == [0, 1, 2] && ts[1] == [0, 2, 1];
    ConcatSnoc(ts, 0);
    ConcatSnoc(ts, 1);
    assert ts[..0] == [] && ts[..2] == ts;
  }
}
