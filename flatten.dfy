/**
 * Geometry flattening: the shared shape instanced once per particle into one
 * world-space vertex list and one index list. Particle `p`'s vertices occupy
 * slots [p * V, p * V + V) and its indices are the shape's, offset by p * V.
 */
module Flattening {
  import opened CTypes
  import opened Blocks
  import opened Vectors
  import opened Shape
  import opened ParticleState

  /** The fixed window size and the aspect-ratio correction applied to y. */
  const Width: int := 1280
  const Height: int := 720
  const AspectRatio: real := Width as real / Height as real

  /**
   * A local shape vertex placed at a particle: scaled by the particle's size,
   * y further stretched by AspectRatio, then moved to the particle's position.
   */
  function WorldVertex(p: Particle, local: Vector3): (w: Vector3)
    ensures w.Sub(p.Position) == local.Scale(p.Size).Mul(Vector3(1.0, AspectRatio, 1.0))
  {
    var scaledVertex := local.Scale(p.Size);
    var corrected := scaledVertex.(y := scaledVertex.y * AspectRatio);
    corrected.Add(p.Position)
  }

  function InstanceVertices(p: Particle, local: seq<Vector3>): (vs: seq<Vector3>)
    ensures |vs| == |local|
  {
    seq(|local|, j requires 0 <= j < |local| => WorldVertex(p, local[j]))
  }

  function VertexBlocks(ps: seq<Particle>, local: seq<Vector3>): (bs: seq<seq<Vector3>>)
    ensures |bs| == |ps| && Uniform(bs, |local|)
  {
    seq(|ps|, k requires 0 <= k < |ps| => InstanceVertices(ps[k], local))
  }

  /** Every particle's instance of the shape, in particle order. */
  function ParticleVertices(ps: seq<Particle>, local: seq<Vector3>): seq<Vector3>
  {
    Concat(VertexBlocks(ps, local))
  }

  /** Vertex `j` of particle `k` is at slot `k * V + j`, and there are |ps| * V slots. */
  lemma ParticleVerticesAt(ps: seq<Particle>, local: seq<Vector3>, k: nat, j: nat)
    requires k < |ps| && j < |local|
    ensures |ParticleVertices(ps, local)| == |ps| * |local|
    ensures k * |local| + j < |ParticleVertices(ps, local)|
    ensures ParticleVertices(ps, local)[k * |local| + j] == WorldVertex(ps[k], local[j])
  {
    ConcatAt(VertexBlocks(ps, local), |local|, k, j);
  }

  lemma ParticleVerticesLength(ps: seq<Particle>, local: seq<Vector3>)
    ensures |ParticleVertices(ps, local)| == |ps| * |local|
  {
    ConcatLength(VertexBlocks(ps, local), |local|);
  }

  /**
   * `GenerateParticleVertices(particles, shape, outVertices)`. The output is
   * cleared first, so it is modelled as a result.
   */
  method GenerateParticleVertices(particles: array<Particle>, shape: ParticleShape) returns (outVertices: seq<Vector3>)
    ensures outVertices == ParticleVertices(particles[..], shape.localVertices)
    ensures |outVertices| == particles.Length * |shape.localVertices|
  {
    ghost var blocks := VertexBlocks(particles[..], shape.localVertices);
    outVertices := [];
    for p := 0 to particles.Length
      invariant outVertices == Concat(blocks[..p])
    {
      var particle := particles[p];
      ghost var done := outVertices;
      for j := 0 to |shape.localVertices|
        invariant outVertices == done + blocks[p][..j]
      {
        var localVertex := shape.localVertices[j];
        var scaledVertex := localVertex.Scale(particle.Size);
        scaledVertex := scaledVertex.(y := scaledVertex.y * AspectRatio);
        var worldVertex := scaledVertex.Add(particle.Position);
        outVertices := outVertices + [worldVertex];
        assert blocks[p][..j + 1] == blocks[p][..j] + [worldVertex];
      }
      ConcatSnoc(blocks, p);
      assert blocks[p][..|shape.localVertices|] == blocks[p];
    }
    assert blocks[..particles.Length] == blocks;
    ParticleVerticesLength(particles[..], shape.localVertices);
  }

  /** A shape index offset by `base`, in `GLuint` arithmetic. */
  function InstanceIndex(base: int, index: uint32): (r: uint32)
    ensures base >= 0 && base + index as int < UInt32Modulus ==> r as int == base + index as int
  {
    ToUInt32(base + index as int)
  }

  /** The shape's indices, each offset by `base`. */
  function IndexBlock(base: int, indices: seq<uint32>): (b: seq<uint32>)
    ensures |b| == |indices|
  {
    seq(|indices|, i requires 0 <= i < |indices| => InstanceIndex(base, indices[i]))
  }

  function IndexBlocks(count: nat, verticesPerParticle: nat, indices: seq<uint32>): (bs: seq<seq<uint32>>)
    ensures |bs| == count && Uniform(bs, |indices|)
  {
    seq(count, p requires 0 <= p < count => IndexBlock(p * verticesPerParticle, indices))
  }

  /** The shape's index list repeated for `count` particles, block `p` offset by p * V. */
  function ParticleIndices(count: nat, verticesPerParticle: nat, indices: seq<uint32>): seq<uint32>
  {
    Concat(IndexBlocks(count, verticesPerParticle, indices))
  }

  /**
   * Index `i` of particle `p` is at slot `p * |indices| + i` and equals the
   * shape's index plus p * V; it is exact (no wrap-around) when the shape's
   * index is below V and all count * V vertices are addressable by a GLuint.
   */
  lemma ParticleIndicesAt(count: nat, verticesPerParticle: nat, indices: seq<uint32>, p: nat, i: nat)
    requires p < count && i < |indices|
    ensures |ParticleIndices(count, verticesPerParticle, indices)| == count * |indices|
    ensures p * |indices| + i < |ParticleIndices(count, verticesPerParticle, indices)|
    ensures ParticleIndices(count, verticesPerParticle, indices)[p * |indices| + i]
      == InstanceIndex(p * verticesPerParticle, indices[i])
    ensures (indices[i] as int) < verticesPerParticle && count * verticesPerParticle <= UInt32Modulus ==>
      ParticleIndices(count, verticesPerParticle, indices)[p * |indices| + i] as int
        == p * verticesPerParticle + indices[i] as int
  {
    ConcatAt(IndexBlocks(count, verticesPerParticle, indices), |indices|, p, i);
    if (indices[i] as int) < verticesPerParticle && count * verticesPerParticle <= UInt32Modulus {
      BlockEndBelow(p, count, verticesPerParticle);
    }
  }

  lemma ParticleIndicesLength(count: nat, verticesPerParticle: nat, indices: seq<uint32>)
    ensures |ParticleIndices(count, verticesPerParticle, indices)| == count * |indices|
  {
    ConcatLength(IndexBlocks(count, verticesPerParticle, indices), |indices|);
  }

  /** Offsetting indices below V by `base` stays below `total` when base + V <= total fits a GLuint. */
  lemma IndexBlockBound(base: int, total: int, verticesPerParticle: nat, indices: seq<uint32>, e: uint32)
    requires 0 <= base && base + verticesPerParticle <= total <= UInt32Modulus
    requires forall e :: e in indices ==> (e as int) < verticesPerParticle
    requires e in IndexBlock(base, indices)
    ensures (e as int) < total
  {
    var i :| 0 <= i < |indices| && IndexBlock(base, indices)[i] == e;
    assert indices[i] in indices;
  }

  /**
   * When every shape index names one of its V vertices, every index of the
   * instanced list names one of the count * V vertices. When count * V does
   * not fit a GLuint this holds for any GLuint; otherwise no sum wraps.
   */
  lemma ParticleIndicesBound(count: nat, verticesPerParticle: nat, indices: seq<uint32>)
    requires forall e :: e in indices ==> (e as int) < verticesPerParticle
    ensures forall e :: e in ParticleIndices(count, verticesPerParticle, indices) ==>
      (e as int) < count * verticesPerParticle
  {
    var bs := IndexBlocks(count, verticesPerParticle, indices);
    forall e | e in Concat(bs) && count * verticesPerParticle <= UInt32Modulus
      ensures (e as int) < count * verticesPerParticle
    {
      ConcatMember(bs, e);
      var p :| 0 <= p < count && e in bs[p];
      BlockEndBelow(p, count, verticesPerParticle);
      IndexBlockBound(p * verticesPerParticle, count * verticesPerParticle, verticesPerParticle, indices, e);
    }
  }

  /** The number of particles the index loop runs for: none when the count is negative. */
  function LoopCount(particleCount: int32): nat
  {
    if particleCount < 0 then 0 else particleCount as nat
  }

  /**
   * `GenerateParticleIndices(particleCount, shape, outIndices)`. The output is
   * cleared first, so it is modelled as a result.
   */
  method GenerateParticleIndices(particleCount: int32, shape: ParticleShape) returns (outIndices: seq<uint32>)
    ensures outIndices == ParticleIndices(LoopCount(particleCount), |shape.localVertices|, shape.indices)
    ensures |outIndices| == LoopCount(particleCount) * |shape.indices|
    ensures ValidShape(shape.localVertices, shape.indices) ==>
      forall e :: e in outIndices ==> (e as int) < LoopCount(particleCount) * |shape.localVertices|
  {
    ghost var count := LoopCount(particleCount);
    ghost var blocks := IndexBlocks(count, |shape.localVertices|, shape.indices);
    outIndices := [];
    var verticesPerParticle := |shape.localVertices|;

    var p := 0;
    while p < particleCount as int
      invariant 0 <= p <= count
      invariant outIndices == Concat(blocks[..p])
    {
      var baseIndex := p * verticesPerParticle;
      ghost var done := outIndices;
      for i := 0 to |shape.indices|
        invariant outIndices == done + blocks[p][..i]
      {
        outIndices := outIndices + [ToUInt32(baseIndex + shape.indices[i] as int)];
        assert blocks[p][..i + 1] == blocks[p][..i] + [blocks[p][i]];
      }
      ConcatSnoc(blocks, p);
      assert blocks[p][..|shape.indices|] == blocks[p];
      p := p + 1;
    }
    assert blocks[..count] == blocks;
    ParticleIndicesLength(count, verticesPerParticle, shape.indices);
    if ValidShape(shape.localVertices, shape.indices) {
      ParticleIndicesBound(count, verticesPerParticle, shape.indices);
    }
  }
}
