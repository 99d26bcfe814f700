/**
 * The simulation side of the main loop: the buffers built once at start-up,
 * and the body of one fixed-timestep tick (move, reflect, re-flatten). Window,
 * timing, shader and GPU-buffer calls are outside the model.
 */
module Simulation {
  import opened CTypes
  import opened Blocks
  import opened Vectors
  import opened Shape
  import opened ParticleState
  import opened Flattening

  /** The fixed tick length, in seconds, passed to UpdateParticles. */
  function HostFrameTime(): real { 0.016666666666 }

  /** The number of particles `main` creates: 2^10. */
  const ParticleCount: int32 := 1024

  /** The resolution of the shape `main` builds: a hexagon. */
  const ShapeResolution: int32 := 6

  /** The loop in `main` that copies x, y, z of every vertex into the float list sent to the GPU. */
  method FlattenVertexData(vertices: seq<Vector3>) returns (vertexData: seq<real>)
    ensures vertexData == Components(vertices)
    ensures |vertexData| == 3 * |vertices|
  {
    ghost var triples := Triples(vertices);
    vertexData := [];
    for k := 0 to |vertices|
      invariant vertexData == Concat(triples[..k])
    {
      ConcatSnoc(triples, k);
      var vertex := vertices[k];
      vertexData := vertexData + [vertex.x];
      vertexData := vertexData + [vertex.y];
      vertexData := vertexData + [vertex.z];
    }
    assert triples[..|vertices|] == triples;
    ComponentsLength(vertices);
  }

  /**
   * Start-up: the hexagon shape, ParticleCount particles from the random
   * draws, then the vertex and index lists for every particle and the first
   * float list. The particle vector, mutated by every later tick, becomes a
   * fresh array.
   */
  method InitialBuffers(draws: seq<Draw>, trig: Trig)
    returns (particles: array<Particle>, shape: ParticleShape, particleVertices: seq<Vector3>,
             particleIndices: seq<uint32>, vertexData: seq<real>)
    requires |draws| == ParticleCount as int
    ensures fresh(particles) && particles.Length == ParticleCount as int
    ensures forall i :: 0 <= i < particles.Length ==> particles[i] == Spawned(draws[i])
    ensures shape.localVertices == CircleVertices(6, StepAngle(6), trig) && shape.indices == FanIndices(6)
    ensures |shape.localVertices| == 6 && |shape.indices| == 15
    ensures particleVertices == ParticleVertices(particles[..], shape.localVertices)
    ensures |particleVertices| == 6 * particles.Length
    ensures particleIndices == ParticleIndices(particles.Length, 6, shape.indices)
    ensures |particleIndices| == 15 * particles.Length
    ensures forall e :: e in particleIndices ==> (e as int) < |particleVertices|
    ensures vertexData == Components(particleVertices)
  {
    shape := NewParticleShape(trig, ShapeResolution);
    var created := CreateRandomParticles(ParticleCount, draws);
    particles := new Particle[|created|](i requires 0 <= i < |created| => created[i]);
    particleVertices := GenerateParticleVertices(particles, shape);
    particleIndices := GenerateParticleIndices(ParticleCount, shape);
    vertexData := FlattenVertexData(particleVertices);
  }

  /**
   * One simulation tick: UpdateParticles with the fixed tick length, the
   * boundary check on every particle, then fresh vertex and float lists.
   */
  method SimulationTick(particles: array<Particle>, shape: ParticleShape)
    returns (particleVertices: seq<Vector3>, vertexData: seq<real>)
    modifies particles
    ensures forall i :: 0 <= i < particles.Length ==>
      particles[i] == Reflected(Advanced(old(particles[i]), HostFrameTime()))
    ensures particleVertices == ParticleVertices(particles[..], shape.localVertices)
    ensures |particleVertices| == particles.Length * |shape.localVertices|
    ensures vertexData == Components(particleVertices)
  {
    UpdateParticles(particles, HostFrameTime());
    ApplyBoundaries(particles);
    particleVertices := GenerateParticleVertices(particles, shape);
    vertexData := FlattenVertexData(particleVertices);
  }

  /**
   * The index list is built once, yet stays valid after every tick: a tick
   * keeps the number of particles, so the rebuilt vertex list has the same
   * length and the same slots.
   */
  lemma IndicesStayValid(before: seq<Particle>, after: seq<Particle>, shape: ParticleShape)
    requires |before| == |after|
    requires ValidShape(shape.localVertices, shape.indices)
    ensures forall e :: e in ParticleIndices(|before|, |shape.localVertices|, shape.indices) ==>
      (e as int) < |ParticleVertices(after, shape.localVertices)|
  {
    ParticleIndicesBound(|before|, |shape.localVertices|, shape.indices);
    ParticleVerticesLength(after, shape.localVertices);
  }
}
