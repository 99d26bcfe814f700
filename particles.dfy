/**
 * Particle state: position, velocity, mass and a fixed size, advanced by
 * explicit Euler steps and reflected about zero when a coordinate leaves
 * the normalised range [-1, 1].
 */
module ParticleState {
  import opened CTypes
  import opened Vectors

  /** The fixed on-screen size every particle is given. */
  const ParticleSize: real := 0.005

  /** The struct and its constructor: mass defaults to 1 and every particle gets ParticleSize. */
  datatype Particle = Particle(Position: Vector3, Velocity: Vector3, Mass: real := 1.0, Size: real := ParticleSize)

  /** Position after one Euler step of `deltaTime`; nothing else changes. */
  function Advanced(p: Particle, deltaTime: real): (q: Particle)
    ensures q.Velocity == p.Velocity && q.Mass == p.Mass && q.Size == p.Size
    ensures q.Position.Sub(p.Position) == p.Velocity.Scale(deltaTime)
  {
    p.(Position := p.Position.Add(p.Velocity.Scale(deltaTime)))
  }

  /** A coordinate strictly outside [-1, 1]. */
  predicate OutOfBounds(c: real)
  {
    c > 1.0 || c < -1.0
  }

  /**
   * The `checkBoundaries` rule: x is negated exactly when it lies outside
   * [-1, 1], and independently so is y; z, the velocity, the mass and the
   * size are left alone.
   */
  function Reflected(p: Particle): (q: Particle)
    ensures q.Velocity == p.Velocity && q.Mass == p.Mass && q.Size == p.Size
    ensures q.Position.z == p.Position.z
    ensures Abs(q.Position.x) == Abs(p.Position.x) && Abs(q.Position.y) == Abs(p.Position.y)
    ensures q.Position.x != p.Position.x <==> OutOfBounds(p.Position.x)
    ensures q.Position.y != p.Position.y <==> OutOfBounds(p.Position.y)
  {
    var x := if OutOfBounds(p.Position.x) then -p.Position.x else p.Position.x;
    var y := if OutOfBounds(p.Position.y) then -p.Position.y else p.Position.y;
    p.(Position := p.Position.(x := x, y := y))
  }

  /** Reflecting twice gives back the particle: a reflected coordinate is still out of bounds. */
  lemma ReflectedInvolutive(p: Particle)
    ensures OutOfBounds(p.Position.x) ==> OutOfBounds(Reflected(p).Position.x)
    ensures OutOfBounds(p.Position.y) ==> OutOfBounds(Reflected(p).Position.y)
    ensures Reflected(Reflected(p)) == p
  {
  }

  /** A particle inside the visible square is not touched by the boundary check. */
  lemma ReflectedInside(p: Particle)
    requires -1.0 <= p.Position.x <= 1.0 && -1.0 <= p.Position.y <= 1.0
    ensures Reflected(p) == p
  {
  }

  /**
   * `UpdateParticles(particles, deltaTime)`: every particle moves by its
   * velocity times `deltaTime`; the count and every other field are unchanged.
   */
  method UpdateParticles(particles: array<Particle>, deltaTime: real)
    modifies particles
    ensures forall i :: 0 <= i < particles.Length ==> particles[i] == Advanced(old(particles[i]), deltaTime)
  {
    for i := 0 to particles.Length
      invariant forall k :: 0 <= k < i ==> particles[k] == Advanced(old(particles[k]), deltaTime)
      invariant forall k :: i <= k < particles.Length ==> particles[k] == old(particles[k])
    {
      var particle := particles[i];
      particles[i] := particle.(Position := particle.Position.Add(particle.Velocity.Scale(deltaTime)));
    }
  }

  /** The `checkBoundaries` lambda, applied to the particle at `index`. */
  method CheckBoundaries(particles: array<Particle>, index: nat)
    requires index < particles.Length
    modifies particles
    ensures particles[index] == Reflected(old(particles[index]))
    ensures forall k :: 0 <= k < particles.Length && k != index ==> particles[k] == old(particles[k])
  {
    var p := particles[index];
    if p.Position.x > 1.0 || p.Position.x < -1.0 {
      p := p.(Position := p.Position.(x := -p.Position.x));
    }
    if p.Position.y > 1.0 || p.Position.y < -1.0 {
      p := p.(Position := p.Position.(y := -p.Position.y));
    }
    particles[index] := p;
  }

  /** The main loop's pass of `checkBoundaries` over every particle. */
  method ApplyBoundaries(particles: array<Particle>)
    modifies particles
    ensures forall i :: 0 <= i < particles.Length ==> particles[i] == Reflected(old(particles[i]))
  {
    for i := 0 to particles.Length
      invariant forall k :: 0 <= k < i ==> particles[k] == Reflected(old(particles[k]))
      invariant forall k :: i <= k < particles.Length ==> particles[k] == old(particles[k])
    {
      CheckBoundaries(particles, i);
    }
  }

  /**
   * The four values CreateRandomParticles draws for one particle: x and y of
   * the position from [-0.8, 0.8), x and y of the velocity from [-2, 2).
   */
  datatype Draw = Draw(posX: real, posY: real, velX: real, velY: real)

  predicate DrawInRange(d: Draw)
  {
    -0.8 <= d.posX < 0.8 && -0.8 <= d.posY < 0.8 && -2.0 <= d.velX < 2.0 && -2.0 <= d.velY < 2.0
  }

  /** The particle built from one draw: z = 0 for both vectors, default mass and size. */
  function Spawned(d: Draw): Particle
  {
    Particle(Vector3(d.posX, d.posY, 0.0), Vector3(d.velX, d.velY, 0.0))
  }

  /**
   * `CreateRandomParticles(count)`, with the random draws passed in: one
   * particle per draw, in order, none for a negative count. When the draws
   * are in their ranges every particle starts inside the visible square, so
   * the boundary check leaves it alone.
   */
  method CreateRandomParticles(count: int32, draws: seq<Draw>) returns (particles: seq<Particle>)
    requires |draws| == if count < 0 then 0 else count as int
    ensures |particles| == |draws|
    ensures forall i :: 0 <= i < |particles| ==> particles[i] == Spawned(draws[i])
    ensures forall i :: 0 <= i < |particles| ==>
      particles[i].Position.z == 0.0 && particles[i].Velocity.z == 0.0 &&
      particles[i].Mass == 1.0 && particles[i].Size == ParticleSize
    ensures (forall d :: d in draws ==> DrawInRange(d)) ==>
      forall i :: 0 <= i < |particles| ==> Reflected(particles[i]) == particles[i]
  {
    particles := [];
    var i := 0;
    while i < count as int
      invariant 0 <= i <= |draws|
      invariant |particles| == i
      invariant forall k :: 0 <= k < i ==> particles[k] == Spawned(draws[k])
    {
      var pos := Vector3(draws[i].posX, draws[i].posY, 0.0);
      var vel := Vector3(draws[i].velX, draws[i].velY, 0.0);
      particles := particles + [Particle(pos, vel)];
      i := i + 1;
    }
    if forall d :: d in draws ==> DrawInRange(d) {
      forall k | 0 <= k < |particles|
        ensures Reflected(particles[k]) == particles[k]
      {
        assert draws[k] in draws;
        ReflectedInside(particles[k]);
      }
    }
  }
}
