# Particles: a Dafny model of the particle renderer's geometry and state

The program draws 1024 particles as small hexagons with OpenGL. It does this in four steps:

1. It builds one shared shape, a regular polygon made with `RenderCircle` and held in `ParticleShape`.
2. It instances that shape at every particle's position, with a y-axis aspect-ratio correction. This produces one vertex list (`GenerateParticleVertices`) and one index list, with each particle's indices offset by `p * V` (`GenerateParticleIndices`).
3. On every fixed tick it moves the particles by one Euler step (`UpdateParticles`). It then negates the x or y position coordinate that has left [-1, 1] (the `checkBoundaries` lambda).
4. It flattens the vertex list into floats, three per vertex, for the GPU.

All of this rests on the `Vector3` value type: component-wise arithmetic, exact comparison, the `&&`/`||` truthiness operators, rotation about Z with snap-to-zero, the axis constants, and `ToGLFloatArray`.

The model has one module per concern:

- `Blocks` (`blocks.dfy`): concatenation of equally sized blocks. Every buffer here is built in that layout.
- `CTypes` (`ctypes.dfy`): `int32` and the wrapping `GLuint` as `uint32`.
- `Vectors` (`vector3.dfy`): `Vector3`.
- `Shape` (`shape.dfy`): `RenderCircle` and `ParticleShape`.
- `ParticleState` (`particles.dfy`): particles, the Euler step, the boundary check, and random creation.
- `Flattening` (`flatten.dfy`): vertex and index instancing.
- `Simulation` (`simulation.dfy`): start-up and one tick of `main`.

How the C++ maps to Dafny:

- Code that mutates state stays imperative:
  - the particle vector is an `array<Particle>` updated in place;
  - the caller-supplied float buffer of `ToGLFloatArray` is an `array<real>`;
  - `RenderCircle`'s `vertexPos` is an `array<Vector3>` filled by index.
- Every loop is a `while`/`for` loop, proved against a specification function.
- The specification functions build each buffer block by block (`Concat`). Lemmas give the exact slot of every element, the length, and the bounds.
- Output vectors that the C++ clears or resizes before filling are method results.

Floats are `real`. The trigonometric and square-root functions are parameters that are never interpreted: `Trig` for `sin`/`cos`, and `sqrt`.

## Model

| member | source | states |
|---|---|---|
| Vectors.Snap | Vectors/include/Vector3.cpp:76-77 | a rotated coordinate below 1e-5 in magnitude becomes exactly 0; one at least that large is kept; the result is always zero or at least 1e-5 away from it |
| Vectors.Vector3.Sub | Vectors/include/Vector3.cpp:13-15 | `a - b` undoes `+`: `(a - b) + b == a` |
| Vectors.Vector3.Div | Vectors/include/Vector3.cpp:19-21 | component-wise `a / b` undoes component-wise `*` for a divisor with no zero component |
| Vectors.Vector3.Scale | Vectors/include/Vector3.cpp:23-25 | `v * s` equals the component-wise product with `(s, s, s)` |
| Vectors.Vector3.DivScalar | Vectors/include/Vector3.cpp:26-28 | `v / s` undoes `v * s` for `s != 0` |
| Vectors.ScalarMul | Vectors/include/Vector3.cpp:30-32 | the left form `s * v` equals the right form `v * s` |
| Vectors.ScalarDiv | Vectors/include/Vector3.cpp:33-35 | `(s / v) * v` is `(s, s, s)` when no component of `v` is zero |
| Vectors.Vector3.Magnitude | Vectors/include/Vector3.cpp:37-39 | the magnitude is never negative, whatever `sqrt` returns |
| Vectors.Vector3.Distance | Vectors/include/Vector3.cpp:41-44 | the distance is never negative |
| Vectors.DistanceSymmetric | Vectors/include/Vector3.cpp:41-44 | `Distance(a, b) == Distance(b, a)`, and `Distance(a, a)` is the magnitude of the zero vector |
| Vectors.DistanceTranslationInvariant | Vectors/include/Vector3.cpp:41-44 | moving both points by the same vector leaves their distance unchanged |
| Vectors.Vector3.Inverted | Vectors/include/Vector3.cpp:59-68 | the inverted copy is the additive inverse: `v + v.Inverted()` is the zero vector |
| Vectors.InvertedInvolutive | Vectors/include/Vector3.cpp:59-68 | inverting twice restores the vector, and inverting equals scaling by -1 |
| Vectors.Vector3.RotatedZ | Vectors/include/Vector3.cpp:70-83 | z is unchanged; x and y are both snapped; each equals the counter-clockwise rotation formula at `theta * (pi / 180)` radians when that value is at least the snap epsilon in magnitude, and is 0 exactly when it is below |
| Vectors.AddSubInverse | Vectors/include/Vector3.cpp:10-15 | `operator+` and `operator-` undo each other in either order |
| Vectors.MulDivInverse | Vectors/include/Vector3.cpp:16-21 | component-wise `operator*` and `operator/` undo each other in either order when no component of the divisor is zero |
| Vectors.DotSymmetric | Vectors/include/Vector3.cpp:85-87 | the dot product does not depend on argument order |
| Vectors.Vector3.Equal | Vectors/include/Vector3.cpp:97-99 | `==` holds exactly when the two vectors are identical |
| Vectors.Vector3.NotEqual | Vectors/include/Vector3.cpp:101-103 | `!=` holds exactly when the vectors differ |
| Vectors.Vector3.And | Vectors/include/Vector3.cpp:105-107 | `a && b` holds exactly when all six components are nonzero, and then neither operand is the zero vector |
| Vectors.Vector3.Or | Vectors/include/Vector3.cpp:109-111 | the OR operator holds exactly when the operands are not both the zero vector |
| Vectors.AndSymmetric | Vectors/include/Vector3.cpp:105-111 | the AND operator is symmetric, and AND implies OR |
| Vectors.OrSymmetric | Vectors/include/Vector3.cpp:109-111 | the OR operator is symmetric |
| Vectors.AddCommutative | Vectors/include/Vector3.cpp:10-12 | `a + b == b + a` |
| Vectors.ScaleDistributes | Vectors/include/Vector3.cpp:23-25 | `(a + b) * s == a * s + b * s` |
| Vectors.DefaultComponents | Vectors/include/Vector3.h:11 | the default constructor gives (0, 0, 0), and `Vector3(a, b)` has z = 0 |
| Vectors.DownOpposesUp | Vectors/include/Vector3.h:38-39 | `Down()` is `Up()` inverted |
| Vectors.LeftOpposesRight | Vectors/include/Vector3.h:40-41 | `Left()` is `Right()` inverted |
| Vectors.BackwardOpposesForward | Vectors/include/Vector3.h:42-43 | `Backward()` is `Forward()` inverted |
| Vectors.Vector3.ToGLFloatArray | Vectors/include/Vector3.h:46-50 | slots 0..2 of the array become (x, y, z), and every later slot is untouched |
| Vectors.ToGLFloatArray | Vectors/include/Vector3.h:53-58 | for `m` vectors, the first `3m` slots become their flattened components, and every later slot is untouched |
| Vectors.ComponentsAt | Vectors/include/Vector3.h:53-58 | in the flattened list, vector `i` sits at slots `3i`, `3i+1`, `3i+2` as x, y, z, and the list has three floats per vector |
| Vectors.ComponentsLength | Vectors/include/Vector3.h:53-58 | the flattened list has three floats per vector |
| CTypes.ToUInt32 | Particles.cpp:112 | conversion to `GLuint` is exact in [0, 2^32) and otherwise wraps modulo 2^32 |
| Shape.EffectiveResolution | Particles.cpp:30-31 | the resolution used is the absolute value of the request, raised to 3 when at most 2; it is always in [3, 2^31); for `INT_MIN`, where `abs` is undefined, the model takes the two's-complement value and so yields 3 |
| Shape.CircleVertices | Particles.cpp:33-43 | the polygon has exactly `n` vertices |
| Shape.CircleVerticesShape | Particles.cpp:33-43 | vertex 0 is `Up()`; each later vertex is its predecessor rotated by `theta`; every vertex has z = 0 and snapped x and y |
| Shape.FanTriangles | Particles.cpp:48-58 | the fan has `n - 1` triangles of three indices each |
| Shape.FanIndicesAt | Particles.cpp:48-58 | the list has `3(n-1)` indices; triangle `k < n-2` is (0, k+1, k+2), and the last is (0, n-1, 1) |
| Shape.FanIndicesBound | Particles.cpp:48-58 | every fan index is below `n` |
| Shape.CirclePositions | Particles.cpp:33-43 | the fresh vertex array holds exactly the polygon's vertices |
| Shape.FanPush | Particles.cpp:48-52 | one pass of the fan loop appends triangle (0, i, i+1) to the list built so far |
| Shape.FanClose | Particles.cpp:54-58 | appending (0, n-1, 1) completes the fan: `3(n-1)` indices, a multiple of three, all below `n` |
| Shape.FanIndexList | Particles.cpp:45-58 | the index list built from empty is exactly the fan, with `3(n-1)` indices, all below `n` |
| Shape.RenderCircle | Particles.cpp:29-64 | both outputs are replaced: the vertices are the polygon at the effective resolution with step 360/n degrees; the indices are its fan, `3(n-1)` of them; the result is a valid shape |
| Shape.NewParticleShape | Particles.cpp:72-74 | the shape is `RenderCircle` at the requested resolution, with n vertices, `3(n-1)` indices, all valid; any resolution in [-2, 2], including the default 1, gives a triangle with indices [0, 1, 2, 0, 2, 1] |
| Shape.TriangleFan | Particles.cpp:48-58 | the fan over three vertices is (0, 1, 2) then (0, 2, 1) |
| ParticleState.Advanced | Particles.cpp:78-82 | one Euler step moves the position by `velocity * dt` and changes no other field |
| ParticleState.UpdateParticles | Particles.cpp:78-82 | every particle in the array takes one Euler step; the count is unchanged |
| ParticleState.Reflected | Particles.cpp:224-232 | x changes exactly when it is strictly outside [-1, 1], and then only its sign flips; y likewise, independently; z, velocity, mass and size never change |
| ParticleState.ReflectedInvolutive | Particles.cpp:224-232 | a negated coordinate is still outside [-1, 1], so one check never brings a particle back in; a second check undoes the first |
| ParticleState.ReflectedInside | Particles.cpp:224-232 | a particle inside the square, borders included, is untouched |
| ParticleState.CheckBoundaries | Particles.cpp:224-232 | the particle at `index` is reflected in place, and no other particle changes |
| ParticleState.ApplyBoundaries | Particles.cpp:254-256 | every particle of the array is reflected in place |
| ParticleState.CreateRandomParticles | Particles.cpp:118-137 | one particle per draw, in order: z = 0 for position and velocity, mass 1, the fixed size; when the draws are in range, the boundary check leaves every new particle alone |
| Flattening.WorldVertex | Particles.cpp:94-97 | the world vertex minus the particle's position is the local vertex scaled by the particle's size, with y also multiplied by the aspect ratio |
| Flattening.InstanceVertices | Particles.cpp:91-99 | one world vertex per shape vertex |
| Flattening.ParticleVerticesAt | Particles.cpp:85-101 | with V shape vertices, the list has V per particle, and vertex `j` of particle `k` is at slot `k*V + j` as that particle's world vertex |
| Flattening.ParticleVerticesLength | Particles.cpp:85-101 | the vertex list has V entries per particle |
| Flattening.GenerateParticleVertices | Particles.cpp:85-101 | the output, rebuilt from empty, is the instanced vertex list in particle order, V vertices per particle |
| Flattening.InstanceIndex | Particles.cpp:109-112 | `baseIndex + index` is exact when it fits a `GLuint` |
| Flattening.ParticleIndicesAt | Particles.cpp:104-115 | for a shape index list `I` of length `L`, index `i` of particle `p` is at slot `p*L + i`; it equals `p*V + I[i]` when `I[i] < V` and `count * V` fits a `GLuint` |
| Flattening.ParticleIndicesLength | Particles.cpp:104-115 | the index list has the shape's index count once per particle |
| Flattening.IndexBlockBound | Particles.cpp:109-112 | offsetting indices below V by a base with `base + V <= total` keeps them below `total` |
| Flattening.ParticleIndicesBound | Particles.cpp:104-115 | if every shape index is below V, every instanced index is below `count * V` (a wrapped index is below 2^32, so the bound holds even when `count * V` does not fit a `GLuint`) |
| Flattening.GenerateParticleIndices | Particles.cpp:104-115 | the output, rebuilt from empty, is the instanced index list; it has the shape's index count once per particle, none for a negative count; for a valid shape every entry names one of the `count * V` vertices |
| Simulation.FlattenVertexData | Particles.cpp:263-267 | the float list is x, y, z of every vertex in order, three floats per vertex; the start-up loop at lines 195-199 is the same |
| Simulation.InitialBuffers | Particles.cpp:141-153 | start-up produces exactly the 6-step circle and its triangle fan (6 vertices, 15 indices), 1024 particles from the draws, their vertex and index lists, and the first float list; every index names an existing vertex |
| Simulation.SimulationTick | Particles.cpp:249-267 | a tick leaves every particle reflected after one Euler step of `HOST_FRAMTETIME`, then rebuilds the vertex list and the float list from the new particles |
| Simulation.IndicesStayValid | Particles.cpp:249-277 | the index list built once at start-up stays valid for the vertex list of every later tick, since a tick keeps the particle count |

## Left out

- Floating point: components are `real`, so rounding, overflow to infinity, NaN and negative zero are not modelled. `float` and `double` are not distinguished. `M_PI`, the snap threshold `1e-5f`, `ASPECT_RATIO` and `HOST_FRAMTETIME` are their exact decimal or rational values.
- Vectors.Vector3.Div, Vectors.Vector3.DivScalar, Vectors.ScalarDiv: they require nonzero divisors. Division by zero in the C++ gives infinities or NaN, which `real` cannot represent.
- Vectors.Vector3.Magnitude, Vectors.Vector3.Distance: these state only non-negativity and symmetry. `sqrt` is a parameter that is never interpreted, so no numeric value is claimed.
- Vectors.Vector3.RotatedZ: this states which formula each coordinate takes, but not the values of `sin` and `cos`. No claim is made that n rotations by 360/n degrees return to the start.
- `Normalize`, `Normalized` and `AngleBetween` (`sqrt`, `acos`, division by a magnitude that may be zero) are not modelled. Neither is `operator<<` (stream output).
- Shape.EffectiveResolution: `abs(INT_MIN)` is undefined behaviour in C++, and an optimiser may fold the `<= 2` test away and pass `INT_MIN` on as the vertex count. The model instead takes the two's-complement value `INT_MIN`, which the test then raises to 3.
- `Invert` and `RotateZ` mutate a `Vector3` in place. Because `Vector3` is a value type, they are modelled by the copies `Inverted` and `RotatedZ`: `v.Invert()` is `v := v.Inverted()`.
- The randomness of `CreateRandomParticles`: `random_device` and `mt19937` become a caller-supplied list of draws.
- All of `main` that touches GLFW, GLEW or OpenGL is not modelled: the window, the shader, the VAO/VBO/EBO set-up and update, drawing and buffer swapping. `VBO.h` and `shaderClass.h` are not part of this model. Neither are the wall-clock timing and the frame counter. `SimulationTick` is the body that runs once the elapsed time reaches `HOST_FRAMTETIME`.
- Flattening.GenerateParticleIndices: `p * verticesPerParticle` in `int` would be signed overflow (undefined behaviour) beyond 2^31. The model computes it exactly and wraps only the sum converted to `GLuint`. The `size_t` to `int` narrowing of the vertex count is not modelled.
- Output parameters: a `vector&` that the C++ clears or resizes before filling is a method result. Capacity and reallocation are not modelled.
- `ParticleShape`'s constructor is `NewParticleShape`. The `Particle` constructor is the datatype's constructor with default mass and size.
