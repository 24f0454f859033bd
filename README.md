# Particles in a box: a Dafny model

*particles-in-box* is a JavaFX application that simulates hard disc particles in a
rectangular box. A barrier with a hole splits the box into two halves.

**Simulation.** A `Simulator` scatters `left + right` particles and then steps time.
- It packs the particles into the two halves by rejection sampling. Left particles
  get ids `2i` and right particles `2i + 1`.
- Each step copies and moves every particle and sorts the copies by height.
- It resolves colliding pairs with a sweep over the sorted array.
- It reflects particles off the walls, the barrier faces and the hole edges.

**Files.** A `SimulationWriter` runs the simulation for the configured number of
minutes and saves one frame per sampling window.
- The file is a 72-byte header (the eighteen settings, big-endian), then fixed-size
  frames.
- A frame is a `long` time, then per particle an `int` id and four `double`s.
- An `ExperimentLoader` reads the header back and derives the frame size and the
  number of frames. It then reads any frame by index.

**Playback.** The `DemonstrationController` plays a saved file back.
- It shows one state at a time, on a timer or from a slider.
- It classifies particles by side of the barrier and by type: even id is first type,
  odd id is second type.
- It keeps histograms of speeds (Maxwell) and heights (Boltzmann).
- It plots side counts over sampled frames.

## How the model is built

- **Values and objects.**
  - Values are datatypes: `ParticleState`, `ExperimentSettings`, `StateSnapshot`,
    the file's `FrameRecord`.
  - Objects the program updates in place are classes: `Particle`, both builders,
    `ExperimentState`, `Simulator`, the byte streams, `ExperimentLoader`,
    `DemonstrationController`.
  - Arrays of particles stay `array<Particle>`. The sort works on that array in place.
- **Numbers.**
  - `int` and `long` are `int32` and `int64`. Wrap-around is written out where the
    code overflows: `Wrap32`, `Wrap64`, and the 32-bit file offset.
  - `float` settings are their raw binary32 words. So the header codec, `equals`
    (which is `Float.compare`) and `hashCode` are bit-exact.
  - `double` coordinates are `real`. A float setting is read as a real through its
    IEEE 754 value.
- **Numerics and randomness kept abstract.**
  - The collision response (sin, cos and `sqrt(1 - speedLoss)`) is the
    `CollisionModel` parameter.
  - `Math.cos`/`Math.sin` of the start angles are parameters.
  - `Random.nextDouble` is a supplied stream of draws in `[0, 1)`.
  - `Simulator.calculateTimeStep` is a parameter returning a positive step.
  - `Double.doubleToLongBits` is a parameter `doubleBits`.
- **Files.** A file is a `seq<byte>`. `ByteSink` models the method calls of
  `DataOutputStream` and `ByteSource` those of `RandomAccessFile`.
- **Names in the code that disagree.** Every builder call in `ExperimentLoader.java`
  (lines 60-73 and 116-119) and in the tests drops the `set` prefix of the builder
  methods: `.particleCount(...)`, `.initialSpeed(...)` … `.seed(...)`, and
  `.id(...)`, `.position(...)`, `.velocity(...)` of `Particle.Builder`. Each is
  read as the `set…` method of that name. `.duration(...)` and `getDuration` are
  read as the settings' `length` setter and accessor. `setPosition` at `Simulator.java:171,233`
  is read as `Particle.move`.
- **Where the code and its tests or comments disagree, the model follows the code.**
  - `nextTimeStep` calls `move(deltaTime, g)`, which *sets* the position to
    `(deltaTime, g)`. `MovedAll` keeps that. The test that expects `dt = 0` to leave
    particles unchanged is therefore not a property here.
  - The hole bounds use `boxWidth / 2` where `barrierWidth / 2` looks intended.
  - The right and bottom hole particle bounds subtract the radius where adding it
    looks intended.
  - `Geometry.BoundsOf` keeps both slips literally. Its contract states the hole band as
    `barrierPosX ± boxWidth / 2`, and each of the four hole particle bounds as the hole
    bound minus the radius.

Source paths below are relative to the repository root.

## Model

| member | source | states |
|---|---|---|
| JavaTypes.FloorDiv | src/main/java/eu/mivrenik/particles/io/SimulationWriter.java:28 | `Math.floorDiv`: the quotient rounded towards minus infinity, `q·b ≤ a < (q+1)·b` for `b > 0` (reversed for `b < 0`) |
| JavaTypes.Wrap64 | src/main/java/eu/mivrenik/particles/model/Simulator.java:239 | `long` addition: congruent to the exact sum modulo 2^64, and equal to it when it fits |
| Ieee.FloatToIntBits | src/main/java/eu/mivrenik/particles/io/SimulationWriter.java:37 | `Float.floatToIntBits` keeps every non-NaN word and maps NaN to NaN |
| Ieee.FloatCompareEquivalence | src/main/java/eu/mivrenik/particles/model/ExperimentSettings.java:186-201 | `Float.compare(a, b) == 0` is reflexive, symmetric and transitive |
| Ieee.FloatCompareEqualIsBitEquality | src/main/java/eu/mivrenik/particles/model/ExperimentSettings.java:186-201 | for a non-NaN float, `Float.compare` equality is equality of the words |
| Ieee.DoubleWordOfLong | src/main/java/eu/mivrenik/particles/model/SimulationWriter.java:48 | the binary64 word of a whole number `1 ≤ t < 2^53` has a biased exponent of at least 1023; the word of 0 is 0 |
| DataStream.BigEndianRoundTrip | src/main/java/eu/mivrenik/particles/io/SimulationWriter.java:35-52 | a number below 256^k reads back from its k bytes, high byte first |
| DataStream.Int32RoundTrip | src/main/java/eu/mivrenik/particles/io/ExperimentLoader.java:42 | `readInt` of the four bytes of `writeInt(x)` is `x`, negative values included |
| DataStream.Int64RoundTrip | src/main/java/eu/mivrenik/particles/io/ExperimentLoader.java:112 | `readLong` of the eight bytes of `writeLong(x)` is `x` |
| DataStream.FloatRoundTrip | src/main/java/eu/mivrenik/particles/io/ExperimentLoader.java:44 | `readFloat` after `writeFloat(w)` gives `floatToIntBits(w)`: `Float.compare`-equal to `w`, and `w` itself unless it is NaN |
| DataStream.Word64RoundTrip | src/main/java/eu/mivrenik/particles/io/ExperimentLoader.java:118 | `readDouble` after `writeDouble` gives back the 64-bit word |
| Streams.ByteSink.constructor | src/main/java/eu/mivrenik/particles/io/SimulationWriter.java:33 | a new output stream has written nothing |
| Streams.ByteSink.WriteInt | src/main/java/eu/mivrenik/particles/io/SimulationWriter.java:35 | appends exactly the four big-endian two's-complement bytes of the `int` |
| Streams.ByteSink.WriteLong | src/main/java/eu/mivrenik/particles/io/SimulationWriter.java:56 | appends exactly the eight bytes of the `long` |
| Streams.ByteSink.WriteFloat | src/main/java/eu/mivrenik/particles/io/SimulationWriter.java:37 | appends the four bytes of `floatToIntBits` of the float |
| Streams.ByteSink.WriteDouble | src/main/java/eu/mivrenik/particles/io/SimulationWriter.java:59 | appends the eight bytes of the double's word |
| Streams.ByteSource.constructor | src/main/java/eu/mivrenik/particles/io/ExperimentLoader.java:79 | a file opens with the cursor at 0 |
| Streams.ByteSource.Seek | src/main/java/eu/mivrenik/particles/io/ExperimentLoader.java:110 | `seek(p)` puts the cursor at `p`; a negative offset throws `IOException` and leaves the cursor |
| Streams.ByteSource.ReadInt | src/main/java/eu/mivrenik/particles/io/ExperimentLoader.java:42 | with four bytes left: the `int` they encode, and the cursor moves 4; else `EOFException` |
| Streams.ByteSource.ReadLong | src/main/java/eu/mivrenik/particles/io/ExperimentLoader.java:112 | with eight bytes left: the `long` they encode, cursor moves 8; else `EOFException` |
| Streams.ByteSource.ReadFloat | src/main/java/eu/mivrenik/particles/io/ExperimentLoader.java:44 | with four bytes left: the word they encode, cursor moves 4; else `EOFException` |
| Streams.ByteSource.ReadDouble | src/main/java/eu/mivrenik/particles/io/ExperimentLoader.java:118 | with eight bytes left: the word they encode, cursor moves 8; else `EOFException` |
| Particles.ParticleState.DistanceSquared | src/main/java/eu/mivrenik/particles/model/Particle.java:97-102 | the squared distance is non-negative, zero exactly when the positions coincide |
| Particles.ParticleState.SpeedSquared | src/main/java/eu/mivrenik/particles/model/Particle.java:93-95 | the squared speed is non-negative |
| Particles.DistanceSymmetric | src/test/java/eu/mivrenik/particles/model/ParticleTest.java:172-178 | the distance from p to q is the distance from q to p |
| Particles.DistanceZero | src/test/java/eu/mivrenik/particles/model/ParticleTest.java:165-189 | the distance is positive iff the coordinates differ; a particle is at distance 0 from itself |
| Particles.DistanceOfScaledCopy | src/test/java/eu/mivrenik/particles/model/ParticleTest.java:152-163 | the squared distance to the copy at `(c·x, c·y)` is `(c - 1)²·(x² + y²)` |
| Particles.OverlapsIffDistanceBelowDiameter | src/main/java/eu/mivrenik/particles/model/Particle.java:122-124 | `overlaps(o, r)` holds iff the distance is below `2r` |
| Particles.OverlapsSymmetric | src/test/java/eu/mivrenik/particles/model/ParticleTest.java:199-205 | overlap is symmetric |
| Particles.OverlapsItself | src/test/java/eu/mivrenik/particles/model/ParticleTest.java:239-244 | a particle overlaps itself iff `r > 0` |
| Particles.DiagonalOffsetOverlap | src/test/java/eu/mivrenik/particles/model/ParticleTest.java:207-237 | offset by `√2·c·r` on both axes, the distance is `2cr`: overlap iff `c < 1` |
| Particles.HorizontalGapSeparates | src/main/java/eu/mivrenik/particles/model/Particle.java:122-124 | particles at least `2r` apart in x do not overlap |
| Particles.ApproachesSymmetric | src/main/java/eu/mivrenik/particles/model/Particle.java:104-120 | when the particles differ in both x and y, `p.approaches(q)` iff `q.approaches(p)` |
| Particles.ApproachesAsymmetricOnTie | src/main/java/eu/mivrenik/particles/model/Particle.java:104-120 | with equal x, a concrete pair where `approaches` holds one way and not the other |
| Particles.EqualsIsValueEquality | src/main/java/eu/mivrenik/particles/model/Particle.java:126-139 | `equals` is equality of id, position and velocity; different ids are never equal |
| Particles.Particle.constructor | src/main/java/eu/mivrenik/particles/model/Particle.java:35-45 | the new particle holds exactly the given id, position and velocity |
| Particles.Particle.Copy | src/main/java/eu/mivrenik/particles/model/Particle.java:47-53 | the copy has every field of the source and is `equals` to it |
| Particles.Particle.Move | src/main/java/eu/mivrenik/particles/model/Particle.java:79-84 | sets the position exactly, keeps id and velocity, returns the same object |
| Particles.Particle.SetVelocity | src/main/java/eu/mivrenik/particles/model/Particle.java:86-91 | sets the velocity exactly, keeps id and position, returns the same object |
| Settings.ExperimentSettings.ParticleCount | src/main/java/eu/mivrenik/particles/model/ExperimentSettings.java:109-111 | `left + right`, wrapped to 32 bits (the exact sum when it fits) |
| Settings.FloatHash | src/main/java/eu/mivrenik/particles/model/ExperimentSettings.java:209 | either zero hashes to 0; any other float hashes to its `floatToIntBits` as an `int` |
| Settings.FloatHashRespectsCompare | src/main/java/eu/mivrenik/particles/model/ExperimentSettings.java:205-226 | floats that `Float.compare` calls equal have the same hash term |
| Settings.EqualsReflexive | src/main/java/eu/mivrenik/particles/model/ExperimentSettings.java:177-203 | `equals` over the 18 fields is reflexive |
| Settings.EqualsSymmetric | src/main/java/eu/mivrenik/particles/model/ExperimentSettings.java:177-203 | `equals` is symmetric |
| Settings.EqualsTransitive | src/main/java/eu/mivrenik/particles/model/ExperimentSettings.java:177-203 | `equals` is transitive |
| Settings.EqualsImpliesSameHashCode | src/main/java/eu/mivrenik/particles/model/ExperimentSettings.java:205-226 | equal settings have equal `hashCode` |
| Settings.EqualsIsWordEquality | src/main/java/eu/mivrenik/particles/model/ExperimentSettings.java:177-203 | with no NaN field, `equals` is equality of all 18 fields |
| Settings.Builder.constructor | src/main/java/eu/mivrenik/particles/model/ExperimentSettings.java:232-250 | a new builder builds all-zero settings |
| Settings.Builder.Build | src/main/java/eu/mivrenik/particles/model/ExperimentSettings.java:330-332 | `build()` copies every builder field unchanged into the settings |
| Settings.Builder.SetParticleCount | src/main/java/eu/mivrenik/particles/model/ExperimentSettings.java:252-257 | sets both counts, nothing else, returns the builder |
| Settings.Builder.SetInitialSpeed | src/main/java/eu/mivrenik/particles/model/ExperimentSettings.java:259-263 | sets the initial speed only |
| Settings.Builder.SetBoxSize | src/main/java/eu/mivrenik/particles/model/ExperimentSettings.java:265-270 | sets width and height only |
| Settings.Builder.SetSpeedDelta | src/main/java/eu/mivrenik/particles/model/ExperimentSettings.java:272-278 | sets top, sides and bottom in argument order, nothing else |
| Settings.Builder.SetBarrier | src/main/java/eu/mivrenik/particles/model/ExperimentSettings.java:280-285 | sets barrier position and width only |
| Settings.Builder.SetHole | src/main/java/eu/mivrenik/particles/model/ExperimentSettings.java:287-292 | sets hole position and height only |
| Settings.Builder.SetSpeedLoss | src/main/java/eu/mivrenik/particles/model/ExperimentSettings.java:294-298 | sets the speed loss only |
| Settings.Builder.SetParticleRadius | src/main/java/eu/mivrenik/particles/model/ExperimentSettings.java:300-304 | sets the radius only |
| Settings.Builder.SetG | src/main/java/eu/mivrenik/particles/model/ExperimentSettings.java:306-310 | sets `g` only |
| Settings.Builder.SetFps | src/main/java/eu/mivrenik/particles/model/ExperimentSettings.java:312-316 | sets `fps` only |
| Settings.Builder.SetLength | src/main/java/eu/mivrenik/particles/model/ExperimentSettings.java:318-322 | sets the run length in minutes only |
| Settings.Builder.SetSeed | src/main/java/eu/mivrenik/particles/model/ExperimentSettings.java:324-328 | sets the seed only |
| States.ExperimentState.constructor | src/main/java/eu/mivrenik/particles/model/ExperimentState.java:32-36 | the state holds exactly the given settings, array and time; `time` is a constant |
| States.ExperimentState.GetParticles | src/main/java/eu/mivrenik/particles/model/ExperimentState.java:42-44 | returns the internal array itself, not a copy |
| States.EqualsIsSnapshotEquality | src/main/java/eu/mivrenik/particles/model/ExperimentState.java:50-61 | `equals` holds iff the settings are `equals` and time and the particles (element-wise) agree |
| States.Builder.constructor | src/main/java/eu/mivrenik/particles/model/ExperimentState.java:75-78 | a new builder has no settings, no array and time 0 |
| States.Builder.SetParticles | src/main/java/eu/mivrenik/particles/model/ExperimentState.java:80-84 | sets the array only, returns the builder |
| States.Builder.SetSettings | src/main/java/eu/mivrenik/particles/model/ExperimentState.java:86-90 | sets the settings only |
| States.Builder.SetTime | src/main/java/eu/mivrenik/particles/model/ExperimentState.java:92-96 | sets the time only |
| States.Builder.Build | src/main/java/eu/mivrenik/particles/model/ExperimentState.java:98-100 | the new state holds exactly the builder's settings, array and time |
| Geometry.BoundsOf | src/main/java/eu/mivrenik/particles/model/Simulator.java:117-133 | the particle bounds of the box; the hole band is `barrierPosX ± boxWidth / 2` and the hole `holeHeight` high around `holePosY`; all four hole particle bounds are the hole bounds minus the radius, as written |
| Geometry.TopBottom | src/main/java/eu/mivrenik/particles/model/Simulator.java:190-198 | the top/bottom rules change only y and vY |
| Geometry.GeometryStep | src/main/java/eu/mivrenik/particles/model/Simulator.java:184-233 | the table keeps the id |
| Geometry.UntouchedParticleUnchanged | src/main/java/eu/mivrenik/particles/model/Simulator.java:190-233 | a particle meeting no condition keeps position and velocity |
| Geometry.TopWallReflects | src/main/java/eu/mivrenik/particles/model/Simulator.java:190-193 | above the top bound moving up: `y := H - r`, `vY := -vY - deltaTop`, so `vY < 0` when `deltaTop ≥ 0` |
| Geometry.BottomWallReflects | src/main/java/eu/mivrenik/particles/model/Simulator.java:194-197 | below the bottom bound moving down: `y := r`, `vY := -vY + deltaBottom > 0` |
| Geometry.LeftWallReflects | src/main/java/eu/mivrenik/particles/model/Simulator.java:200-203 | left of the left bound moving left: `x := r`, `vX := -vX + deltaSides > 0`, y as the top/bottom rules left it |
| Geometry.RightWallReflects | src/main/java/eu/mivrenik/particles/model/Simulator.java:204-207 | right of the right bound moving right: `x := W - r`, `vX := -vX - deltaSides < 0` |
| Geometry.HoleTopReflects | src/main/java/eu/mivrenik/particles/model/Simulator.java:211-214 | inside the hole, above its top moving up: put on the bound, vY reversed and reduced |
| Geometry.HoleBottomReflects | src/main/java/eu/mivrenik/particles/model/Simulator.java:215-218 | inside the hole, below its bottom moving down: put on the bound, vY reversed and raised |
| Geometry.BarrierLeftFaceReflects | src/main/java/eu/mivrenik/particles/model/Simulator.java:222-224 | beside the barrier, off the hole, left of it moving right: put on the left face, sent back |
| Geometry.BarrierRightFaceReflects | src/main/java/eu/mivrenik/particles/model/Simulator.java:225-228 | the same from the right |
| Collisions.Resolve | src/main/java/eu/mivrenik/particles/model/Simulator.java:149-178 | a resolved pair changes only the two slots and keeps their ids; only the particle `dY` picks is moved |
| Collisions.ScanRow | src/main/java/eu/mivrenik/particles/model/Simulator.java:145-180 | the inner loop for i keeps every id and touches only i and slots `j..n-1` |
| Collisions.ScanFrom | src/main/java/eu/mivrenik/particles/model/Simulator.java:144-181 | the pair loops keep every id and leave slots past `particlesNum` alone |
| Collisions.SeparatedParticlesUnchanged | src/main/java/eu/mivrenik/particles/model/Simulator.java:144-181 | when no pair both overlaps and approaches, the pair pass changes nothing |
| Collisions.VerticalGapSeparates | src/main/java/eu/mivrenik/particles/model/Simulator.java:146 | more than `2r` apart in y: no overlap |
| Collisions.BreakSkipsNoOverlap | src/main/java/eu/mivrenik/particles/model/Simulator.java:146 | on a height-sorted array, the `break` skips only particles that cannot overlap i |
| Collisions.CollidingPairDistinctPlaces | src/main/java/eu/mivrenik/particles/model/Simulator.java:147-148 | a pair resolved needs `r > 0` and particles differing in position or x-velocity |
| Simulation.DrawInRange | src/main/java/eu/mivrenik/particles/model/Simulator.java:14-16 | a draw in `[0, 1)` scaled to `[lo, hi)` lies in that range |
| Simulation.AssignedIdsDistinct | src/main/java/eu/mivrenik/particles/model/Simulator.java:55-84 | ids `2i` (left) and `2i + 1` (right) are distinct, even on the left, odd on the right |
| Simulation.HalvesNeverOverlap | src/main/java/eu/mivrenik/particles/model/Simulator.java:35-68 | with `barrierWidth ≥ 0`, a left-drawn and a right-drawn particle never overlap |
| Simulation.PackedIdsAndHalves | src/main/java/eu/mivrenik/particles/model/Simulator.java:30-86 | in a packed distribution ids are pairwise distinct and no two particles overlap |
| Simulation.AsWrittenTouching | src/main/java/eu/mivrenik/particles/model/Simulator.java:41-46 | the overlap loop as written, `particles[i].overlaps(particles[j])`, reports touching only once slot i is filled |
| Simulation.AsWrittenTouchingThrows | src/main/java/eu/mivrenik/particles/model/Simulator.java:42 | with slot i still empty and a j to test, the check throws `NullPointerException` |
| Simulation.AsWrittenTwoLeftParticlesThrow | src/main/java/eu/mivrenik/particles/model/Simulator.java:42 | concretely: the second left particle's first check throws |
| Simulation.MovedAll | src/main/java/eu/mivrenik/particles/model/Simulator.java:136-138 | every copy has its position set to `(deltaTime, g)`; id and velocity kept |
| Simulation.GeometryAll | src/main/java/eu/mivrenik/particles/model/Simulator.java:184-234 | the geometry table applied to each particle, in place |
| Simulation.PermutationKeepsIds | src/main/java/eu/mivrenik/particles/model/Simulator.java:141-142 | reordering particles keeps the multiset of ids |
| Simulation.StepKeepsIds | src/main/java/eu/mivrenik/particles/model/Simulator.java:136-234 | move, sort, pair pass and geometry together keep the multiset of ids |
| Simulation.CopyAndMove | src/main/java/eu/mivrenik/particles/model/Simulator.java:115-138 | a fresh array of fresh copies, each moved; the input is untouched |
| Simulation.SortByY | src/main/java/eu/mivrenik/particles/model/Simulator.java:141-142 | the array is a permutation of its old contents, non-decreasing in posY |
| Simulation.ScanPairs | src/main/java/eu/mivrenik/particles/model/Simulator.java:144-181 | the nested loops leave the array's references and change the particles as `PairScan` says |
| Simulation.ScanRowOf | src/main/java/eu/mivrenik/particles/model/Simulator.java:145-180 | the inner loop for one i, as `ScanRow` |
| Simulation.ScanColumn | src/main/java/eu/mivrenik/particles/model/Simulator.java:146-178 | one column: the break when `j` is more than `2r` above `i` leaves `ScanRow` unchanged, otherwise the pair is resolved when it collides and the scan goes on at `j + 1` |
| Simulation.ResolvePair | src/main/java/eu/mivrenik/particles/model/Simulator.java:147-178 | one pair update, as `Resolve` |
| Simulation.Reflect | src/main/java/eu/mivrenik/particles/model/Simulator.java:185-233 | one particle's geometry update, as `GeometryStep` |
| Simulation.TopBottomBranches | src/main/java/eu/mivrenik/particles/model/Simulator.java:190-198 | the local `y, vY` after the top/bottom branches are those of `TopBottom` |
| Simulation.SideBranches | src/main/java/eu/mivrenik/particles/model/Simulator.java:200-231 | the locals after the side, hole and barrier branches are those of `SidesAndBarrier` |
| Simulation.ReflectAll | src/main/java/eu/mivrenik/particles/model/Simulator.java:184-234 | the geometry loop, as `GeometryAll` |
| Simulation.MoveAndSort | src/main/java/eu/mivrenik/particles/model/Simulator.java:136-142 | fresh sorted copies, a permutation of the moved particles |
| Simulation.Advance | src/main/java/eu/mivrenik/particles/model/Simulator.java:136-234 | the whole step's new particles are `GeometryAll(PairScan(sorted moved copies))` |
| Simulation.ScanAndReflect | src/main/java/eu/mivrenik/particles/model/Simulator.java:144-234 | pair pass then geometry pass |
| Simulation.Simulator.constructor | src/main/java/eu/mivrenik/particles/model/Simulator.java:10-12 | the simulator keeps the settings and the draw stream, with no draw used yet |
| Simulation.Simulator.GenerateDouble | src/main/java/eu/mivrenik/particles/model/Simulator.java:14-16 | uses the next draw, scaled to `[lower, upper)` |
| Simulation.Simulator.PlaceCandidate | src/main/java/eu/mivrenik/particles/model/Simulator.java:32-47 | an accepted position lies in the drawn ranges and overlaps no particle already placed in its half; after `maxAttempts` rejections it gives up, having used two draws per attempt |
| Simulation.Simulator.PlaceAll | src/main/java/eu/mivrenik/particles/model/Simulator.java:30-86 | all `left + right` particles in place, packed: left slots, right slots, ids, no overlap in a half |
| Simulation.Simulator.InitialDistribution | src/main/java/eu/mivrenik/particles/model/Simulator.java:18-90 | a negative total throws `NegativeArraySizeException`; a left count outside `[0, total]` throws `IndexOutOfBoundsException`; a success is a fresh state at time 0 with the settings, `left + right` particles, packed (distinct ids, even left and odd right, inside their halves, no two overlapping) |
| Simulation.Simulator.NextTimeStep | src/main/java/eu/mivrenik/particles/model/Simulator.java:92-241 | the input state is unchanged; it fails with `IndexOutOfBoundsException` iff at least two particles are configured and more than the array holds; otherwise time `+ deltaTime` wrapped to 64 bits, same length, particles are the geometry pass over the pair pass over a height-sorted permutation of the moved copies, and the id multiset is kept |
| Simulation.NextTimeStepKeepsIds | src/main/java/eu/mivrenik/particles/model/Simulator.java:92-241 | a state that is a `nextTimeStep` of another has as many particles and the same id multiset |
| Sampling.Sampled | src/main/java/eu/mivrenik/particles/io/SimulationWriter.java:54-68 | at most one state is saved per visit; the k-th saved state is a visited state whose time lies in window k |
| Sampling.SampledIncreasing | src/main/java/eu/mivrenik/particles/io/SimulationWriter.java:55-64 | saved times strictly increase |
| Sampling.EmptyWindowsWriteNothing | src/main/java/eu/mivrenik/particles/io/SimulationWriter.java:55 | with a window of 0 or less nothing is ever saved |
| Sampling.FirstFrameIsInitialState | src/main/java/eu/mivrenik/particles/io/SimulationWriter.java:55 | with a positive window, the first saved state is the time-0 initial state |
| Sampling.MissedWindowEndsSampling | src/main/java/eu/mivrenik/particles/io/SimulationWriter.java:55 | in a trace of non-decreasing times, once a state jumps past the current window unsaved, nothing more is saved |
| Sampling.PastWindowWritesNothing | src/main/java/eu/mivrenik/particles/io/SimulationWriter.java:55 | states all past the current window add no frame |
| Sampling.StrictFramesArePositive | src/main/java/eu/mivrenik/particles/model/SimulationWriter.java:47 | with the strict lower bound every saved time is positive |
| Sampling.StrictSkipsInitialState | src/main/java/eu/mivrenik/particles/model/SimulationWriter.java:47 | with the strict lower bound the time-0 state is never saved |
| Trajectory.EncodeHeader | src/main/java/eu/mivrenik/particles/io/SimulationWriter.java:35-52 | the header is 72 bytes |
| Trajectory.HeaderCountsRoundTrip | src/main/java/eu/mivrenik/particles/io/ExperimentLoader.java:42-59 | the five `int` fields read back from their offsets 0, 4, 60, 64, 68 |
| Trajectory.HeaderSpeedsRoundTrip | src/main/java/eu/mivrenik/particles/io/ExperimentLoader.java:44-51 | the eight floats at offsets 8..39 (initial speed, speed loss, the three speed deltas, `g`, box width and height) read back as their `floatToIntBits` |
| Trajectory.HeaderObstaclesRoundTrip | src/main/java/eu/mivrenik/particles/io/ExperimentLoader.java:52-56 | the five floats at offsets 40..59 (barrier position and width, hole position and height, radius) read back as their `floatToIntBits` |
| Trajectory.HeaderRoundTrip | src/main/java/eu/mivrenik/particles/io/ExperimentLoader.java:41-75 | the decoded header is the written settings with NaNs canonical: `equals` to them, identical when no field is NaN |
| Trajectory.CanonicalFloatsEquals | src/main/java/eu/mivrenik/particles/io/ExperimentLoader.java:41-75 | canonicalising NaNs gives `equals` settings |
| Trajectory.EncodeRecord | src/main/java/eu/mivrenik/particles/io/SimulationWriter.java:58-62 | a particle record is 36 bytes |
| Trajectory.EncodeFrame | src/main/java/eu/mivrenik/particles/io/SimulationWriter.java:56-63 | a frame of n particles is `36n + 8` bytes |
| Trajectory.DecodeFrameAt | src/main/java/eu/mivrenik/particles/io/ExperimentLoader.java:112-121 | a decoded frame has exactly n particles |
| Trajectory.RecordRoundTrip | src/main/java/eu/mivrenik/particles/io/ExperimentLoader.java:116-120 | a record reads back exactly |
| Trajectory.RecordsRoundTrip | src/main/java/eu/mivrenik/particles/io/ExperimentLoader.java:115-121 | n records read back exactly, in order |
| Trajectory.FrameRoundTrip | src/main/java/eu/mivrenik/particles/io/ExperimentLoader.java:112-121 | a frame reads back exactly |
| Trajectory.FramesLength | src/main/java/eu/mivrenik/particles/io/SimulationWriter.java:54-68 | k frames of n particles take `k·(36n + 8)` bytes |
| Trajectory.FramesRoundTrip | src/main/java/eu/mivrenik/particles/io/ExperimentLoader.java:110-121 | frame k sits at `k·chunk` in the frame area and reads back exactly |
| Trajectory.FileHeaderRoundTrip | src/test/java/eu/mivrenik/particles/io/ExperimentIOTest.java:82-90 | a saved file is `72 + k·chunk` bytes and its header reads back `equals` to the settings |
| Trajectory.FileFrameRoundTrip | src/test/java/eu/mivrenik/particles/io/ExperimentIOTest.java:92-104 | frame k of a saved file reads back exactly from `72 + k·chunk` |
| Trajectory.SnapshotOf | src/main/java/eu/mivrenik/particles/io/ExperimentLoader.java:123-127 | the loaded state has the frame's time and its particles in file order |
| Trajectory.FrameOf | src/main/java/eu/mivrenik/particles/io/SimulationWriter.java:56-63 | the written frame has the state's time and one record per particle, in array order |
| Trajectory.StateOfRecordOf | src/main/java/eu/mivrenik/particles/io/SimulationWriter.java:58-62 | a particle loads back with its id; exactly when its four doubles are exact |
| Loader.ChunkOfFrameSize | src/main/java/eu/mivrenik/particles/io/ExperimentLoader.java:84 | `dataChunkSize` is `36n + 8` when it fits in an `int` |
| Loader.ChunkOfHundredParticles | src/test/java/eu/mivrenik/particles/io/ExperimentIOTest.java:74-80 | 50 + 50 particles give a chunk of 3608 |
| Loader.StateCountOf | src/main/java/eu/mivrenik/particles/io/ExperimentLoader.java:86 | a zero chunk throws `ArithmeticException`, and only that |
| Loader.StateCountIsWholeChunks | src/main/java/eu/mivrenik/particles/io/ExperimentLoader.java:86 | `stateCount` is the number of whole chunks after the 72-byte header |
| Loader.ValidIndexWithinFile | src/main/java/eu/mivrenik/particles/io/ExperimentLoader.java:130-132 | for a valid index the whole frame lies in the file: `72 + (index+1)·chunk ≤ length` |
| Loader.StatePositionExact | src/main/java/eu/mivrenik/particles/io/ExperimentLoader.java:130-132 | the offset is `72 + index·chunk` while that fits in an `int` |
| Loader.StatePositionNegative | src/main/java/eu/mivrenik/particles/io/ExperimentLoader.java:131 | past `Integer.MAX_VALUE` the `int` product wraps to a negative offset |
| Loader.HundredParticlesLongRun | src/main/java/eu/mivrenik/particles/io/ExperimentLoader.java:131 | with 100 particles, state 600000's offset wraps negative |
| Loader.ReadState | src/main/java/eu/mivrenik/particles/io/ExperimentLoader.java:105-128 | a frame read yields exactly n particles |
| Loader.ReadStateIndexCheck | src/main/java/eu/mivrenik/particles/io/ExperimentLoader.java:106-108 | an index below 0 or at least `stateCount` throws `IndexOutOfBoundsException` |
| Loader.ReadStateSucceeds | src/main/java/eu/mivrenik/particles/io/ExperimentLoader.java:110-127 | a valid index with an offset that fits reads the frame at `72 + index·chunk` |
| Loader.SavedStateCount | src/main/java/eu/mivrenik/particles/io/ExperimentLoader.java:86 | a saved file of k frames has state count k |
| Loader.LoadsHeaderOfSavedFile | src/test/java/eu/mivrenik/particles/io/ExperimentIOTest.java:82-90 | loading a saved file gives `equals` settings, the writer's chunk size and the number of frames saved |
| Loader.LoadsFrameOfSavedFile | src/test/java/eu/mivrenik/particles/io/ExperimentIOTest.java:92-104 | `getState(k)` on a saved file gives back frame k |
| Loader.ReadWorldSettings | src/main/java/eu/mivrenik/particles/io/ExperimentLoader.java:41-75 | with 72 bytes left: the decoded header, cursor 72 further on; else `EOFException` |
| Loader.ReadRecord | src/main/java/eu/mivrenik/particles/io/ExperimentLoader.java:116-120 | one record read from the cursor, or `EOFException` |
| Loader.NewParticle | src/main/java/eu/mivrenik/particles/model/Particle.java:169-219 | the built particle is the record's |
| Loader.ReadParticle | src/main/java/eu/mivrenik/particles/io/ExperimentLoader.java:116-120 | reads particle i of a frame and advances the cursor 36 bytes |
| Loader.ReadParticles | src/main/java/eu/mivrenik/particles/io/ExperimentLoader.java:113-121 | reads n records in file order, or `EOFException` |
| Loader.ExperimentLoader.constructor | src/main/java/eu/mivrenik/particles/io/ExperimentLoader.java:78-87 | stores the file, settings, chunk size and state count |
| Loader.Open | src/main/java/eu/mivrenik/particles/io/ExperimentLoader.java:78-87 | a short file throws `EOFException`, a zero chunk `ArithmeticException`; else the loader of the decoded header, the cursor after it |
| Loader.ExperimentLoader.GetState | src/main/java/eu/mivrenik/particles/io/ExperimentLoader.java:105-128 | succeeds exactly when `ReadState` does, with a fresh state of the loader's settings holding the frame; otherwise its exception |
| IoWriter.MicrosOfMinutes | src/main/java/eu/mivrenik/particles/io/SimulationWriter.java:27 | the run length is `minutes · 60 · 10^6` µs |
| IoWriter.WindowOfFps | src/main/java/eu/mivrenik/particles/io/SimulationWriter.java:28 | the window `floorDiv(10^6, fps)` lies within ±10^6 |
| IoWriter.FramesOf | src/main/java/eu/mivrenik/particles/io/SimulationWriter.java:56-63 | one frame per saved state, in order |
| IoWriter.WriteHeader | src/main/java/eu/mivrenik/particles/io/SimulationWriter.java:35-52 | the eighteen writes produce exactly the 72-byte header |
| IoWriter.WriteRecord | src/main/java/eu/mivrenik/particles/io/SimulationWriter.java:58-62 | appends one particle's record |
| IoWriter.WriteRecords | src/main/java/eu/mivrenik/particles/io/SimulationWriter.java:57-63 | appends the records of all particles in array order |
| IoWriter.WriteFrame | src/main/java/eu/mivrenik/particles/io/SimulationWriter.java:56-63 | appends the state's frame |
| IoWriter.StepState | src/main/java/eu/mivrenik/particles/io/SimulationWriter.java:67 | one step: the new state is a `nextTimeStep` of the old one (time advanced, geometry over pair pass over a sorted permutation of the moved copies), same count, id multiset kept, old state untouched |
| IoWriter.StepOn | src/main/java/eu/mivrenik/particles/io/SimulationWriter.java:67 | the stepped state is a `nextTimeStep` of the current one and the next visit of the walk: later time, same count, same ids |
| IoWriter.SampleState | src/main/java/eu/mivrenik/particles/io/SimulationWriter.java:55-65 | saves the state iff it lies in the current window, and counts it |
| IoWriter.SaveTurn | src/main/java/eu/mivrenik/particles/io/SimulationWriter.java:55-67 | one loop turn keeps the saving invariant |
| IoWriter.WalkEnds | src/main/java/eu/mivrenik/particles/io/SimulationWriter.java:54 | at exit the visited states are non-empty iff the run is positive, all before the end, the next one past it, and each after the first is a `nextTimeStep` of the one before |
| IoWriter.SaveRun | src/main/java/eu/mivrenik/particles/io/SimulationWriter.java:54-68 | the loop writes the frames of the windowed states of the visited trace, each visited state after the first being a `nextTimeStep` of the one before |
| IoWriter.SimulationWriter.constructor | src/main/java/eu/mivrenik/particles/io/SimulationWriter.java:18-21 | keeps the simulator |
| IoWriter.SimulationWriter.SaveSimulation | src/main/java/eu/mivrenik/particles/io/SimulationWriter.java:23-75 | header plus the frames of the states in windows of `floorDiv(10^6, fps)`, from a packed time-0 start to the first state past the length, each a `nextTimeStep` of the one before; `fps = 0` throws |
| LegacyWriter.TimeWord | src/main/java/eu/mivrenik/particles/model/SimulationWriter.java:48 | time 0 is word 0; other whole times get a word ≥ `0x3FF0…` |
| LegacyWriter.LegacyFrameOf | src/main/java/eu/mivrenik/particles/model/SimulationWriter.java:48-55 | the legacy frame carries the double word of the time and the same particle records |
| LegacyWriter.WriteLegacyFrame | src/main/java/eu/mivrenik/particles/model/SimulationWriter.java:48-55 | appends the legacy frame |
| LegacyWriter.SampleLegacyState | src/main/java/eu/mivrenik/particles/model/SimulationWriter.java:47-57 | saves the state iff it lies strictly inside the current window |
| LegacyWriter.LegacyTurn | src/main/java/eu/mivrenik/particles/model/SimulationWriter.java:47-59 | one loop turn keeps the legacy saving invariant |
| LegacyWriter.LegacyRun | src/main/java/eu/mivrenik/particles/model/SimulationWriter.java:46-60 | the legacy loop writes the legacy frames of the strictly windowed states of a trace whose every state after the first is a `nextTimeStep` of the one before |
| LegacyWriter.SimulationWriter.constructor | src/main/java/eu/mivrenik/particles/model/SimulationWriter.java:12-15 | keeps the simulator |
| LegacyWriter.SimulationWriter.SaveSimulation | src/main/java/eu/mivrenik/particles/model/SimulationWriter.java:17-67 | header plus legacy frames of the states strictly inside windows of `floorDiv(duration, fps)`, each state a `nextTimeStep` of the one before |
| LegacyWriter.RunWindowFits | src/main/java/eu/mivrenik/particles/model/SimulationWriter.java:21 | the legacy window fits the same bound as the run length |
| LegacyWriter.LegacyFramesSkipStart | src/main/java/eu/mivrenik/particles/model/SimulationWriter.java:47 | the legacy writer never saves the initial state; all its saved times are positive |
| LegacyWriter.TimeMisread | src/main/java/eu/mivrenik/particles/model/SimulationWriter.java:48 | `readLong` of a written double time `t ≥ 1` gives its word, larger than `t` |
| LegacyWriter.LoaderMisreadsLegacyTime | src/main/java/eu/mivrenik/particles/model/SimulationWriter.java:48 | loading frame k of a legacy file gives a time other than the one saved |
| LegacyWriter.LegacyFrameBound | src/main/java/eu/mivrenik/particles/model/SimulationWriter.java:21 | with windows of `duration / fps`, at most `fps + 1` frames are saved |
| LegacyWriter.WindowsStartBeforeEnd | src/main/java/eu/mivrenik/particles/model/SimulationWriter.java:46-47 | each saved window starts before the run's end |
| Analysis.FirstTypeIsEvenId | src/main/java/eu/mivrenik/particles/controller/DemonstrationController.java:314 | `(id & 1) == 0` holds exactly for even ids, negative ones included |
| Analysis.SideOf | src/main/java/eu/mivrenik/particles/controller/DemonstrationController.java:313-319 | left iff `x < leftBound`; right iff not left and `x > rightBound` |
| Analysis.BarrierIsBand | src/main/java/eu/mivrenik/particles/controller/DemonstrationController.java:312-326 | a particle counts on neither side iff it lies in the band `[leftBound, rightBound]` |
| Analysis.BoundsOrdered | src/main/java/eu/mivrenik/particles/controller/DemonstrationController.java:309-310 | with `barrierWidth ≥ 0` the left bound is at most the right bound |
| Analysis.Census | src/main/java/eu/mivrenik/particles/controller/DemonstrationController.java:312-326 | one counter never exceeds the number of particles |
| Analysis.CensusPartition | src/main/java/eu/mivrenik/particles/controller/DemonstrationController.java:312-326 | the four counts plus the in-band particles are all the particles |
| Analysis.CountsAtMostParticles | src/main/java/eu/mivrenik/particles/controller/DemonstrationController.java:312-326 | the four counts sum to at most the particle count |
| Analysis.CountsOfPermutation | src/main/java/eu/mivrenik/particles/controller/DemonstrationController.java:264-278 | the counts do not depend on the order of the particles |
| Analysis.CountSides | src/main/java/eu/mivrenik/particles/controller/DemonstrationController.java:312-326 | the counting loop yields the four counts of the state's particles |
| Analysis.Trunc | src/main/java/eu/mivrenik/particles/controller/DemonstrationController.java:405 | a `(int)` cast truncates towards zero |
| Analysis.Saturate | src/main/java/eu/mivrenik/particles/controller/DemonstrationController.java:441 | a narrowing to `int` keeps in-range values and the sign of the rest |
| Analysis.QuotientToInt | src/main/java/eu/mivrenik/particles/controller/DemonstrationController.java:364 | a quotient by zero casts to `Integer.MAX_VALUE`, `MIN_VALUE` or 0 by the sign of the dividend |
| Analysis.HistogramCounts | src/main/java/eu/mivrenik/particles/controller/DemonstrationController.java:404-406 | bin j counts the particles whose index is j |
| Analysis.HistogramTotal | src/main/java/eu/mivrenik/particles/controller/DemonstrationController.java:404-406 | the bins sum to the particle count |
| Analysis.MaxSpeed | src/main/java/eu/mivrenik/particles/controller/DemonstrationController.java:342-344 | the maximum speed, attained by a particle; 1.0 with no particles |
| Analysis.MaxwellBinInRange | src/main/java/eu/mivrenik/particles/controller/DemonstrationController.java:364 | `min(floor(speed / dv), binsNum - 1)` lies in `[0, binsNum - 1]` for speed ≥ 0, dv ≥ 0 |
| Analysis.MaxwellBinsInRange | src/main/java/eu/mivrenik/particles/controller/DemonstrationController.java:342-364 | with dv from the maximum speed, every particle's bin is below `binsNum` |
| Analysis.MaxwellHistogramMeaning | src/main/java/eu/mivrenik/particles/controller/DemonstrationController.java:356-366 | `binsNum + 1` slots; slot j counts the speeds binned to j; the last slot stays 0; the slots sum to the particle count |
| Analysis.ZeroSlots | src/main/java/eu/mivrenik/particles/controller/DemonstrationController.java:356-359 | the first loop makes `binsNum + 1` zero slots |
| Analysis.TallySpeeds | src/main/java/eu/mivrenik/particles/controller/DemonstrationController.java:361-366 | the tally loop yields the histogram of the speed bins |
| Analysis.MaxwellCounts | src/main/java/eu/mivrenik/particles/controller/DemonstrationController.java:338-366 | the unnormalised experimental Maxwell histogram of the state |
| Analysis.BoltzmannBinInRange | src/main/java/eu/mivrenik/particles/controller/DemonstrationController.java:405 | the truncated bin exists iff `-Δh/2 < y < binsNum·Δh + Δh/2` |
| Analysis.BoltzmannInsideBox | src/main/java/eu/mivrenik/particles/controller/DemonstrationController.java:392-406 | for `0 ≤ y < boxHeight` the bin lies in `[0, binsNum)` |
| Analysis.BoltzmannHistogram | src/main/java/eu/mivrenik/particles/controller/DemonstrationController.java:404-406 | fails with `IndexOutOfBoundsException` iff some bin is missing; else `binsNum` bins summing to the count |
| Analysis.BoltzmannInBoxSucceeds | src/main/java/eu/mivrenik/particles/controller/DemonstrationController.java:392-406 | with every particle inside the box the histogram exists and bin j counts the particles in it |
| Analysis.ZeroCounters | src/main/java/eu/mivrenik/particles/controller/DemonstrationController.java:399-402 | the bins start at zero |
| Analysis.CountInBin | src/main/java/eu/mivrenik/particles/controller/DemonstrationController.java:406 | one `y[chunk]++`: the counters become the histogram of one more bin index |
| Analysis.TallyHeights | src/main/java/eu/mivrenik/particles/controller/DemonstrationController.java:404-407 | the tally loop fills the height histogram or stops at the first missing bin |
| Analysis.BoltzmannCounts | src/main/java/eu/mivrenik/particles/controller/DemonstrationController.java:389-407 | the state's height histogram, or the index error |
| Analysis.AsWrittenPlotNeverEnds | src/main/java/eu/mivrenik/particles/controller/DemonstrationController.java:257 | with 0 < stateCount < 10 the stride is 0 and `i` stays at 0 after any number of turns |
| Analysis.Stride | src/main/java/eu/mivrenik/particles/controller/DemonstrationController.java:257 | the corrected stride is at least 1 and equals `floorDiv(stateCount, 10)` from 10 states on |
| Analysis.PlotIndices | src/main/java/eu/mivrenik/particles/controller/DemonstrationController.java:257 | every sampled index is below the state count |
| Analysis.PlotIndicesAreMultiples | src/main/java/eu/mivrenik/particles/controller/DemonstrationController.java:257 | the k-th sampled index is `i + k·stride`, in range |
| Analysis.PlotIndicesComplete | src/main/java/eu/mivrenik/particles/controller/DemonstrationController.java:257 | every `i + k·stride` below the state count is sampled |
| Demonstration.PointOf | src/main/java/eu/mivrenik/particles/controller/DemonstrationController.java:258-288 | a plotted point has the frame's time and counts at most its particles |
| Demonstration.ReaderOf | src/main/java/eu/mivrenik/particles/controller/DemonstrationController.java:258 | the reader is `getState` on the file |
| Demonstration.PlotOf | src/main/java/eu/mivrenik/particles/controller/DemonstrationController.java:257-289 | a finished plot has one point per sampled index |
| Demonstration.PlotOfPoints | src/main/java/eu/mivrenik/particles/controller/DemonstrationController.java:257-289 | point k is the count of the state at index k |
| Demonstration.PlotOfFailure | src/main/java/eu/mivrenik/particles/controller/DemonstrationController.java:257-289 | a failed plot failed at the first unreadable index, with that read's exception |
| Demonstration.PlotOfAllRead | src/main/java/eu/mivrenik/particles/controller/DemonstrationController.java:257-289 | when every sampled state reads, the plot succeeds |
| Demonstration.PlotOfFrames | src/main/java/eu/mivrenik/particles/controller/DemonstrationController.java:257-289 | over readable frames, point j is the count of frame `j·stride` |
| Demonstration.ReadsSavedFile | src/main/java/eu/mivrenik/particles/controller/DemonstrationController.java:258 | on a saved file whose offsets fit, state k reads as frame k |
| Demonstration.DemonstrationController.constructor | src/main/java/eu/mivrenik/particles/controller/DemonstrationController.java:72-75 | state 0, not playing, empty charts |
| Demonstration.DemonstrationController.SetState | src/main/java/eu/mivrenik/particles/controller/DemonstrationController.java:161-184 | an index ≥ `stateCount` changes nothing; a failed read changes nothing; else the index becomes current and the Maxwell chart is of the new state, and then either the Boltzmann and bar charts are too, or, when a height falls outside every bin, the Boltzmann chart is left cleared, the bar chart unchanged and `IndexOutOfBoundsException` returned |
| Demonstration.DemonstrationController.Redraw | src/main/java/eu/mivrenik/particles/controller/DemonstrationController.java:176-179 | the Maxwell, Boltzmann and count charts of the state, in source order |
| Demonstration.DemonstrationController.SpeedsAndHeights | src/main/java/eu/mivrenik/particles/controller/DemonstrationController.java:177-178 | the 20-bin speed and 17-bin height histograms of the state |
| Demonstration.TickMillis | src/main/java/eu/mivrenik/particles/controller/DemonstrationController.java:140-145 | the tick length `(long)(1000 / fps)`, 1000 for empty text; `NumberFormatException` exactly for non-int text and `ArithmeticException` exactly for 0; negative exactly for rates -1000 to -1 |
| Demonstration.DemonstrationController.ShowNext | src/main/java/eu/mivrenik/particles/controller/DemonstrationController.java:151 | a tick shows the next state when it is readable, with the charts `setState` draws of it (`ChartsOf`), else keeps the state and charts; playback flag and plot unchanged |
| Demonstration.DemonstrationController.OnStateTimerLaunch | src/main/java/eu/mivrenik/particles/controller/DemonstrationController.java:139-159 | while playing and before the last state: non-int fps text throws `NumberFormatException`, fps 0 throws `ArithmeticException`, and a rate from -1000 to -1 (a negative tick, which `KeyFrame` rejects inside the `try`) returns normally, all three leaving state and charts as they were with playback marked started; otherwise the next state, when readable, is shown with its charts (`ChartsOf`); when not playing or at the last state, playback stops and nothing else changes; the plot never changes |
| Demonstration.DemonstrationController.OnPlaybackClicked | src/main/java/eu/mivrenik/particles/controller/DemonstrationController.java:422-428 | a click toggles playing and changes nothing else |
| Demonstration.DemonstrationController.OnTimeSliderValueChanged | src/main/java/eu/mivrenik/particles/controller/DemonstrationController.java:439-446 | shows the state `newValue.intValue()` with its charts (`ChartsOf`) when it can be read, else changes nothing; playback flag and plot unchanged |
| Demonstration.DemonstrationController.PlotParticlesNumLines | src/main/java/eu/mivrenik/particles/controller/DemonstrationController.java:235-293 | the loop computes the plot of the sampled states, with the corrected stride, or the first read's exception |
| Demonstration.DemonstrationController.PointAt | src/main/java/eu/mivrenik/particles/controller/DemonstrationController.java:258-288 | reads one state and counts it; a success implies a valid index |
| Demonstration.DemonstrationController.Initialize | src/main/java/eu/mivrenik/particles/controller/DemonstrationController.java:78-103 | the plot is kept when it succeeds; state 0 is shown with its charts (`ChartsOf`) when readable, else state and charts are kept; playback starts |

## Left out

- File I/O is modelled as byte sequences.
  - The `IOException` that `saveSimulation` swallows (its catch block) is not modelled.
    Streams in memory do not fail to open or flush.
- The cursor position of a `ByteSource` after a read that hits the end is only bounded,
  not fixed: `RandomAccessFile` may have consumed part of the value.
- Floating point: coordinates and speeds are `real`.
  - No rounding, NaN or infinity of `double` arithmetic is modelled.
  - `Math.sqrt`, `Math.cos`, `Math.sin` and the collision formulas are parameters.
  - The theoretical Maxwell curve and the normalisation of the experimental one
    (lines 368-384 of the controller) are not modelled.
- `Simulator.calculateTimeStep` is not part of this model. It is a parameter that
  returns a step in `[1, MaxStep]`.
- `Double.doubleToLongBits` is a parameter `doubleBits`. Whether a double written for a
  particle is that particle's exact `real` is stated by `Trajectory.StateOfRecordOf`.
- `java.util.Random` is a stream of draws in `[0, 1)`. The seed is stored, but no draw
  is derived from it.
- Simulation.Simulator.PlaceCandidate: the source's `do … while` has no bound. The model
  gives each particle `maxAttempts` tries and fails with `AttemptsExhausted` after them.
- Simulation.Simulator.NextTimeStep: the order of particles of equal height after the
  sort is not pinned down. `Arrays.sort` keeps it stable; the model's insertion sort
  only promises a permutation that is non-decreasing in height, and the pair pass is
  stated over that order.
- The 64-bit wrap of `currSnap·deltaTime` and `(currSnap+1)·deltaTime` in the window
  test is not modelled.
  - The run length and time steps are bounded by `MaxStep` so that the products stay
    far below 2^63.
- `time + deltaTime` in `saveSimulation`'s trace is exact. The runs are bounded so that
  it never wraps.
- Analysis.MaxwellHistogramMeaning: requires `binsNum ≥ 1`; the controller only passes 20.
- Analysis.BoltzmannHistogram: requires `binsNum ≥ 1`; the controller only passes 17.
- `Particle.getSpeed` is the parameter `speed`, required to be non-negative; its square
  root is not modelled.
- The canvas drawing (`redraw`, `initializeCanvas`), chart series, labels and the
  playback `Timeline` are UI code. Only the values the charts show are kept:
  - the speed and height bins;
  - the side counts;
  - the plotted points.
- `onFpsValueChanged` only logs.
- The timer callback's fps text is the parameter `fpsText`; the `Timeline` it schedules
  is left out with the timers. That JavaFX's `KeyFrame` constructor throws
  `IllegalArgumentException` for a negative time is taken from the JavaFX API; JavaFX
  is not part of this model.
- `Particle.hashCode`, `ExperimentState.hashCode` and `Particle.toString` are not
  modelled. Nothing in the modelled code calls them.
- Java serialisation of particles (the test's round trip through
  `ObjectOutputStream`) is not modelled.
- `WorldSettings.java` is not part of this model. No modelled code refers to it.
- The unsynchronised progress polling and `Thread.stop` in the new-experiment UI are
  concurrency in the UI and are left out.

## Findings

| source | as written | input that shows it | evidently intended | confidence | as-written member | corrected member |
|---|---|---|---|---|---|---|
| src/main/java/eu/mivrenik/particles/model/Simulator.java:42 | the overlap loop calls `particles[i].overlaps(particles[j], …)` while slot `i` is still unassigned (`null`); the same at line 71 for the right half | two left particles: the second particle's first check, `i = 1, j = 0`, throws `NullPointerException` | test the candidate `(currX, currY)` against each placed `particles[j]` | high (not executed) | Simulation.AsWrittenTwoLeftParticlesThrow | Simulation.Simulator.PlaceCandidate |
| src/main/java/eu/mivrenik/particles/controller/DemonstrationController.java:257 | the plot loop steps by `Math.floorDiv(stateCount, 10)` | a file of 1 to 9 states: the stride is 0, `i` stays 0, and the loop never ends | a stride of at least 1 | high (not executed) | Analysis.AsWrittenPlotNeverEnds | Demonstration.DemonstrationController.PlotParticlesNumLines |
| src/main/java/eu/mivrenik/particles/model/SimulationWriter.java:48 | the legacy writer saves the frame time with `writeDouble`, while the loader reads it with `readLong` | a frame with time 1 µs is read back as `0x3FF0000000000000` | `writeLong(time)`, as in the io writer | medium (not executed) | LegacyWriter.LoaderMisreadsLegacyTime | IoWriter.SimulationWriter.SaveSimulation |
