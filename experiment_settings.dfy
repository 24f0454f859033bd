/**
 * The parameters of an experiment: an immutable value built by a mutable
 * builder. Float parameters are held as their binary32 words, so `equals`,
 * `hashCode` and the file header see exactly the bits Java sees.
 */
module Settings {
  import opened JavaTypes
  import opened Ieee
  import opened DataStream

  /** The eighteen fields of `ExperimentSettings`, in declaration order. */
  datatype ExperimentSettings = ExperimentSettings(
    particleCountLeft: int32,
    particleCountRight: int32,
    initialSpeed: Float32,
    boxWidth: Float32,
    boxHeight: Float32,
    speedDeltaTop: Float32,
    speedDeltaSides: Float32,
    speedDeltaBottom: Float32,
    barrierPosX: Float32,
    barrierWidth: Float32,
    holePosY: Float32,
    holeHeight: Float32,
    fps: int32,
    length: int32,
    seed: int32,
    speedLoss: Float32,
    particleRadius: Float32,
    g: Float32)
  {
    /** `getParticleCount()`: the sum of both halves, as a 32-bit `int` addition. */
    function ParticleCount(): (n: int32)
      ensures Int32Min <= particleCountLeft + particleCountRight <= Int32Max ==>
                n == particleCountLeft + particleCountRight
      ensures (n - (particleCountLeft + particleCountRight)) % 0x1_0000_0000 == 0
    {
      Wrap32(particleCountLeft + particleCountRight)
    }

    /** `equals`: ints with `==`, floats with `Float.compare(..) == 0`. */
    predicate Equals(that: ExperimentSettings)
    {
      particleCountLeft == that.particleCountLeft
      && particleCountRight == that.particleCountRight
      && FloatCompareEqual(that.initialSpeed, initialSpeed)
      && FloatCompareEqual(that.boxWidth, boxWidth)
      && FloatCompareEqual(that.boxHeight, boxHeight)
      && FloatCompareEqual(that.speedDeltaTop, speedDeltaTop)
      && FloatCompareEqual(that.speedDeltaSides, speedDeltaSides)
      && FloatCompareEqual(that.speedDeltaBottom, speedDeltaBottom)
      && FloatCompareEqual(that.barrierPosX, barrierPosX)
      && FloatCompareEqual(that.barrierWidth, barrierWidth)
      && FloatCompareEqual(that.holePosY, holePosY)
      && FloatCompareEqual(that.holeHeight, holeHeight)
      && fps == that.fps
      && length == that.length
      && seed == that.seed
      && FloatCompareEqual(that.speedLoss, speedLoss)
      && FloatCompareEqual(that.particleRadius, particleRadius)
      && FloatCompareEqual(that.g, g)
    }

    /** No float field holds a NaN word. */
    predicate NoNaN()
    {
      !IsNaN32(initialSpeed) && !IsNaN32(boxWidth) && !IsNaN32(boxHeight)
      && !IsNaN32(speedDeltaTop) && !IsNaN32(speedDeltaSides) && !IsNaN32(speedDeltaBottom)
      && !IsNaN32(barrierPosX) && !IsNaN32(barrierWidth)
      && !IsNaN32(holePosY) && !IsNaN32(holeHeight)
      && !IsNaN32(speedLoss) && !IsNaN32(particleRadius) && !IsNaN32(g)
    }

    /** `hashCode`: the 31-multiplier fold over the fields, in 32-bit arithmetic. */
    function HashCode(): int32
    {
      var h := particleCountLeft;
      var h := HashStep(h, particleCountRight);
      var h := HashStep(h, FloatHash(initialSpeed));
      var h := HashStep(h, FloatHash(boxWidth));
      var h := HashStep(h, FloatHash(boxHeight));
      var h := HashStep(h, FloatHash(speedDeltaTop));
      var h := HashStep(h, FloatHash(speedDeltaSides));
      var h := HashStep(h, FloatHash(speedDeltaBottom));
      var h := HashStep(h, FloatHash(barrierPosX));
      var h := HashStep(h, FloatHash(barrierWidth));
      var h := HashStep(h, FloatHash(holePosY));
      var h := HashStep(h, FloatHash(holeHeight));
      var h := HashStep(h, fps);
      var h := HashStep(h, length);
      var h := HashStep(h, seed);
      var h := HashStep(h, FloatHash(speedLoss));
      var h := HashStep(h, FloatHash(particleRadius));
      HashStep(h, FloatHash(g))
    }
  }

  /** `31 * result + h` on Java `int`s. */
  function HashStep(result: int32, h: int32): int32
  {
    Wrap32(31 * result + h)
  }

  /**
   * The hash of one float field: `x != +0.0f ? Float.floatToIntBits(x) : 0`.
   * Both zeros compare `==` to `+0.0f`; a NaN compares unequal to it.
   */
  function FloatHash(w: Float32): (h: int32)
    ensures IsZero32(w) ==> h == 0
    ensures !IsZero32(w) ==> h == Signed32(FloatToIntBits(w))
  {
    if IsZero32(w) then 0 else Signed32(FloatToIntBits(w))
  }

  /** Floats that `Float.compare` calls equal have the same hash. */
  lemma FloatHashRespectsCompare(a: Float32, b: Float32)
    requires FloatCompareEqual(a, b)
    ensures FloatHash(a) == FloatHash(b)
  {
    if !IsNaN32(a) {
      FloatCompareEqualIsBitEquality(a, b);
    } else if !IsNaN32(b) {
      FloatCompareEqualIsBitEquality(b, a);
    }
  }

  /** `equals` is reflexive, symmetric and transitive. */
  lemma EqualsReflexive(a: ExperimentSettings)
    ensures a.Equals(a)
  {
  }

  lemma EqualsSymmetric(a: ExperimentSettings, b: ExperimentSettings)
    requires a.Equals(b)
    ensures b.Equals(a)
  {
  }

  lemma EqualsTransitive(a: ExperimentSettings, b: ExperimentSettings, c: ExperimentSettings)
    requires a.Equals(b) && b.Equals(c)
    ensures a.Equals(c)
  {
  }

  /** Settings that are `equals` have the same `hashCode`. */
  lemma EqualsImpliesSameHashCode(a: ExperimentSettings, b: ExperimentSettings)
    requires a.Equals(b)
    ensures a.HashCode() == b.HashCode()
  {
    FloatHashRespectsCompare(a.initialSpeed, b.initialSpeed);
    FloatHashRespectsCompare(a.boxWidth, b.boxWidth);
    FloatHashRespectsCompare(a.boxHeight, b.boxHeight);
    FloatHashRespectsCompare(a.speedDeltaTop, b.speedDeltaTop);
    FloatHashRespectsCompare(a.speedDeltaSides, b.speedDeltaSides);
    FloatHashRespectsCompare(a.speedDeltaBottom, b.speedDeltaBottom);
    FloatHashRespectsCompare(a.barrierPosX, b.barrierPosX);
    FloatHashRespectsCompare(a.barrierWidth, b.barrierWidth);
    FloatHashRespectsCompare(a.holePosY, b.holePosY);
    FloatHashRespectsCompare(a.holeHeight, b.holeHeight);
    FloatHashRespectsCompare(a.speedLoss, b.speedLoss);
    FloatHashRespectsCompare(a.particleRadius, b.particleRadius);
    FloatHashRespectsCompare(a.g, b.g);
  }

  /** Without NaN fields, `equals` is exactly equality of the stored words. */
  lemma EqualsIsWordEquality(a: ExperimentSettings, b: ExperimentSettings)
    requires a.NoNaN()
    ensures a.Equals(b) <==> a == b
  {
  }

  /** `ExperimentSettings.Builder`: mutable fields, each setter returning the builder. */
  class Builder {
    var particleCountLeft: int32
    var particleCountRight: int32
    var initialSpeed: Float32
    var boxWidth: Float32
    var boxHeight: Float32
    var speedDeltaTop: Float32
    var speedDeltaSides: Float32
    var speedDeltaBottom: Float32
    var barrierPosX: Float32
    var barrierWidth: Float32
    var holePosY: Float32
    var holeHeight: Float32
    var speedLoss: Float32
    var particleRadius: Float32
    var g: Float32
    var fps: int32
    var length: int32
    var seed: int32

    /** `build()`: the settings carrying every builder field unchanged. */
    function Build(): (s: ExperimentSettings)
      reads this
      ensures s.particleCountLeft == particleCountLeft && s.particleCountRight == particleCountRight
      ensures s.initialSpeed == initialSpeed
      ensures s.boxWidth == boxWidth && s.boxHeight == boxHeight
      ensures s.speedDeltaTop == speedDeltaTop && s.speedDeltaSides == speedDeltaSides
      ensures s.speedDeltaBottom == speedDeltaBottom
      ensures s.barrierPosX == barrierPosX && s.barrierWidth == barrierWidth
      ensures s.holePosY == holePosY && s.holeHeight == holeHeight
      ensures s.speedLoss == speedLoss && s.particleRadius == particleRadius && s.g == g
      ensures s.fps == fps && s.length == length && s.seed == seed
    {
      ExperimentSettings(
        particleCountLeft, particleCountRight, initialSpeed, boxWidth, boxHeight,
        speedDeltaTop, speedDeltaSides, speedDeltaBottom, barrierPosX, barrierWidth,
        holePosY, holeHeight, fps, length, seed, speedLoss, particleRadius, g)
    }

    /** `newBuilder()`: every field starts at Java's default, 0 or `+0.0f`. */
    constructor ()
      ensures Build() == ExperimentSettings(0, 0, 0, 0, 0, 0, 0, 0, 0, 0, 0, 0, 0, 0, 0, 0, 0, 0)
    {
      particleCountLeft, particleCountRight := 0, 0;
      initialSpeed, boxWidth, boxHeight := 0, 0, 0;
      speedDeltaTop, speedDeltaSides, speedDeltaBottom := 0, 0, 0;
      barrierPosX, barrierWidth, holePosY, holeHeight := 0, 0, 0, 0;
      speedLoss, particleRadius, g := 0, 0, 0;
      fps, length, seed := 0, 0, 0;
    }

    /** `setParticleCount(left, right)` (also spelt `particleCount`). */
    method SetParticleCount(left: int32, right: int32) returns (self: Builder)
      modifies this
      ensures self == this
      ensures Build() == old(Build()).(particleCountLeft := left, particleCountRight := right)
    {
      particleCountLeft, particleCountRight := left, right;
      self := this;
    }

    method SetInitialSpeed(speed: Float32) returns (self: Builder)
      modifies this
      ensures self == this
      ensures Build() == old(Build()).(initialSpeed := speed)
    {
      initialSpeed := speed;
      self := this;
    }

    method SetBoxSize(width: Float32, height: Float32) returns (self: Builder)
      modifies this
      ensures self == this
      ensures Build() == old(Build()).(boxWidth := width, boxHeight := height)
    {
      boxWidth, boxHeight := width, height;
      self := this;
    }

    /** `setSpeedDelta(top, sides, bottom)`: assigned in argument order. */
    method SetSpeedDelta(top: Float32, sides: Float32, bottom: Float32) returns (self: Builder)
      modifies this
      ensures self == this
      ensures Build() == old(Build()).(speedDeltaTop := top, speedDeltaSides := sides, speedDeltaBottom := bottom)
    {
      speedDeltaTop, speedDeltaSides, speedDeltaBottom := top, sides, bottom;
      self := this;
    }

    method SetBarrier(posX: Float32, width: Float32) returns (self: Builder)
      modifies this
      ensures self == this
      ensures Build() == old(Build()).(barrierPosX := posX, barrierWidth := width)
    {
      barrierPosX, barrierWidth := posX, width;
      self := this;
    }

    method SetHole(posY: Float32, height: Float32) returns (self: Builder)
      modifies this
      ensures self == this
      ensures Build() == old(Build()).(holePosY := posY, holeHeight := height)
    {
      holePosY, holeHeight := posY, height;
      self := this;
    }

    method SetSpeedLoss(speedLoss: Float32) returns (self: Builder)
      modifies this
      ensures self == this
      ensures Build() == old(Build()).(speedLoss := speedLoss)
    {
      this.speedLoss := speedLoss;
      self := this;
    }

    method SetParticleRadius(particleRadius: Float32) returns (self: Builder)
      modifies this
      ensures self == this
      ensures Build() == old(Build()).(particleRadius := particleRadius)
    {
      this.particleRadius := particleRadius;
      self := this;
    }

    method SetG(g: Float32) returns (self: Builder)
      modifies this
      ensures self == this
      ensures Build() == old(Build()).(g := g)
    {
      this.g := g;
      self := this;
    }

    method SetFps(fps: int32) returns (self: Builder)
      modifies this
      ensures self == this
      ensures Build() == old(Build()).(fps := fps)
    {
      this.fps := fps;
      self := this;
    }

    /** `setLength(minutes)` (also spelt `duration`): the run length in minutes. */
    method SetLength(minutes: int32) returns (self: Builder)
      modifies this
      ensures self == this
      ensures Build() == old(Build()).(length := minutes)
    {
      length := minutes;
      self := this;
    }

    method SetSeed(seed: int32) returns (self: Builder)
      modifies this
      ensures self == this
      ensures Build() == old(Build()).(seed := seed)
    {
      this.seed := seed;
      self := this;
    }
  }
}
