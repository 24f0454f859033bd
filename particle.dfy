/**
 * A particle of the box: an id, a position and a velocity. A `Particle`
 * object is updated in place by the simulator; its value, a
 * `ParticleState`, is what the geometric queries and `equals` look at.
 */
module Particles {
  import opened JavaTypes

  /**
   * The value of a particle. Coordinates and velocities are Java doubles;
   * they are modelled as reals, so `Double.compare(a, b) == 0` is `a == b`
   * (a real has no NaN and no negative zero).
   */
  datatype ParticleState = ParticleState(
    id: int32, posX: real, posY: real, velocityX: real, velocityY: real)
  {
    /** The square of `getDistanceTo(other)`; the distance is its square root. */
    function DistanceSquared(other: ParticleState): (d: real)
      ensures d >= 0.0
      ensures posX != other.posX || posY != other.posY ==> d > 0.0
      ensures posX == other.posX && posY == other.posY ==> d == 0.0
    {
      SquareSign(posX - other.posX);
      SquareSign(posY - other.posY);
      Square(posX - other.posX) + Square(posY - other.posY)
    }

    /** `d` is the value `getDistanceTo(other)` returns: the non-negative root. */
    predicate IsDistanceTo(other: ParticleState, d: real)
    {
      d >= 0.0 && Square(d) == DistanceSquared(other)
    }

    /** The square of `getSpeed()`. */
    function SpeedSquared(): (s: real)
      ensures s >= 0.0
    {
      SquareSign(velocityX);
      SquareSign(velocityY);
      Square(velocityX) + Square(velocityY)
    }

    /**
     * `approaches(other)`: the velocity difference, taken from the particle
     * with the smaller coordinate towards the other one, is positive on some
     * axis. On a tie the second branch of the source is taken.
     */
    predicate Approaches(other: ParticleState)
    {
      var dVx := if posX < other.posX then velocityX - other.velocityX else other.velocityX - velocityX;
      var dVy := if posY < other.posY then velocityY - other.velocityY else other.velocityY - velocityY;
      dVx > 0.0 || dVy > 0.0
    }

    /**
     * `overlaps(other, r)`: the distance is below `2r`. Since the distance is
     * never negative, this needs `r > 0`, and then it is `distance² < (2r)²`.
     */
    predicate Overlaps(other: ParticleState, particleR: real)
    {
      0.0 < particleR && DistanceSquared(other) < Square(2.0 * particleR)
    }

    /** `equals`: field by field over the position, the velocity and the id. */
    predicate Equals(other: ParticleState)
    {
      posX == other.posX && posY == other.posY
      && velocityX == other.velocityX && velocityY == other.velocityY
      && id == other.id
    }
  }

  /** `x * x`, kept as a function so that squares are terms of their own. */
  function Square(x: real): real
  {
    x * x
  }

  lemma ProductPositive(x: real, y: real)
    requires x > 0.0 && y > 0.0
    ensures x * y > 0.0
  {
  }

  lemma ProductNonNegative(x: real, y: real)
    requires x >= 0.0 && y >= 0.0
    ensures x * y >= 0.0
  {
    if x > 0.0 && y > 0.0 {
      ProductPositive(x, y);
    }
  }

  lemma SquareSign(a: real)
    ensures Square(a) >= 0.0
    ensures a != 0.0 ==> Square(a) > 0.0
  {
    if a != 0.0 {
      calc {
        Square(a);
      ==
        a * a;
      >
        0.0;
      }
    } else {
      calc {
        Square(a);
      ==
        0.0 * 0.0;
      ==
        0.0;
      }
    }
  }

  lemma SquareStrictlyMonotone(a: real, b: real)
    requires 0.0 <= a < b
    ensures Square(a) < Square(b)
  {
    calc {
      Square(a);
    ==
      a * a;
    <=
      a * b;
    <
      b * b;
    ==
      Square(b);
    }
  }

  lemma SquareMonotone(a: real, b: real)
    requires 0.0 <= a <= b
    ensures Square(a) <= Square(b)
  {
    if a < b {
      SquareStrictlyMonotone(a, b);
    }
  }

  /** Particles at least `2r` apart along x do not overlap. */
  lemma HorizontalGapSeparates(p: ParticleState, q: ParticleState, particleR: real)
    requires q.posX - p.posX >= 2.0 * particleR
    ensures !p.Overlaps(q, particleR)
  {
    if 0.0 < particleR {
      SquareMonotone(2.0 * particleR, q.posX - p.posX);
      SquareSign(p.posY - q.posY);
      assert Square(p.posX - q.posX) == Square(q.posX - p.posX);
    }
  }

  /** The distance is symmetric. */
  lemma DistanceSymmetric(p: ParticleState, q: ParticleState, d: real)
    ensures p.DistanceSquared(q) == q.DistanceSquared(p)
    ensures p.IsDistanceTo(q, d) <==> q.IsDistanceTo(p, d)
  {
    assert Square(p.posX - q.posX) == Square(q.posX - p.posX);
    assert Square(p.posY - q.posY) == Square(q.posY - p.posY);
  }

  /** The distance is 0 exactly between particles at the same coordinates, itself included. */
  lemma DistanceZero(p: ParticleState, q: ParticleState, d: real)
    requires p.IsDistanceTo(q, d)
    ensures d > 0.0 <==> p.posX != q.posX || p.posY != q.posY
    ensures p.IsDistanceTo(p, 0.0)
  {
    SquareSign(d);
    assert Square(0.0) == 0.0;
  }

  /**
   * The distance between `(x, y)` and `(c·x, c·y)` is `|c − 1|` times the
   * distance of `(x, y)` from the origin.
   */
  lemma DistanceOfScaledCopy(p: ParticleState, q: ParticleState, c: real)
    requires q.posX == c * p.posX && q.posY == c * p.posY
    ensures p.DistanceSquared(q) == Square(c - 1.0) * (Square(p.posX) + Square(p.posY))
  {
    assert p.posX - q.posX == (1.0 - c) * p.posX;
    assert p.posY - q.posY == (1.0 - c) * p.posY;
    assert Square((1.0 - c) * p.posX) == Square(c - 1.0) * Square(p.posX);
    assert Square((1.0 - c) * p.posY) == Square(c - 1.0) * Square(p.posY);
  }

  /** `overlaps(q, r)` holds exactly when the distance is below `2r`. */
  lemma OverlapsIffDistanceBelowDiameter(p: ParticleState, q: ParticleState, r: real, d: real)
    requires p.IsDistanceTo(q, d)
    ensures p.Overlaps(q, r) <==> d < 2.0 * r
  {
    if d < 2.0 * r {
      SquareStrictlyMonotone(d, 2.0 * r);
    }
    if 0.0 < r && d > 2.0 * r {
      SquareStrictlyMonotone(2.0 * r, d);
    }
  }

  /** `overlaps` is symmetric. */
  lemma OverlapsSymmetric(p: ParticleState, q: ParticleState, r: real)
    ensures p.Overlaps(q, r) <==> q.Overlaps(p, r)
  {
    DistanceSymmetric(p, q, 0.0);
  }

  /** A particle overlaps itself exactly when the radius is positive. */
  lemma OverlapsItself(p: ParticleState, r: real)
    ensures p.Overlaps(p, r) <==> r > 0.0
  {
    SquareSign(2.0 * r);
  }

  /**
   * Moving a particle by `√2·c·r` along both axes puts it at distance
   * `2·c·r`: it overlaps the original for `0 <= c < 1` and not for `c >= 1`.
   */
  lemma DiagonalOffsetOverlap(p: ParticleState, q: ParticleState, r: real, c: real, sqrt2: real)
    requires sqrt2 > 0.0 && sqrt2 * sqrt2 == 2.0
    requires r > 0.0 && c >= 0.0
    requires q.posX == p.posX + sqrt2 * c * r && q.posY == p.posY + sqrt2 * c * r
    ensures p.DistanceSquared(q) == Square(2.0 * c * r)
    ensures p.Overlaps(q, r) <==> c < 1.0
  {
    var cr := c * r;
    var o := sqrt2 * cr;
    assert p.posX - q.posX == -o && p.posY - q.posY == -o;
    assert Square(-o) == (sqrt2 * sqrt2) * (cr * cr);
    assert Square(2.0 * c * r) == 4.0 * (cr * cr);
    ProductNonNegative(c, r);
    OverlapsIffDistanceBelowDiameter(p, q, r, 2.0 * cr);
    if c < 1.0 {
      assert r - cr == (1.0 - c) * r;
      ProductPositive(1.0 - c, r);
    } else {
      assert cr - r == (c - 1.0) * r;
      ProductNonNegative(c - 1.0, r);
    }
  }

  /** With distinct x and distinct y coordinates `approaches` is symmetric. */
  lemma ApproachesSymmetric(p: ParticleState, q: ParticleState)
    requires p.posX != q.posX && p.posY != q.posY
    ensures p.Approaches(q) <==> q.Approaches(p)
  {
  }

  /**
   * With equal x coordinates both calls take the second branch and see
   * opposite differences: one particle approaches, the other does not.
   */
  lemma ApproachesAsymmetricOnTie()
    ensures var p := ParticleState(0, 0.0, 0.0, 1.0, 0.0);
            var q := ParticleState(1, 0.0, 1.0, 0.0, 0.0);
            !p.Approaches(q) && q.Approaches(p)
  {
  }

  /** `equals` is the equality of values, so different ids are never equal. */
  lemma EqualsIsValueEquality(p: ParticleState, q: ParticleState)
    ensures p.Equals(q) <==> p == q
    ensures p.id != q.id ==> !p.Equals(q)
  {
  }

  /** A particle object, updated in place by `move` and `setVelocity`. */
  class Particle {
    const id: int32
    var posX: real
    var posY: real
    var velocityX: real
    var velocityY: real

    function State(): ParticleState
      reads this
    {
      ParticleState(id, posX, posY, velocityX, velocityY)
    }

    constructor (id: int32, posX: real, posY: real, velocityX: real, velocityY: real)
      ensures State() == ParticleState(id, posX, posY, velocityX, velocityY)
    {
      this.id := id;
      this.posX := posX;
      this.posY := posY;
      this.velocityX := velocityX;
      this.velocityY := velocityY;
    }

    /** The copy constructor: a new object `equals` to `source`. */
    constructor Copy(source: Particle)
      ensures State() == source.State()
      ensures State().Equals(source.State())
    {
      id := source.id;
      posX := source.posX;
      posY := source.posY;
      velocityX := source.velocityX;
      velocityY := source.velocityY;
    }

    /** `move(x, y)`: sets the position, keeps id and velocity, returns this object. */
    method Move(x: real, y: real) returns (self: Particle)
      modifies this
      ensures self == this
      ensures State() == old(State()).(posX := x, posY := y)
    {
      posX, posY := x, y;
      self := this;
    }

    /** `setVelocity(vX, vY)`: sets the velocity, keeps id and position, returns this object. */
    method SetVelocity(vX: real, vY: real) returns (self: Particle)
      modifies this
      ensures self == this
      ensures State() == old(State()).(velocityX := vX, velocityY := vY)
    {
      velocityX, velocityY := vX, vY;
      self := this;
    }
  }
}
