/**
 * The collision of particles with the box walls and the barrier: the last
 * pass of a simulation step. It is a decision table over a particle's
 * position and velocity against bounds derived from the settings.
 */
module Geometry {
  import opened Ieee
  import opened Particles
  import opened Settings

  /** The bounds a simulation step tests particles against. */
  datatype Bounds = Bounds(
    leftParticle: real, rightParticle: real, topParticle: real, bottomParticle: real,
    holeLeft: real, holeRight: real, holeTop: real, holeBottom: real,
    holeLeftParticle: real, holeRightParticle: real, holeTopParticle: real, holeBottomParticle: real,
    barrierPosX: real, speedDeltaTop: real, speedDeltaSides: real, speedDeltaBottom: real)

  /**
   * The bounds as the step computes them. The hole's horizontal extent is
   * taken from half the box width, and every hole bound is shifted by minus
   * the radius; both are kept as written.
   */
  function BoundsOf(s: ExperimentSettings): (b: Bounds)
    ensures b.leftParticle == Float32Value(s.particleRadius)
    ensures b.rightParticle == Float32Value(s.boxWidth) - Float32Value(s.particleRadius)
    ensures b.topParticle == Float32Value(s.boxHeight) - Float32Value(s.particleRadius)
    ensures b.bottomParticle == Float32Value(s.particleRadius)
    ensures b.holeRightParticle - b.holeLeftParticle == Float32Value(s.boxWidth)
    ensures b.holeTop - b.holeBottom == Float32Value(s.holeHeight)
    // the hole band is centred on the barrier but as wide as the box
    ensures b.holeLeft == Float32Value(s.barrierPosX) - Float32Value(s.boxWidth) / 2.0
    ensures b.holeRight == Float32Value(s.barrierPosX) + Float32Value(s.boxWidth) / 2.0
    ensures b.holeTop + b.holeBottom == 2.0 * Float32Value(s.holePosY)
    // every hole particle bound is the hole bound minus the radius, on all four sides
    ensures b.holeLeftParticle == b.holeLeft - Float32Value(s.particleRadius)
    ensures b.holeRightParticle == b.holeRight - Float32Value(s.particleRadius)
    ensures b.holeTopParticle == b.holeTop - Float32Value(s.particleRadius)
    ensures b.holeBottomParticle == b.holeBottom - Float32Value(s.particleRadius)
  {
    var r := Float32Value(s.particleRadius);
    var width, height := Float32Value(s.boxWidth), Float32Value(s.boxHeight);
    var holeLeft := Float32Value(s.barrierPosX) - width / 2.0;
    var holeRight := Float32Value(s.barrierPosX) + width / 2.0;
    var holeTop := Float32Value(s.holePosY) + Float32Value(s.holeHeight) / 2.0;
    var holeBottom := Float32Value(s.holePosY) - Float32Value(s.holeHeight) / 2.0;
    Bounds(
      0.0 + r, width - r, height - r, 0.0 + r,
      holeLeft, holeRight, holeTop, holeBottom,
      holeLeft - r, holeRight - r, holeTop - r, holeBottom - r,
      Float32Value(s.barrierPosX),
      Float32Value(s.speedDeltaTop), Float32Value(s.speedDeltaSides), Float32Value(s.speedDeltaBottom))
  }

  /** The first half of the table: the box top and bottom. */
  function TopBottom(b: Bounds, p: ParticleState): (q: ParticleState)
    ensures q.id == p.id && q.posX == p.posX && q.velocityX == p.velocityX
  {
    if p.posY > b.topParticle && p.velocityY > 0.0 then
      p.(posY := b.topParticle, velocityY := -p.velocityY - b.speedDeltaTop)
    else if p.posY < b.bottomParticle && p.velocityY < 0.0 then
      p.(posY := b.bottomParticle, velocityY := -p.velocityY + b.speedDeltaBottom)
    else
      p
  }

  /** The second half: the box sides, then the hole and the barrier faces. */
  function SidesAndBarrier(b: Bounds, p: ParticleState): (q: ParticleState)
    ensures q.id == p.id
  {
    var x, y, vX, vY := p.posX, p.posY, p.velocityX, p.velocityY;
    if x < b.leftParticle && vX < 0.0 then
      p.(posX := b.leftParticle, velocityX := -vX + b.speedDeltaSides)
    else if x > b.rightParticle && vX > 0.0 then
      p.(posX := b.rightParticle, velocityX := -vX - b.speedDeltaSides)
    else if x > b.holeLeftParticle && x < b.holeRightParticle then
      if x > b.holeLeft && x < b.holeRight then
        if y > b.holeTopParticle && vY > 0.0 then
          p.(posY := b.holeTopParticle, velocityY := -vY - b.speedDeltaTop)
        else if y < b.holeBottomParticle && vY < 0.0 then
          p.(posY := b.holeBottomParticle, velocityY := -vY + b.speedDeltaBottom)
        else
          p
      else if y > b.holeTop || y < b.holeBottom then
        if x < b.barrierPosX && vX > 0.0 then
          p.(posX := b.holeLeftParticle, velocityX := -vX - b.speedDeltaSides)
        else if x > b.barrierPosX && vX < 0.0 then
          p.(posX := b.holeRightParticle, velocityX := -vX + b.speedDeltaSides)
        else
          p
      else
        p
    else
      p
  }

  /** The whole table, applied to one particle. */
  function GeometryStep(b: Bounds, p: ParticleState): (q: ParticleState)
    ensures q.id == p.id
  {
    SidesAndBarrier(b, TopBottom(b, p))
  }

  /** `p` lies in the band the hole tests cover. */
  predicate InHoleBand(b: Bounds, p: ParticleState)
  {
    b.holeLeftParticle < p.posX < b.holeRightParticle
  }

  /** None of the conditions of the table holds for `p`. */
  predicate TripsNothing(b: Bounds, p: ParticleState)
  {
    var x, y, vX, vY := p.posX, p.posY, p.velocityX, p.velocityY;
    !(y > b.topParticle && vY > 0.0)
    && !(y < b.bottomParticle && vY < 0.0)
    && !(x < b.leftParticle && vX < 0.0)
    && !(x > b.rightParticle && vX > 0.0)
    && (InHoleBand(b, p) && b.holeLeft < x < b.holeRight ==>
          !(y > b.holeTopParticle && vY > 0.0) && !(y < b.holeBottomParticle && vY < 0.0))
    && (InHoleBand(b, p) && !(b.holeLeft < x < b.holeRight) && (y > b.holeTop || y < b.holeBottom) ==>
          !(x < b.barrierPosX && vX > 0.0) && !(x > b.barrierPosX && vX < 0.0))
  }

  /** A particle that meets no condition keeps its position and velocity. */
  lemma UntouchedParticleUnchanged(b: Bounds, p: ParticleState)
    requires TripsNothing(b, p)
    ensures GeometryStep(b, p) == p
  {
  }

  /**
   * At the top, a particle above the bound moving up is put on the bound
   * and sent down, faster by `speedDeltaTop` (away from the hole band, whose
   * tests could move it again).
   */
  lemma TopWallReflects(b: Bounds, p: ParticleState)
    requires p.posY > b.topParticle && p.velocityY > 0.0 && !InHoleBand(b, p)
    ensures GeometryStep(b, p).posY == b.topParticle
    ensures GeometryStep(b, p).velocityY == -p.velocityY - b.speedDeltaTop
    ensures b.speedDeltaTop >= 0.0 ==> GeometryStep(b, p).velocityY < 0.0
  {
  }

  /** At the bottom, symmetrically: the particle is sent up. */
  lemma BottomWallReflects(b: Bounds, p: ParticleState)
    requires p.posY < b.bottomParticle && p.velocityY < 0.0 && !InHoleBand(b, p)
    ensures GeometryStep(b, p).posY == b.bottomParticle
    ensures GeometryStep(b, p).velocityY == -p.velocityY + b.speedDeltaBottom
    ensures b.speedDeltaBottom >= 0.0 ==> GeometryStep(b, p).velocityY > 0.0
  {
  }

  /** At the left side the particle is put on the bound and sent right; y is only the top/bottom rule's. */
  lemma LeftWallReflects(b: Bounds, p: ParticleState)
    requires p.posX < b.leftParticle && p.velocityX < 0.0
    ensures GeometryStep(b, p).posX == b.leftParticle
    ensures GeometryStep(b, p).velocityX == -p.velocityX + b.speedDeltaSides
    ensures b.speedDeltaSides >= 0.0 ==> GeometryStep(b, p).velocityX > 0.0
    ensures GeometryStep(b, p).posY == TopBottom(b, p).posY
    ensures GeometryStep(b, p).velocityY == TopBottom(b, p).velocityY
  {
  }

  /** At the right side the particle is put on the bound and sent left. */
  lemma RightWallReflects(b: Bounds, p: ParticleState)
    requires p.posX > b.rightParticle && p.velocityX > 0.0 && !(p.posX < b.leftParticle)
    ensures GeometryStep(b, p).posX == b.rightParticle
    ensures GeometryStep(b, p).velocityX == -p.velocityX - b.speedDeltaSides
    ensures b.speedDeltaSides >= 0.0 ==> GeometryStep(b, p).velocityX < 0.0
    ensures GeometryStep(b, p).posY == TopBottom(b, p).posY
  {
  }

  /**
   * A particle in the hole band, outside the inner band and above or below
   * the hole, moving towards the barrier from the left, is put on the left
   * face and sent back.
   */
  lemma BarrierLeftFaceReflects(b: Bounds, p: ParticleState)
    requires !(p.posY > b.topParticle && p.velocityY > 0.0) && !(p.posY < b.bottomParticle && p.velocityY < 0.0)
    requires !(p.posX < b.leftParticle && p.velocityX < 0.0) && !(p.posX > b.rightParticle && p.velocityX > 0.0)
    requires InHoleBand(b, p) && !(b.holeLeft < p.posX < b.holeRight)
    requires p.posY > b.holeTop || p.posY < b.holeBottom
    requires p.posX < b.barrierPosX && p.velocityX > 0.0
    ensures GeometryStep(b, p) == p.(posX := b.holeLeftParticle, velocityX := -p.velocityX - b.speedDeltaSides)
    ensures b.speedDeltaSides >= 0.0 ==> GeometryStep(b, p).velocityX < 0.0
  {
  }

  /** The same from the right: put on the right face and sent back. */
  lemma BarrierRightFaceReflects(b: Bounds, p: ParticleState)
    requires !(p.posY > b.topParticle && p.velocityY > 0.0) && !(p.posY < b.bottomParticle && p.velocityY < 0.0)
    requires !(p.posX < b.leftParticle && p.velocityX < 0.0) && !(p.posX > b.rightParticle && p.velocityX > 0.0)
    requires InHoleBand(b, p) && !(b.holeLeft < p.posX < b.holeRight)
    requires p.posY > b.holeTop || p.posY < b.holeBottom
    requires p.posX > b.barrierPosX && p.velocityX < 0.0
    ensures GeometryStep(b, p) == p.(posX := b.holeRightParticle, velocityX := -p.velocityX + b.speedDeltaSides)
    ensures b.speedDeltaSides >= 0.0 ==> GeometryStep(b, p).velocityX > 0.0
  {
  }

  /**
   * Inside the hole, a particle above the hole's upper bound moving up is
   * put on that bound and sent down, by the rule of the box top.
   */
  lemma HoleTopReflects(b: Bounds, p: ParticleState)
    requires !(p.posY > b.topParticle && p.velocityY > 0.0) && !(p.posY < b.bottomParticle && p.velocityY < 0.0)
    requires !(p.posX < b.leftParticle && p.velocityX < 0.0) && !(p.posX > b.rightParticle && p.velocityX > 0.0)
    requires InHoleBand(b, p) && b.holeLeft < p.posX < b.holeRight
    requires p.posY > b.holeTopParticle && p.velocityY > 0.0
    ensures GeometryStep(b, p) == p.(posY := b.holeTopParticle, velocityY := -p.velocityY - b.speedDeltaTop)
    ensures b.speedDeltaTop >= 0.0 ==> GeometryStep(b, p).velocityY < 0.0
  {
  }

  /** Inside the hole, below its lower bound and moving down: put on the bound and sent up. */
  lemma HoleBottomReflects(b: Bounds, p: ParticleState)
    requires !(p.posY > b.topParticle && p.velocityY > 0.0) && !(p.posY < b.bottomParticle && p.velocityY < 0.0)
    requires !(p.posX < b.leftParticle && p.velocityX < 0.0) && !(p.posX > b.rightParticle && p.velocityX > 0.0)
    requires InHoleBand(b, p) && b.holeLeft < p.posX < b.holeRight
    requires p.posY < b.holeBottomParticle && p.velocityY < 0.0
    ensures GeometryStep(b, p) == p.(posY := b.holeBottomParticle, velocityY := -p.velocityY + b.speedDeltaBottom)
    ensures b.speedDeltaBottom >= 0.0 ==> GeometryStep(b, p).velocityY > 0.0
  {
  }
}
