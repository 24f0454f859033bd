/**
 * The particle-particle pass of a simulation step, as a function on the
 * particle values in array order: a sweep over pairs `(i, j)`, `i < j < n`,
 * that stops a row at the first `j` whose vertical gap exceeds `2r` and
 * resolves a pair only when it overlaps and approaches.
 */
module Collisions {
  import opened Particles

  /** New velocities for both partners, already scaled by the speed-loss factor. */
  datatype Velocities = Velocities(v1X: real, v1Y: real, v2X: real, v2Y: real)

  /** How far the pushed partner moves along the line of centres: `needToMove·cos`, `needToMove·sin`. */
  datatype Offset = Offset(dx: real, dy: real)

  /**
   * The numerics of a collision, which the model does not compute:
   * the elastic-exchange formulas (with `sqrt`, `sin`, `cos` and the
   * speed-loss factor) and the separation vector.
   */
  datatype CollisionModel = CollisionModel(
    velocities: (ParticleState, ParticleState) -> Velocities,
    push: (ParticleState, ParticleState) -> Offset)

  /**
   * Resolving the pair `(i, j)`: both get new velocities; then the upper
   * one (`dY > 0`: `i`) is pushed forward, otherwise `j` is pushed back.
   */
  function Resolve(ps: seq<ParticleState>, i: nat, j: nat, m: CollisionModel): (qs: seq<ParticleState>)
    requires i < |ps| && j < |ps| && i != j
    ensures |qs| == |ps|
    ensures forall k :: 0 <= k < |ps| && k != i && k != j ==> qs[k] == ps[k]
    ensures qs[i].id == ps[i].id && qs[j].id == ps[j].id
    ensures ps[i].posY - ps[j].posY > 0.0 ==> qs[j].posX == ps[j].posX && qs[j].posY == ps[j].posY
    ensures ps[i].posY - ps[j].posY <= 0.0 ==> qs[i].posX == ps[i].posX && qs[i].posY == ps[i].posY
  {
    var a, b := ps[i], ps[j];
    var v := m.velocities(a, b);
    var a1 := a.(velocityX := v.v1X, velocityY := v.v1Y);
    var b1 := b.(velocityX := v.v2X, velocityY := v.v2Y);
    var o := m.push(a, b);
    if a.posY - b.posY > 0.0 then
      ps[i := a1.(posX := a.posX + o.dx, posY := a.posY + o.dy)][j := b1]
    else
      ps[i := a1][j := b1.(posX := b.posX - o.dx, posY := b.posY - o.dy)]
  }

  /** The pair `(i, j)` is resolved: it overlaps and approaches. */
  predicate Collides(ps: seq<ParticleState>, i: nat, j: nat, particleR: real)
    requires i < |ps| && j < |ps|
  {
    ps[i].Overlaps(ps[j], particleR) && ps[i].Approaches(ps[j])
  }

  /** The inner loop for row `i`, from column `j` on. */
  function ScanRow(ps: seq<ParticleState>, n: nat, i: nat, j: nat, particleR: real, m: CollisionModel)
    : (qs: seq<ParticleState>)
    requires n <= |ps| && i < j
    requires i < n
    ensures |qs| == |ps|
    ensures forall k :: 0 <= k < |ps| ==> qs[k].id == ps[k].id
    ensures forall k :: 0 <= k < |ps| && k != i && (k < j || n <= k) ==> qs[k] == ps[k]
    decreases n - j
  {
    if j >= n then ps
    else if ps[j].posY - ps[i].posY > 2.0 * particleR then ps
    else
      var next := if Collides(ps, i, j, particleR) then Resolve(ps, i, j, m) else ps;
      ScanRow(next, n, i, j + 1, particleR, m)
  }

  /** The outer loop, from row `i` on. */
  function ScanFrom(ps: seq<ParticleState>, n: nat, i: nat, particleR: real, m: CollisionModel)
    : (qs: seq<ParticleState>)
    requires n <= |ps|
    ensures |qs| == |ps|
    ensures forall k :: 0 <= k < |ps| ==> qs[k].id == ps[k].id
    ensures forall k :: n <= k < |ps| ==> qs[k] == ps[k]
    decreases n - i
  {
    if i >= n then ps
    else ScanFrom(ScanRow(ps, n, i, i + 1, particleR, m), n, i + 1, particleR, m)
  }

  /** The whole pair pass over the first `n` particles. */
  function PairScan(ps: seq<ParticleState>, n: nat, particleR: real, m: CollisionModel): (qs: seq<ParticleState>)
    requires n <= |ps|
  {
    ScanFrom(ps, n, 0, particleR, m)
  }

  predicate SortedByY(ps: seq<ParticleState>)
  {
    forall a, b :: 0 <= a < b < |ps| ==> ps[a].posY <= ps[b].posY
  }

  /** No pair among the first `n` particles both overlaps and approaches. */
  predicate Separated(ps: seq<ParticleState>, n: nat, particleR: real)
    requires n <= |ps|
  {
    forall a, b :: 0 <= a < b < n ==> !(ps[a].Overlaps(ps[b], particleR) && ps[a].Approaches(ps[b]))
  }

  lemma {:induction false} ScanRowSeparated(ps: seq<ParticleState>, n: nat, i: nat, j: nat, particleR: real, m: CollisionModel)
    requires n <= |ps| && i < j && i < n
    requires Separated(ps, n, particleR)
    ensures ScanRow(ps, n, i, j, particleR, m) == ps
    decreases n - j
  {
    if j < n && !(ps[j].posY - ps[i].posY > 2.0 * particleR) {
      ScanRowSeparated(ps, n, i, j + 1, particleR, m);
    }
  }

  lemma {:induction false} ScanFromSeparated(ps: seq<ParticleState>, n: nat, i: nat, particleR: real, m: CollisionModel)
    requires n <= |ps|
    requires Separated(ps, n, particleR)
    ensures ScanFrom(ps, n, i, particleR, m) == ps
    decreases n - i
  {
    if i < n {
      ScanRowSeparated(ps, n, i, i + 1, particleR, m);
      ScanFromSeparated(ps, n, i + 1, particleR, m);
    }
  }

  /** When no pair both overlaps and approaches, the pair pass changes nothing. */
  lemma SeparatedParticlesUnchanged(ps: seq<ParticleState>, n: nat, particleR: real, m: CollisionModel)
    requires n <= |ps|
    requires Separated(ps, n, particleR)
    ensures PairScan(ps, n, particleR, m) == ps
  {
    ScanFromSeparated(ps, n, 0, particleR, m);
  }

  /** A vertical gap above `2r` rules out an overlap. */
  lemma VerticalGapSeparates(p: ParticleState, q: ParticleState, particleR: real)
    requires q.posY - p.posY > 2.0 * particleR
    ensures !p.Overlaps(q, particleR)
  {
    if 0.0 < particleR {
      SquareStrictlyMonotone(2.0 * particleR, q.posY - p.posY);
      SquareSign(p.posX - q.posX);
      assert Square(p.posY - q.posY) == Square(q.posY - p.posY);
    }
  }

  /**
   * On particles sorted by `posY`, the early `break` skips no overlapping
   * pair: every later column is at least as far above.
   */
  lemma BreakSkipsNoOverlap(ps: seq<ParticleState>, i: nat, j: nat, particleR: real)
    requires SortedByY(ps) && i < j < |ps|
    requires ps[j].posY - ps[i].posY > 2.0 * particleR
    ensures forall k :: j <= k < |ps| ==> !ps[i].Overlaps(ps[k], particleR)
  {
    forall k | j <= k < |ps|
      ensures !ps[i].Overlaps(ps[k], particleR)
    {
      VerticalGapSeparates(ps[i], ps[k], particleR);
    }
  }

  /** Two particles closer than `2r` can collide only with a positive radius, and never one with itself. */
  lemma CollidingPairDistinctPlaces(ps: seq<ParticleState>, i: nat, j: nat, particleR: real)
    requires i < |ps| && j < |ps| && Collides(ps, i, j, particleR)
    ensures particleR > 0.0
    ensures ps[i].posX != ps[j].posX || ps[i].posY != ps[j].posY || ps[i].velocityX != ps[j].velocityX
              || ps[i].velocityY != ps[j].velocityY
  {
  }
}
