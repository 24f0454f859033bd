/**
 * The simulation engine: the random initial packing of both halves of the
 * box and one time step (copy and move, sort by height, the pair pass and
 * the wall pass).
 */
module Simulation {
  import opened JavaTypes
  import opened Ieee
  import opened Particles
  import opened Settings
  import opened States
  import opened Geometry
  import opened Collisions

  /** `Math.PI`. */
  const Pi: real := 3.141592653589793

  /**
   * `x` is a value `generateDouble(lo, hi)` can return: `d·(hi − lo) + lo`
   * for a draw `0 <= d < 1`, so in `[lo, hi)`, or `(hi, lo]` when the bounds
   * are the wrong way round.
   */
  predicate InDrawRange(x: real, lo: real, hi: real)
  {
    if lo <= hi then lo <= x && (x < hi || x == lo) else hi < x <= lo
  }

  /** A product kept as one term, so that the solver reasons about it linearly. */
  function Times(d: real, w: real): real { d * w }

  lemma ScaledBelow(d: real, w: real)
    requires 0.0 <= d < 1.0 && w > 0.0
    ensures 0.0 <= Times(d, w) < w
  {
    ProductNonNegative(d, w);
    ProductPositive(1.0 - d, w);
    calc {
      w - Times(d, w);
    ==
      (1.0 - d) * w;
    >
      0.0;
    }
  }

  lemma DrawInRange(d: real, lo: real, hi: real)
    requires 0.0 <= d < 1.0
    ensures InDrawRange(d * (hi - lo) + lo, lo, hi)
  {
    assert d * (hi - lo) == Times(d, hi - lo);
    if lo < hi {
      ScaledBelow(d, hi - lo);
    } else if lo > hi {
      ScaledBelow(d, lo - hi);
      assert Times(d, hi - lo) == -Times(d, lo - hi);
    } else {
      assert Times(d, hi - lo) == 0.0;
    }
  }

  // --- the regions the initial packing draws from -----------------------

  function Radius(s: ExperimentSettings): real { Float32Value(s.particleRadius) }
  function LowY(s: ExperimentSettings): real { 0.0 + Radius(s) }
  function HighY(s: ExperimentSettings): real { Float32Value(s.boxHeight) - Radius(s) }
  function LeftLowX(s: ExperimentSettings): real { 0.0 + Radius(s) }
  function LeftHighX(s: ExperimentSettings): real
  {
    Float32Value(s.barrierPosX) - Float32Value(s.barrierWidth) / 2.0 - Radius(s)
  }
  function RightLowX(s: ExperimentSettings): real
  {
    Float32Value(s.barrierPosX) + Float32Value(s.barrierWidth) / 2.0 + Radius(s)
  }
  /** The right-hand bound is the box width itself, not the width less the radius. */
  function RightHighX(s: ExperimentSettings): real { 0.0 + Float32Value(s.boxWidth) }

  /** The id of array slot `i`: `2i` for the left half, `2i + 1` for the right, in `int` arithmetic. */
  function AssignedId(i: int, left: int): int32
  {
    if i < left then Wrap32(2 * i) else Wrap32(2 * i + 1)
  }

  /** Slot `i` of the left half holds a particle placed as the source places it. */
  predicate PlacedLeft(s: ExperimentSettings, p: ParticleState, i: int)
  {
    p.id == Wrap32(2 * i)
    && InDrawRange(p.posX, LeftLowX(s), LeftHighX(s))
    && InDrawRange(p.posY, LowY(s), HighY(s))
  }

  /** Slot `i` of the right half, likewise. */
  predicate PlacedRight(s: ExperimentSettings, p: ParticleState, i: int)
  {
    p.id == Wrap32(2 * i + 1)
    && InDrawRange(p.posX, RightLowX(s), RightHighX(s))
    && InDrawRange(p.posY, LowY(s), HighY(s))
  }

  /** A candidate position, as `overlaps` sees it: only the position counts. */
  function Candidate(x: real, y: real): ParticleState
  {
    ParticleState(0, x, y, 0.0, 0.0)
  }

  lemma OverlapsSeesOnlyPositions(p: ParticleState, q: ParticleState, particleR: real)
    ensures q.Overlaps(p, particleR) <==> Candidate(p.posX, p.posY).Overlaps(q, particleR)
  {
    OverlapsSymmetric(q, Candidate(p.posX, p.posY), particleR);
  }

  lemma Wrap32Injective(x: int, y: int)
    requires 0 <= x < y < 0x1_0000_0000
    ensures Wrap32(x) != Wrap32(y)
  {
  }

  /** Distinct slots get distinct ids; left ids are even and right ids odd. */
  lemma AssignedIdsDistinct(left: int, a: int, b: int)
    requires 0 <= a < b <= Int32Max
    ensures AssignedId(a, left) != AssignedId(b, left)
    ensures a < left ==> AssignedId(a, left) % 2 == 0
    ensures a >= left ==> AssignedId(a, left) % 2 == 1
  {
    var x := if a < left then 2 * a else 2 * a + 1;
    var y := if b < left then 2 * b else 2 * b + 1;
    if x < y {
      Wrap32Injective(x, y);
    } else {
      Wrap32Injective(y, x);
    }
  }

  /**
   * With a barrier of non-negative width, and both regions the right way
   * round, no left particle overlaps a right particle: they are at least
   * `w + 2r` apart along x.
   */
  lemma HalvesNeverOverlap(s: ExperimentSettings, p: ParticleState, i: int, q: ParticleState, j: int)
    requires Float32Value(s.barrierWidth) >= 0.0
    requires LeftLowX(s) <= LeftHighX(s) && RightLowX(s) <= RightHighX(s)
    requires PlacedLeft(s, p, i) && PlacedRight(s, q, j)
    ensures !p.Overlaps(q, Radius(s))
    ensures !q.Overlaps(p, Radius(s))
  {
    HorizontalGapSeparates(p, q, Radius(s));
    OverlapsSymmetric(p, q, Radius(s));
  }

  /**
   * The placement invariant of the initial packing: every slot lies in its
   * half's region with its assigned id, and no two particles of the same
   * half overlap.
   */
  ghost predicate Packed(s: ExperimentSettings, st: seq<ParticleState>)
  {
    var left := s.particleCountLeft;
    (forall k :: 0 <= k < |st| && k < left ==> PlacedLeft(s, st[k], k))
    && (forall k :: 0 <= k < |st| && left <= k ==> PlacedRight(s, st[k], k))
    && (forall a, b :: 0 <= a < b < |st| && b < left ==> !st[a].Overlaps(st[b], Radius(s)))
    && (forall a, b :: 0 <= a < b < |st| && left <= a ==> !st[a].Overlaps(st[b], Radius(s)))
  }

  /** Appending an accepted candidate keeps the placement invariant. */
  lemma PackedExtend(s: ExperimentSettings, st: seq<ParticleState>, p: ParticleState)
    requires 0 <= s.particleCountLeft
    requires Packed(s, st)
    requires |st| < s.particleCountLeft ==> PlacedLeft(s, p, |st|)
    requires |st| >= s.particleCountLeft ==> PlacedRight(s, p, |st|)
    requires forall k :: (if |st| < s.particleCountLeft then 0 else s.particleCountLeft) <= k < |st| ==>
               !Candidate(p.posX, p.posY).Overlaps(st[k], Radius(s))
    ensures Packed(s, st + [p])
  {
    var from := if |st| < s.particleCountLeft then 0 else s.particleCountLeft;
    forall k | from <= k < |st|
      ensures !st[k].Overlaps(p, Radius(s))
    {
      OverlapsSeesOnlyPositions(p, st[k], Radius(s));
    }
  }

  /** Under the packing invariant, all ids differ and no particle of one half overlaps one of the other. */
  lemma PackedIdsAndHalves(s: ExperimentSettings, st: seq<ParticleState>, a: int, b: int)
    requires Packed(s, st) && 0 <= s.particleCountLeft <= |st| <= Int32Max
    requires 0 <= a < b < |st|
    requires Float32Value(s.barrierWidth) >= 0.0
    requires LeftLowX(s) <= LeftHighX(s) && RightLowX(s) <= RightHighX(s)
    ensures st[a].id != st[b].id
    ensures !st[a].Overlaps(st[b], Radius(s))
  {
    var left := s.particleCountLeft;
    assert st[a].id == AssignedId(a, left) && st[b].id == AssignedId(b, left);
    AssignedIdsDistinct(left, a, b);
    if a < left && left <= b {
      HalvesNeverOverlap(s, st[a], a, st[b], b);
    }
  }

  // --- the overlap test as written ------------------------------------

  /**
   * The inner `for` loop of either placement loop as the source writes it:
   * it tests `particles[i]`, the slot being filled, against slots
   * `[j, i)`. Slots are `None` until assigned, and calling a method on an
   * unassigned slot, or passing one to `overlaps`, is a null dereference.
   */
  function AsWrittenTouching(filled: seq<Option<ParticleState>>, i: nat, j: nat, particleR: real): (r: Result<bool>)
    requires j <= i < |filled|
    ensures r == Success(true) ==> exists k :: j <= k < i && filled[k].Some? && filled[i].Some?
    decreases i - j
  {
    if j >= i then Success(false)
    else if filled[i].None? || filled[j].None? then Failure(NullPointer)
    else if filled[i].value.Overlaps(filled[j].value, particleR) then Success(true)
    else AsWrittenTouching(filled, i, j + 1, particleR)
  }

  /** The slots of the array while slot `i` is being placed: the first `i` are filled, the rest are not. */
  predicate FilledUpTo(filled: seq<Option<ParticleState>>, i: nat)
  {
    i <= |filled| && forall k :: 0 <= k < |filled| ==> (filled[k].Some? <==> k < i)
  }

  /**
   * As written, the overlap test throws as soon as the loop has an earlier
   * slot to compare with: for the second particle of the left half
   * (`from == 0 < i`) and for the second particle of the right half
   * (`from == left < i`). So any settings with two or more particles in a
   * half make `initialDistribution` throw.
   */
  lemma AsWrittenTouchingThrows(filled: seq<Option<ParticleState>>, i: nat, from: nat, particleR: real)
    requires i < |filled| && FilledUpTo(filled, i) && from < i
    ensures AsWrittenTouching(filled, i, from, particleR) == Failure(NullPointer)
  {
  }

  /** The left half of two particles: placing slot 1 throws. */
  lemma AsWrittenTwoLeftParticlesThrow(p: ParticleState, particleR: real)
    ensures AsWrittenTouching([Some(p), None], 1, 0, particleR) == Failure(NullPointer)
  {
  }

  // --- the step, as functions on particle values ------------------------

  /** `new Particle(p).move(deltaTime, g)`: the position becomes `(deltaTime, g)` as written. */
  function MovedAll(ps: seq<ParticleState>, deltaTime: int64, g: real): (qs: seq<ParticleState>)
    ensures |qs| == |ps|
    ensures forall k :: 0 <= k < |ps| ==> qs[k] == ps[k].(posX := deltaTime as real, posY := g)
  {
    seq(|ps|, k requires 0 <= k < |ps| => ps[k].(posX := deltaTime as real, posY := g))
  }

  /** The wall pass over every particle. */
  function GeometryAll(b: Bounds, ps: seq<ParticleState>): (qs: seq<ParticleState>)
    ensures |qs| == |ps|
    ensures forall k :: 0 <= k < |ps| ==> qs[k] == GeometryStep(b, ps[k])
  {
    seq(|ps|, k requires 0 <= k < |ps| => GeometryStep(b, ps[k]))
  }

  function IdsOf(ps: seq<ParticleState>): (ids: seq<int32>)
    ensures |ids| == |ps|
    ensures forall k :: 0 <= k < |ps| ==> ids[k] == ps[k].id
  {
    seq(|ps|, k requires 0 <= k < |ps| => ps[k].id)
  }

  lemma IdsOfConcat(ps: seq<ParticleState>, qs: seq<ParticleState>)
    ensures IdsOf(ps + qs) == IdsOf(ps) + IdsOf(qs)
  {
  }

  /** Taking slot `k` out of a sequence takes its particle out of the multiset, and its id out of the ids. */
  lemma RemoveAt(qs: seq<ParticleState>, k: nat) returns (rest: seq<ParticleState>)
    requires k < |qs|
    ensures |rest| == |qs| - 1
    ensures multiset(rest) == multiset(qs) - multiset{qs[k]}
    ensures multiset(IdsOf(qs)) == multiset(IdsOf(rest)) + multiset{qs[k].id}
  {
    rest := qs[..k] + qs[k + 1..];
    assert qs == qs[..k] + [qs[k]] + qs[k + 1..];
    IdsOfConcat(qs[..k] + [qs[k]], qs[k + 1..]);
    IdsOfConcat(qs[..k], [qs[k]]);
    IdsOfConcat(qs[..k], qs[k + 1..]);
    assert IdsOf([qs[k]]) == [qs[k].id];
  }

  /** Rearranging particles rearranges their ids the same way. */
  lemma {:induction false} PermutationKeepsIds(ps: seq<ParticleState>, qs: seq<ParticleState>)
    requires multiset(ps) == multiset(qs)
    ensures multiset(IdsOf(ps)) == multiset(IdsOf(qs))
    decreases |ps|
  {
    if |ps| == 0 {
      assert |qs| == 0;
    } else {
      var x := ps[0];
      assert x in multiset(qs);
      var k :| 0 <= k < |qs| && qs[k] == x;
      var rest := RemoveAt(qs, k);
      var tail := RemoveAt(ps, 0);
      PermutationKeepsIds(tail, rest);
    }
  }

  /**
   * A step keeps the multiset of ids: copying and moving keeps each id in its
   * slot, the sort only rearranges, and the pair and wall passes keep each
   * id in its slot again.
   */
  lemma StepKeepsIds(input: seq<ParticleState>, deltaTime: int64, g: real, sorted: seq<ParticleState>,
                     n: nat, particleR: real, m: CollisionModel, b: Bounds)
    requires n <= |sorted| && multiset(sorted) == multiset(MovedAll(input, deltaTime, g))
    ensures multiset(IdsOf(GeometryAll(b, PairScan(sorted, n, particleR, m)))) == multiset(IdsOf(input))
  {
    var moved := MovedAll(input, deltaTime, g);
    assert IdsOf(GeometryAll(b, PairScan(sorted, n, particleR, m))) == IdsOf(sorted);
    PermutationKeepsIds(sorted, moved);
    assert IdsOf(moved) == IdsOf(input);
  }

  /**
   * `next` is what `nextTimeStep(prev, deltaTime)` returns when its sort
   * puts the moved copies in the order `sorted`: the moved copies sorted by
   * height, the pair pass over the first `left + right` of them, the wall
   * pass over all of them, and the time moved on by `deltaTime` as a `long`.
   */
  ghost predicate StepVia(s: ExperimentSettings, prev: StateSnapshot, next: StateSnapshot, deltaTime: int64,
                          m: CollisionModel, sorted: seq<ParticleState>)
  {
    var moved := MovedAll(prev.particles, deltaTime, Float32Value(s.g));
    var n := s.ParticleCount();
    var scan := if n < 0 then 0 else if n > |sorted| then |sorted| else n;
    SortedByY(sorted) && multiset(sorted) == multiset(moved)
    && next.time == Wrap64(prev.time + deltaTime)
    && next.particles == GeometryAll(BoundsOf(s), PairScan(sorted, scan, Radius(s), m))
  }

  /** `next` is a state `nextTimeStep(prev, deltaTime)` can return, for some order of equal heights. */
  ghost predicate IsNextTimeStep(s: ExperimentSettings, prev: StateSnapshot, next: StateSnapshot, deltaTime: int64,
                                 m: CollisionModel)
  {
    exists sorted :: StepVia(s, prev, next, deltaTime, m, sorted)
  }

  /** A step keeps the particle count and the multiset of ids. */
  lemma NextTimeStepKeepsIds(s: ExperimentSettings, prev: StateSnapshot, next: StateSnapshot, deltaTime: int64,
                             m: CollisionModel)
    requires IsNextTimeStep(s, prev, next, deltaTime, m)
    ensures |next.particles| == |prev.particles|
    ensures multiset(IdsOf(next.particles)) == multiset(IdsOf(prev.particles))
  {
    var sorted :| StepVia(s, prev, next, deltaTime, m, sorted);
    var n := s.ParticleCount();
    var scan := if n < 0 then 0 else if n > |sorted| then |sorted| else n;
    StepKeepsIds(prev.particles, deltaTime, Float32Value(s.g), sorted, scan, Radius(s), m, BoundsOf(s));
    assert |multiset(sorted)| == |sorted| && |multiset(MovedAll(prev.particles, deltaTime, Float32Value(s.g)))| == |prev.particles|;
  }

  // --- the step, on the array of particle objects ------------------------

  /** No object appears twice in the array. */
  predicate Distinct(a: array<Particle>)
    reads a
  {
    DistinctRefs(a[..])
  }

  predicate DistinctRefs(r: seq<Particle>)
  {
    forall x, y :: 0 <= x < y < |r| ==> r[x] != r[y]
  }

  /** The objects `r` hold the particle values `st`, slot by slot. */
  ghost predicate Mirrors(r: seq<Particle>, st: seq<ParticleState>)
    reads r
  {
    |r| == |st| && forall k :: 0 <= k < |r| ==> r[k].State() == st[k]
  }

  /** `new Particle(particles[i]).move(deltaTime, g)` for every slot: fresh copies, the originals untouched. */
  method CopyAndMove(particles: array<Particle>, deltaTime: int64, g: real) returns (moved: array<Particle>)
    ensures fresh(moved) && moved.Length == particles.Length
    ensures forall k :: 0 <= k < moved.Length ==> fresh(moved[k])
    ensures Distinct(moved)
    ensures StatesOf(moved) == MovedAll(StatesOf(particles), deltaTime, g)
  {
    ghost var before := StatesOf(particles);
    var copies: seq<Particle> := [];
    var i := 0;
    while i < particles.Length
      invariant 0 <= i <= particles.Length && |copies| == i
      invariant forall k :: 0 <= k < i ==> fresh(copies[k])
      invariant forall x, y :: 0 <= x < y < i ==> copies[x] != copies[y]
      invariant forall k :: 0 <= k < i ==> copies[k].State() == before[k].(posX := deltaTime as real, posY := g)
    {
      var p := new Particle.Copy(particles[i]);
      p := p.Move(deltaTime as real, g);
      copies := copies + [p];
      i := i + 1;
    }
    moved := new Particle[particles.Length](k requires 0 <= k < |copies| => copies[k]);
    assert StatesOf(moved) == MovedAll(before, deltaTime, g);
  }

  /**
   * `Arrays.sort` with the comparator on `posY`: the particles end up
   * rearranged, in non-decreasing `posY`, still pairwise distinct objects. This is an insertion
   * sort by adjacent swaps; it rearranges object references only.
   */
  method SortByY(a: array<Particle>)
    requires Distinct(a)
    modifies a
    ensures Distinct(a)
    ensures multiset(a[..]) == multiset(old(a[..]))
    ensures SortedByY(StatesOf(a))
    ensures multiset(StatesOf(a)) == multiset(old(StatesOf(a)))
  {
    ghost var st := StatesOf(a);
    var i := 1;
    while i < a.Length
      invariant Distinct(a) && Mirrors(a[..], st)
      invariant multiset(a[..]) == multiset(old(a[..]))
      invariant multiset(st) == multiset(old(StatesOf(a)))
      invariant forall x, y :: 0 <= x < y < i && y < a.Length ==> st[x].posY <= st[y].posY
    {
      st := InsertDown(a, i, st);
      i := i + 1;
    }
    assert StatesOf(a) == st;
  }

  /** The sinking element sits at `j`: every pair in `[0, i]` is ordered except those ending at `j`, and `j` is below everything after it. */
  predicate Sinking(st: seq<ParticleState>, i: nat, j: nat)
    requires j <= i < |st|
  {
    (forall x, y :: 0 <= x < y <= i && y != j ==> st[x].posY <= st[y].posY)
    && (forall y :: j < y <= i ==> st[j].posY <= st[y].posY)
  }

  /** Swapping the sinking element with a higher left neighbour moves it one slot down. */
  lemma SwapSinks(st: seq<ParticleState>, i: nat, j: nat)
    requires 0 < j <= i < |st| && Sinking(st, i, j) && st[j - 1].posY > st[j].posY
    ensures Sinking(Swap(st, j), i, j - 1)
  {
  }

  /** A sinking element that is no lower than its left neighbour completes the sorted prefix. */
  lemma SinkingDone(st: seq<ParticleState>, i: nat, j: nat)
    requires j <= i < |st| && Sinking(st, i, j)
    requires j == 0 || st[j - 1].posY <= st[j].posY
    ensures forall x, y :: 0 <= x < y <= i ==> st[x].posY <= st[y].posY
  {
  }

  /** Exchanging slots `j - 1` and `j`. */
  function Swap<T>(r: seq<T>, j: nat): (r': seq<T>)
    requires 0 < j < |r|
    ensures |r'| == |r|
  {
    r[j - 1 := r[j]][j := r[j - 1]]
  }

  /** An exchange keeps the elements and their multiplicities, so it keeps them pairwise distinct. */
  lemma SwapFacts(r: seq<Particle>, st: seq<ParticleState>, j: nat)
    requires 0 < j < |r| && Mirrors(r, st)
    ensures multiset(Swap(r, j)) == multiset(r)
    ensures multiset(Swap(st, j)) == multiset(st)
    ensures DistinctRefs(r) ==> DistinctRefs(Swap(r, j))
    ensures Mirrors(Swap(r, j), Swap(st, j))
  {
  }

  /** One exchange of the sinking element with its higher left neighbour. */
  method SinkStep(a: array<Particle>, i: nat, j: nat, ghost st: seq<ParticleState>) returns (ghost st': seq<ParticleState>)
    requires 0 < j <= i < a.Length && DistinctRefs(a[..]) && Mirrors(a[..], st)
    requires Sinking(st, i, j) && st[j - 1].posY > st[j].posY
    modifies a
    ensures DistinctRefs(a[..]) && Mirrors(a[..], st')
    ensures multiset(a[..]) == multiset(old(a[..]))
    ensures multiset(st') == multiset(st)
    ensures Sinking(st', i, j - 1)
  {
    SwapSinks(st, i, j);
    SwapFacts(a[..], st, j);
    a[j - 1], a[j] := a[j], a[j - 1];
    assert a[..] == Swap(old(a[..]), j);
    st' := Swap(st, j);
  }

  /** One pass of the insertion sort: slot `i` sinks into the sorted prefix `[0, i)`. */
  method InsertDown(a: array<Particle>, i: nat, ghost st: seq<ParticleState>) returns (ghost st': seq<ParticleState>)
    requires i < a.Length && Distinct(a) && Mirrors(a[..], st)
    requires forall x, y :: 0 <= x < y < i ==> st[x].posY <= st[y].posY
    modifies a
    ensures Distinct(a) && Mirrors(a[..], st')
    ensures multiset(a[..]) == multiset(old(a[..]))
    ensures multiset(st') == multiset(st)
    ensures forall x, y :: 0 <= x < y <= i ==> st'[x].posY <= st'[y].posY
  {
    st' := st;
    var j := i;
    while j > 0 && a[j - 1].posY > a[j].posY
      invariant 0 <= j <= i
      invariant DistinctRefs(a[..]) && Mirrors(a[..], st')
      invariant multiset(a[..]) == multiset(old(a[..]))
      invariant multiset(st') == multiset(st)
      invariant Sinking(st', i, j)
    {
      st' := SinkStep(a, i, j, st');
      j := j - 1;
    }
    SinkingDone(st', i, j);
  }

  /**
   * The nested pair loops over the first `n` slots: row `i`, columns
   * `j > i`, leaving the row at the first `j` more than `2r` above `i`, and
   * resolving an overlapping, approaching pair through `setVelocity` on both
   * and a push of one of them.
   */
  method ScanPairs(a: array<Particle>, n: nat, particleR: real, m: CollisionModel)
    requires n <= a.Length && Distinct(a)
    modifies a, a[..]
    ensures a[..] == old(a[..])
    ensures StatesOf(a) == PairScan(old(StatesOf(a)), n, particleR, m)
  {
    ghost var st := StatesOf(a);
    ghost var total := PairScan(st, n, particleR, m);
    var i := 0;
    while i < n
      invariant 0 <= i <= n
      invariant a[..] == old(a[..])
      invariant |st| == a.Length
      invariant forall k :: 0 <= k < a.Length ==> a[k].State() == st[k]
      invariant ScanFrom(st, n, i, particleR, m) == total
    {
      st := ScanRowOf(a, n, i, particleR, m, st);
      i := i + 1;
    }
    assert StatesOf(a) == st;
  }

  /** The inner loop for row `i`. */
  method ScanRowOf(a: array<Particle>, n: nat, i: nat, particleR: real, m: CollisionModel, ghost st: seq<ParticleState>)
    returns (ghost st': seq<ParticleState>)
    requires i < n <= a.Length && Distinct(a) && |st| == a.Length
    requires forall k :: 0 <= k < a.Length ==> a[k].State() == st[k]
    modifies a, a[..]
    ensures a[..] == old(a[..])
    ensures st' == ScanRow(st, n, i, i + 1, particleR, m)
    ensures forall k :: 0 <= k < a.Length ==> a[k].State() == st'[k]
  {
    st' := st;
    var j := i + 1;
    assert Mirrors(a[..], st');
    while j < n
      invariant i < j <= n
      invariant a[..] == old(a[..])
      invariant Mirrors(a[..], st')
      invariant ScanRow(st', n, i, j, particleR, m) == ScanRow(st, n, i, i + 1, particleR, m)
    {
      var stop;
      stop, st' := ScanColumn(a, n, i, j, particleR, m, st');
      if stop {
        break;
      }
      j := j + 1;
    }
  }

  /** Column `j` of row `i`: leave the row, or resolve the pair when it collides. */
  method ScanColumn(a: array<Particle>, n: nat, i: nat, j: nat, particleR: real, m: CollisionModel,
                    ghost st: seq<ParticleState>)
    returns (stop: bool, ghost st': seq<ParticleState>)
    requires i < j < n <= a.Length && Distinct(a) && Mirrors(a[..], st)
    modifies a, a[i], a[j]
    ensures a[..] == old(a[..]) && Mirrors(a[..], st')
    ensures stop ==> st' == st && ScanRow(st, n, i, j, particleR, m) == st
    ensures !stop ==> ScanRow(st, n, i, j, particleR, m) == ScanRow(st', n, i, j + 1, particleR, m)
  {
    st' := st;
    if a[j].posY - a[i].posY > 2.0 * particleR {
      return true, st';
    }
    if a[i].State().Overlaps(a[j].State(), particleR) && a[i].State().Approaches(a[j].State()) {
      st' := ResolvePair(a, i, j, m, st');
    }
    return false, st';
  }

  /**
   * An overlapping, approaching pair: both partners get the velocities of
   * the collision model, then the upper one (`dY > 0`: slot `i`) is pushed
   * forward along the line of centres, otherwise slot `j` is pushed back.
   */
  method ResolvePair(a: array<Particle>, i: nat, j: nat, m: CollisionModel, ghost st: seq<ParticleState>)
    returns (ghost st': seq<ParticleState>)
    requires i < j < a.Length && Distinct(a) && |st| == a.Length
    requires forall k :: 0 <= k < a.Length ==> a[k].State() == st[k]
    modifies a, a[i], a[j]
    ensures a[..] == old(a[..])
    ensures st' == Resolve(st, i, j, m)
    ensures forall k :: 0 <= k < a.Length ==> a[k].State() == st'[k]
  {
    var v := m.velocities(a[i].State(), a[j].State());
    var o := m.push(a[i].State(), a[j].State());
    var dY := a[i].posY - a[j].posY;
    a[i] := a[i].SetVelocity(v.v1X, v.v1Y);
    a[j] := a[j].SetVelocity(v.v2X, v.v2Y);
    if dY > 0.0 {
      a[i] := a[i].Move(a[i].posX + o.dx, a[i].posY + o.dy);
    } else {
      a[j] := a[j].Move(a[j].posX - o.dx, a[j].posY - o.dy);
    }
    st' := Resolve(st, i, j, m);
  }

  /**
   * The wall pass for one particle: the branches of the table on the locals
   * `x`, `y`, `vX`, `vY`, then one `setPosition`/`setVelocity` on the object.
   */
  method Reflect(p: Particle, b: Bounds)
    modifies p
    ensures p.State() == GeometryStep(b, old(p.State()))
  {
    var x, y, vX, vY := p.posX, p.posY, p.velocityX, p.velocityY;
    y, vY := TopBottomBranches(b, p.State(), y, vY);
    ghost var q := TopBottom(b, p.State());
    x, y, vX, vY := SideBranches(b, q, x, y, vX, vY);
    var self := p.Move(x, y);
    self := self.SetVelocity(vX, vY);
  }

  /** The box top and bottom branches on the locals `y`, `vY`. */
  method TopBottomBranches(b: Bounds, ghost p: ParticleState, y0: real, vY0: real) returns (y: real, vY: real)
    requires p.posY == y0 && p.velocityY == vY0
    ensures TopBottom(b, p) == p.(posY := y, velocityY := vY)
  {
    y, vY := y0, vY0;
    if y > b.topParticle && vY > 0.0 {
      y := b.topParticle;
      vY := -vY - b.speedDeltaTop;
    } else if y < b.bottomParticle && vY < 0.0 {
      y := b.bottomParticle;
      vY := -vY + b.speedDeltaBottom;
    }
  }

  /** The box side, hole and barrier branches on the locals `x`, `y`, `vX`, `vY`. */
  method SideBranches(b: Bounds, ghost p: ParticleState, x0: real, y0: real, vX0: real, vY0: real)
    returns (x: real, y: real, vX: real, vY: real)
    requires p.posX == x0 && p.posY == y0 && p.velocityX == vX0 && p.velocityY == vY0
    ensures SidesAndBarrier(b, p) == p.(posX := x, posY := y, velocityX := vX, velocityY := vY)
  {
    x, y, vX, vY := x0, y0, vX0, vY0;
    if x < b.leftParticle && vX < 0.0 {
      x := b.leftParticle;
      vX := -vX + b.speedDeltaSides;
    } else if x > b.rightParticle && vX > 0.0 {
      x := b.rightParticle;
      vX := -vX - b.speedDeltaSides;
    } else if x > b.holeLeftParticle && x < b.holeRightParticle {
      if x > b.holeLeft && x < b.holeRight {
        if y > b.holeTopParticle && vY > 0.0 {
          y := b.holeTopParticle;
          vY := -vY - b.speedDeltaTop;
        } else if y < b.holeBottomParticle && vY < 0.0 {
          y := b.holeBottomParticle;
          vY := -vY + b.speedDeltaBottom;
        }
      } else if y > b.holeTop || y < b.holeBottom {
        if x < b.barrierPosX && vX > 0.0 {
          x := b.holeLeftParticle;
          vX := -vX - b.speedDeltaSides;
        } else if x > b.barrierPosX && vX < 0.0 {
          x := b.holeRightParticle;
          vX := -vX + b.speedDeltaSides;
        }
      }
    }
  }

  /** The wall pass over every slot of the array. */
  method ReflectAll(a: array<Particle>, b: Bounds)
    requires Distinct(a)
    modifies a[..]
    ensures StatesOf(a) == GeometryAll(b, old(StatesOf(a)))
  {
    ghost var st := StatesOf(a);
    var i := 0;
    while i < a.Length
      invariant 0 <= i <= a.Length
      invariant forall k :: 0 <= k < i ==> a[k].State() == GeometryStep(b, st[k])
      invariant forall k :: i <= k < a.Length ==> a[k].State() == st[k]
    {
      Reflect(a[i], b);
      i := i + 1;
    }
    assert StatesOf(a) == GeometryAll(b, st);
  }

  /** The first two passes of a step: fresh moved copies, sorted by height. */
  method MoveAndSort(particles: array<Particle>, deltaTime: int64, g: real)
    returns (a: array<Particle>, ghost sorted: seq<ParticleState>)
    ensures fresh(a) && a.Length == particles.Length && Distinct(a)
    ensures forall k :: 0 <= k < a.Length ==> fresh(a[k])
    ensures sorted == StatesOf(a) && SortedByY(sorted)
    ensures multiset(sorted) == multiset(MovedAll(StatesOf(particles), deltaTime, g))
  {
    ghost var input := StatesOf(particles);
    a := CopyAndMove(particles, deltaTime, g);
    ghost var copies := a[..];
    SortByY(a);
    sorted := StatesOf(a);
    forall k | 0 <= k < a.Length
      ensures fresh(a[k])
    {
      assert a[k] in multiset(a[..]);
      assert a[k] in copies;
    }
    assert StatesOf(particles) == input;
  }

  /**
   * The four passes of a step on fresh copies of `particles`: move, sort
   * (the order it produces is `sorted`), the pair pass over the first `scan`
   * slots, the wall pass over all of them.
   */
  method Advance(particles: array<Particle>, deltaTime: int64, g: real, scan: nat,
                 particleR: real, m: CollisionModel, b: Bounds)
    returns (a: array<Particle>, ghost sorted: seq<ParticleState>)
    requires scan <= particles.Length
    ensures fresh(a) && a.Length == particles.Length && |sorted| == a.Length
    ensures SortedByY(sorted) && multiset(sorted) == multiset(MovedAll(StatesOf(particles), deltaTime, g))
    ensures StatesOf(a) == GeometryAll(b, PairScan(sorted, scan, particleR, m))
  {
    ghost var input := StatesOf(particles);
    a, sorted := MoveAndSort(particles, deltaTime, g);
    ScanAndReflect(a, scan, particleR, m, b);
    assert StatesOf(particles) == input;
  }

  /** The last two passes of a step, on the sorted copies. */
  method ScanAndReflect(a: array<Particle>, scan: nat, particleR: real, m: CollisionModel, b: Bounds)
    requires scan <= a.Length && Distinct(a)
    modifies a, a[..]
    ensures a[..] == old(a[..])
    ensures StatesOf(a) == GeometryAll(b, PairScan(old(StatesOf(a)), scan, particleR, m))
  {
    ScanPairs(a, scan, particleR, m);
    ReflectAll(a, b);
  }

  class Simulator {
    const experimentSettings: ExperimentSettings
    /** The successive values `random.nextDouble()` returns. */
    const draws: nat -> real
    /** How many values have been drawn so far. */
    var drawCount: nat

    ghost predicate Valid()
    {
      forall k :: 0.0 <= draws(k) < 1.0
    }

    constructor (experimentSettings: ExperimentSettings, draws: nat -> real)
      requires forall k :: 0.0 <= draws(k) < 1.0
      ensures Valid()
      ensures this.experimentSettings == experimentSettings && this.draws == draws && drawCount == 0
    {
      this.experimentSettings := experimentSettings;
      this.draws := draws;
      drawCount := 0;
    }

    /** `generateDouble(lo, hi)`: the next draw, scaled onto the interval. */
    method GenerateDouble(lowerBound: real, upperBound: real) returns (x: real)
      requires Valid()
      modifies this
      ensures drawCount == old(drawCount) + 1
      ensures x == draws(old(drawCount)) * (upperBound - lowerBound) + lowerBound
      ensures InDrawRange(x, lowerBound, upperBound)
    {
      x := draws(drawCount) * (upperBound - lowerBound) + lowerBound;
      DrawInRange(draws(drawCount), lowerBound, upperBound);
      drawCount := drawCount + 1;
    }

    /**
     * The `do … while (bTouching)` loop: draw positions until one overlaps
     * none of `placed[from..]`, within `maxAttempts` tries (the source has
     * no bound). The candidate is tested, not the still empty slot `i`.
     */
    method PlaceCandidate(placed: seq<Particle>, ghost st: seq<ParticleState>, from: nat,
                          xLo: real, xHi: real, yLo: real, yHi: real, particleR: real, maxAttempts: nat)
      returns (found: bool, x: real, y: real)
      requires Valid()
      requires |placed| == |st| && from <= |st|
      requires forall k :: 0 <= k < |st| ==> placed[k].State() == st[k]
      modifies this
      ensures found ==> InDrawRange(x, xLo, xHi) && InDrawRange(y, yLo, yHi)
      ensures found ==> forall k :: from <= k < |st| ==> !Candidate(x, y).Overlaps(st[k], particleR)
      ensures found ==> 0 < maxAttempts && drawCount >= old(drawCount) + 2
      ensures !found ==> drawCount == old(drawCount) + 2 * maxAttempts
    {
      found, x, y := false, 0.0, 0.0;
      var attempts := 0;
      while !found && attempts < maxAttempts
        invariant 0 <= attempts <= maxAttempts
        invariant drawCount == old(drawCount) + 2 * attempts
        invariant found ==> attempts >= 1
        invariant found ==> InDrawRange(x, xLo, xHi) && InDrawRange(y, yLo, yHi)
        invariant found ==> forall k :: from <= k < |st| ==> !Candidate(x, y).Overlaps(st[k], particleR)
        decreases maxAttempts - attempts
      {
        x := GenerateDouble(xLo, xHi);
        y := GenerateDouble(yLo, yHi);
        var touching := false;
        var j := from;
        while j < |placed|
          invariant from <= j <= |placed|
          invariant !touching ==> forall k :: from <= k < j ==> !Candidate(x, y).Overlaps(st[k], particleR)
        {
          if Candidate(x, y).Overlaps(placed[j].State(), particleR) {
            touching := true;
            break;
          }
          j := j + 1;
        }
        found := !touching;
        attempts := attempts + 1;
      }
    }

    /**
     * The two placement loops of `initialDistribution`, slot by slot: the
     * particles it creates, or `ok == false` when some slot ran out of
     * attempts.
     */
    method PlaceAll(n: int, maxAttempts: nat, cos: real -> real, sin: real -> real)
      returns (ok: bool, placed: seq<Particle>, ghost st: seq<ParticleState>)
      requires Valid()
      requires 0 <= experimentSettings.particleCountLeft <= n
      modifies this
      ensures ok ==> |placed| == n && |st| == n && Packed(experimentSettings, st)
      ensures ok ==> forall k :: 0 <= k < n ==> placed[k].State() == st[k]
      ensures ok ==> drawCount >= old(drawCount) + 3 * n
      ensures ok && n > 0 ==> maxAttempts > 0
      ensures n == 0 ==> ok
    {
      var s := experimentSettings;
      var left := s.particleCountLeft;
      var r := Radius(s);
      var speed := Float32Value(s.initialSpeed);
      placed, st := [], [];
      var i: int := 0;
      while i < n
        invariant 0 <= i <= n && |placed| == i && |st| == i
        invariant forall k :: 0 <= k < i ==> placed[k].State() == st[k]
        invariant Packed(s, st)
        invariant drawCount >= old(drawCount) + 3 * i
        invariant i > 0 ==> maxAttempts > 0
      {
        var found, x, y;
        if i < left {
          found, x, y := PlaceCandidate(placed, st, 0, LeftLowX(s), LeftHighX(s), LowY(s), HighY(s), r, maxAttempts);
        } else {
          found, x, y := PlaceCandidate(placed, st, left, RightLowX(s), RightHighX(s), LowY(s), HighY(s), r, maxAttempts);
        }
        if !found {
          return false, placed, st;
        }
        var angle := GenerateDouble(0.0, Pi * 2.0);
        var p := new Particle(AssignedId(i, left), x, y, speed * cos(angle), speed * sin(angle));
        PackedExtend(s, st, p.State());
        placed := placed + [p];
        st := st + [p.State()];
        i := i + 1;
      }
      ok := true;
    }

    /**
     * `initialDistribution()`. The left half fills slots `[0, left)`, the
     * right half `[left, left + right)`; each accepted position overlaps no
     * particle already placed in its own half, and each particle then takes
     * one more draw for the direction of its initial speed. `cos` and `sin`
     * stand for `Math.cos` and `Math.sin`.
     */
    method InitialDistribution(maxAttempts: nat, cos: real -> real, sin: real -> real)
      returns (result: Result<ExperimentState>)
      requires Valid()
      modifies this
      ensures experimentSettings.ParticleCount() < 0 ==> result == Failure(NegativeArraySize)
      ensures 0 <= experimentSettings.ParticleCount() &&
              (experimentSettings.particleCountLeft < 0
               || experimentSettings.particleCountLeft > experimentSettings.ParticleCount())
              ==> result == Failure(IndexOutOfBounds)
      ensures 0 <= experimentSettings.particleCountLeft <= experimentSettings.ParticleCount() ==>
                result.Success? || result == Failure(AttemptsExhausted)
      ensures maxAttempts == 0 && 0 < experimentSettings.ParticleCount() ==> result.Failure?
      ensures result.Success? ==>
                fresh(result.value) && fresh(result.value.particles)
                && result.value.time == 0 && result.value.settings == experimentSettings
                && result.value.particles.Length == experimentSettings.ParticleCount()
                && drawCount >= old(drawCount) + 3 * result.value.particles.Length
      ensures result.Success? ==>
                0 <= experimentSettings.particleCountLeft <= result.value.particles.Length
                && Packed(experimentSettings, result.value.Snapshot().particles)
    {
      var s := experimentSettings;
      var n := s.ParticleCount();
      var left := s.particleCountLeft;
      if n < 0 {
        return Failure(NegativeArraySize);
      }
      if left < 0 || left > n {
        return Failure(IndexOutOfBounds);
      }
      var ok, placed, st := PlaceAll(n, maxAttempts, cos, sin);
      if !ok {
        return Failure(AttemptsExhausted);
      }
      var particles := ArrayOf(placed, st);
      var state := BuildState(particles, s, 0);
      return Success(state);
    }

    /**
     * `nextTimeStep(state, deltaTime)`. Copies and moves every particle,
     * sorts the copies by height, runs the pair pass over the first
     * `left + right` slots and the wall pass over all of them. The pair pass
     * indexes slots up to `left + right - 1`, so an array shorter than that
     * (with at least two particles counted) ends in an index error. `m`
     * stands for the collision numerics.
     */
    method NextTimeStep(state: ExperimentState, deltaTime: int64, m: CollisionModel)
      returns (result: Result<ExperimentState>, ghost sorted: seq<ParticleState>)
      ensures state.Snapshot() == old(state.Snapshot())
      ensures var n := experimentSettings.ParticleCount();
              result.Failure? <==> n >= 2 && n > state.particles.Length
      ensures result.Failure? ==> result.error == IndexOutOfBounds
      ensures result.Success? ==>
                fresh(result.value) && fresh(result.value.particles)
                && result.value.settings == experimentSettings
                && result.value.time == Wrap64(state.time + deltaTime)
                && result.value.particles.Length == state.particles.Length
      ensures result.Success? ==>
                var moved := MovedAll(StatesOf(state.particles), deltaTime, Float32Value(experimentSettings.g));
                var n := experimentSettings.ParticleCount();
                var scan := if n < 0 then 0 else if n > |sorted| then |sorted| else n;
                SortedByY(sorted) && multiset(sorted) == multiset(moved)
                && result.value.Snapshot().particles
                   == GeometryAll(BoundsOf(experimentSettings), PairScan(sorted, scan, Radius(experimentSettings), m))
      ensures result.Success? ==>
                multiset(IdsOf(result.value.Snapshot().particles)) == multiset(IdsOf(state.Snapshot().particles))
    {
      var len := state.particles.Length;
      var n := experimentSettings.ParticleCount();
      ghost var input := StatesOf(state.particles);
      if n >= 2 && n > len {
        return Failure(IndexOutOfBounds), [];
      }
      var scan: nat := if n < 0 then 0 else if n > len then len else n;
      var a;
      a, sorted := Advance(state.particles, deltaTime, Float32Value(experimentSettings.g), scan,
                           Radius(experimentSettings), m, BoundsOf(experimentSettings));
      ghost var out := StatesOf(a);
      StepKeepsIds(input, deltaTime, Float32Value(experimentSettings.g), sorted, scan,
                   Radius(experimentSettings), m, BoundsOf(experimentSettings));
      assert multiset(IdsOf(out)) == multiset(IdsOf(input));
      var next := BuildState(a, experimentSettings, Wrap64(state.time + deltaTime));
      assert next.Snapshot().particles == out;
      assert state.Snapshot().particles == input;
      return Success(next), sorted;
    }
  }
}
