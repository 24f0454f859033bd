/**
 * The integer side of the demonstration screen's charts: which side of the
 * barrier each particle is on and of which type, the histogram bins of the
 * speed (Maxwell) and height (Boltzmann) distributions, and the stride that
 * picks the states of the particle-count plot.
 */
module Analysis {
  import opened JavaTypes
  import opened DataStream
  import opened Particles
  import opened States
  import opened Ieee
  import opened Settings

  // --- particle types and sides -----------------------------------------

  /** `(id & 1) == 0`: bit 0 of the id's two's-complement word is clear. Ids of the first type started on the left. */
  predicate IsFirstType(id: int32)
  {
    Unsigned32(id) % 2 == 0
  }

  /** The bit test is the parity of the id, negative ids included. */
  lemma FirstTypeIsEvenId(id: int32)
    ensures IsFirstType(id) <==> id % 2 == 0
  {
    assert Unsigned32(id) % 2 == id % 2 by {
      if id < 0 {
        assert Unsigned32(id) == id + 2 * 0x8000_0000;
      }
    }
  }

  datatype Side = Left | Right | Barrier

  /** The side a particle is counted on: left of the barrier band, else right of it, else neither. */
  function SideOf(p: ParticleState, leftBound: real, rightBound: real): (side: Side)
    ensures side == Left <==> p.posX < leftBound
    ensures side == Right <==> leftBound <= p.posX && rightBound < p.posX
  {
    if p.posX < leftBound then Left else if p.posX > rightBound then Right else Barrier
  }

  /** A non-empty band: the particles counted on neither side are exactly those inside it. */
  lemma BarrierIsBand(p: ParticleState, leftBound: real, rightBound: real)
    requires leftBound <= rightBound
    ensures SideOf(p, leftBound, rightBound) == Barrier <==> leftBound <= p.posX <= rightBound
  {
  }

  /** The band the counts leave out: `barrierPosX ∓ 0.5 · barrierWidth`. */
  function LeftBound(s: ExperimentSettings): real
  {
    Float32Value(s.barrierPosX) - 0.5 * Float32Value(s.barrierWidth)
  }

  function RightBound(s: ExperimentSettings): real
  {
    Float32Value(s.barrierPosX) + 0.5 * Float32Value(s.barrierWidth)
  }

  /** A barrier of non-negative width gives a band whose left end is not past its right end. */
  lemma BoundsOrdered(s: ExperimentSettings)
    requires Float32Value(s.barrierWidth) >= 0.0
    ensures LeftBound(s) <= RightBound(s)
  {
  }

  /** How many of `ps` are on `side` and of the first type (`first`) or the second. */
  function Census(ps: seq<ParticleState>, leftBound: real, rightBound: real, side: Side, first: bool): (c: nat)
    ensures c <= |ps|
  {
    if ps == [] then 0
    else
      var last := ps[|ps| - 1];
      Census(ps[..|ps| - 1], leftBound, rightBound, side, first) + Share(last, leftBound, rightBound, side, first)
  }

  /** The four counters of `redrawParticlesNum` and `plotParticlesNumLines`. */
  datatype SideCounts = SideCounts(leftFirst: nat, leftSecond: nat, rightFirst: nat, rightSecond: nat)
  {
    function Total(): nat
    {
      leftFirst + leftSecond + rightFirst + rightSecond
    }
  }

  function CountsOf(ps: seq<ParticleState>, leftBound: real, rightBound: real): SideCounts
  {
    SideCounts(Census(ps, leftBound, rightBound, Left, true), Census(ps, leftBound, rightBound, Left, false),
               Census(ps, leftBound, rightBound, Right, true), Census(ps, leftBound, rightBound, Right, false))
  }

  /**
   * Every particle is counted once, on one side, or is in the band: the four
   * counts and the two band counts add up to the number of particles.
   */
  lemma {:induction false} CensusPartition(ps: seq<ParticleState>, leftBound: real, rightBound: real)
    ensures CountsOf(ps, leftBound, rightBound).Total()
            + Census(ps, leftBound, rightBound, Barrier, true) + Census(ps, leftBound, rightBound, Barrier, false)
            == |ps|
  {
    if ps != [] {
      CensusPartition(ps[..|ps| - 1], leftBound, rightBound);
    }
  }

  /** So the four counts never add up to more than the particle count. */
  lemma CountsAtMostParticles(ps: seq<ParticleState>, leftBound: real, rightBound: real)
    ensures CountsOf(ps, leftBound, rightBound).Total() <= |ps|
  {
    CensusPartition(ps, leftBound, rightBound);
  }

  lemma {:induction false} CensusConcat(ps: seq<ParticleState>, qs: seq<ParticleState>, leftBound: real,
                                        rightBound: real, side: Side, first: bool)
    ensures Census(ps + qs, leftBound, rightBound, side, first)
            == Census(ps, leftBound, rightBound, side, first) + Census(qs, leftBound, rightBound, side, first)
  {
    if qs == [] {
      assert ps + qs == ps;
    } else {
      assert (ps + qs)[..|ps + qs| - 1] == ps + qs[..|qs| - 1];
      CensusConcat(ps, qs[..|qs| - 1], leftBound, rightBound, side, first);
    }
  }

  /** One particle's share of a census. */
  function Share(p: ParticleState, leftBound: real, rightBound: real, side: Side, first: bool): nat
  {
    if SideOf(p, leftBound, rightBound) == side && IsFirstType(p.id) == first then 1 else 0
  }

  /** Taking out the particle at `j` takes out its share. */
  lemma CensusRemove(qs: seq<ParticleState>, j: nat, leftBound: real, rightBound: real, side: Side, first: bool)
    requires j < |qs|
    ensures Census(qs, leftBound, rightBound, side, first)
            == Census(qs[..j] + qs[j + 1..], leftBound, rightBound, side, first)
               + Share(qs[j], leftBound, rightBound, side, first)
  {
    assert qs == qs[..j] + [qs[j]] + qs[j + 1..];
    CensusConcat(qs[..j] + [qs[j]], qs[j + 1..], leftBound, rightBound, side, first);
    CensusConcat(qs[..j], [qs[j]], leftBound, rightBound, side, first);
    CensusConcat(qs[..j], qs[j + 1..], leftBound, rightBound, side, first);
    assert [qs[j]][..0] == [];
  }

  lemma MultisetRemove<T>(ps: seq<T>, qs: seq<T>, j: nat)
    requires ps != [] && multiset(ps) == multiset(qs) && j < |qs| && qs[j] == ps[|ps| - 1]
    ensures multiset(ps[..|ps| - 1]) == multiset(qs[..j] + qs[j + 1..])
  {
    var last, front := ps[|ps| - 1], ps[..|ps| - 1];
    var left, right := qs[..j], qs[j + 1..];
    assert ps == front + [last];
    assert qs == left + [last] + right;
    calc {
      multiset(qs);
      multiset(left + [last]) + multiset(right);
      multiset(left) + multiset{last} + multiset(right);
      multiset(left + right) + multiset{last};
    }
    assert multiset(front) + multiset{last} == multiset(left + right) + multiset{last};
    MultisetCancel(multiset(front), multiset(left + right), last);
  }

  lemma MultisetCancel<T>(a: multiset<T>, b: multiset<T>, x: T)
    requires a + multiset{x} == b + multiset{x}
    ensures a == b
  {
    assert a == (a + multiset{x}) - multiset{x};
    assert b == (b + multiset{x}) - multiset{x};
  }


  /**
   * The counts depend only on which particles there are, not on the order
   * of the array, which `nextTimeStep` re-sorts on every step.
   */
  lemma {:induction false} CensusPermutation(ps: seq<ParticleState>, qs: seq<ParticleState>, leftBound: real,
                                             rightBound: real, side: Side, first: bool)
    requires multiset(ps) == multiset(qs)
    ensures Census(ps, leftBound, rightBound, side, first) == Census(qs, leftBound, rightBound, side, first)
    decreases |ps|
  {
    if ps != [] {
      var last := ps[|ps| - 1];
      assert last in multiset(qs) by {
        assert last in multiset(ps);
      }
      var j :| 0 <= j < |qs| && qs[j] == last;
      MultisetRemove(ps, qs, j);
      CensusPermutation(ps[..|ps| - 1], qs[..j] + qs[j + 1..], leftBound, rightBound, side, first);
      CensusRemove(qs, j, leftBound, rightBound, side, first);
    }
  }

  lemma CountsOfPermutation(ps: seq<ParticleState>, qs: seq<ParticleState>, leftBound: real, rightBound: real)
    requires multiset(ps) == multiset(qs)
    ensures CountsOf(ps, leftBound, rightBound) == CountsOf(qs, leftBound, rightBound)
  {
    CensusPermutation(ps, qs, leftBound, rightBound, Left, true);
    CensusPermutation(ps, qs, leftBound, rightBound, Left, false);
    CensusPermutation(ps, qs, leftBound, rightBound, Right, true);
    CensusPermutation(ps, qs, leftBound, rightBound, Right, false);
  }

  /**
   * The counting loops of lines 264-278 and 312-326: every particle of the
   * state, in array order, counted by side and type.
   */
  method CountSides(state: ExperimentState, leftBound: real, rightBound: real) returns (c: SideCounts)
    ensures c == CountsOf(state.Snapshot().particles, leftBound, rightBound)
  {
    ghost var ps := state.Snapshot().particles;
    var particles := state.GetParticles();
    var leftFirst, leftSecond, rightFirst, rightSecond := 0, 0, 0, 0;
    var i := 0;
    while i < particles.Length
      invariant 0 <= i <= particles.Length
      invariant SideCounts(leftFirst, leftSecond, rightFirst, rightSecond) == CountsOf(ps[..i], leftBound, rightBound)
    {
      var particle := particles[i];
      assert ps[..i + 1][..i] == ps[..i] && ps[i] == particle.State();
      if particle.posX < leftBound {
        if Unsigned32(particle.id) % 2 == 0 {
          leftFirst := leftFirst + 1;
        } else {
          leftSecond := leftSecond + 1;
        }
      } else if particle.posX > rightBound {
        if Unsigned32(particle.id) % 2 == 0 {
          rightFirst := rightFirst + 1;
        } else {
          rightSecond := rightSecond + 1;
        }
      }
      i := i + 1;
    }
    assert ps[..i] == ps;
    c := SideCounts(leftFirst, leftSecond, rightFirst, rightSecond);
  }

  // --- converting a double quotient to an int ---------------------------

  /** A real rounded toward zero. */
  function Trunc(x: real): (t: int)
    ensures x >= 0.0 ==> t == x.Floor
    ensures x < 0.0 ==> t == -((-x).Floor)
  {
    if x >= 0.0 then x.Floor else -((-x).Floor)
  }

  /** The `(int)` cast of a number too large for an `int`: the nearest bound. */
  function Saturate(t: int): (r: int32)
    ensures Int32Min <= t <= Int32Max ==> r == t
    ensures r < 0 <==> t < 0
  {
    if t < Int32Min then Int32Min else if t > Int32Max then Int32Max else t
  }

  /**
   * `(int) (a / b)`, or `(int) Math.floor(a / b)` when `floor`, the quotient
   * taken exactly. A zero divisor gives an infinity, which the cast turns
   * into the nearest `int` bound, or for `0 / 0` a NaN, which it turns into
   * 0 (the model does not tell `-0.0` from `+0.0`).
   */
  function QuotientToInt(a: real, b: real, floor: bool): (r: int32)
    ensures b == 0.0 ==> r == (if a > 0.0 then Int32Max else if a < 0.0 then Int32Min else 0)
  {
    if b == 0.0 then (if a > 0.0 then Int32Max else if a < 0.0 then Int32Min else 0)
    else Saturate(if floor then (a / b).Floor else Trunc(a / b))
  }

  // --- histograms -------------------------------------------------------

  /** The bins after counting each of `indices` in turn: `size` slots, each the number of indices naming it. */
  function Histogram(indices: seq<int>, size: nat): (h: seq<nat>)
    requires forall k :: 0 <= k < |indices| ==> 0 <= indices[k] < size
    ensures |h| == size
  {
    if indices == [] then seq(size, _ => 0)
    else
      var front, last := indices[..|indices| - 1], indices[|indices| - 1];
      var h := Histogram(front, size);
      h[last := h[last] + 1]
  }

  /** Each bin holds the number of times its index occurs. */
  lemma {:induction false} HistogramCounts(indices: seq<int>, size: nat, j: int)
    requires forall k :: 0 <= k < |indices| ==> 0 <= indices[k] < size
    requires 0 <= j < size
    ensures Histogram(indices, size)[j] == multiset(indices)[j]
  {
    if indices != [] {
      var front, last := indices[..|indices| - 1], indices[|indices| - 1];
      assert indices == front + [last];
      HistogramCounts(front, size, j);
    }
  }

  function Sum(h: seq<nat>): nat
  {
    if h == [] then 0 else Sum(h[..|h| - 1]) + h[|h| - 1]
  }

  lemma {:induction false} SumUpdate(h: seq<nat>, j: nat, v: nat)
    requires j < |h|
    ensures Sum(h[j := v]) == Sum(h) - h[j] + v
  {
    var n := |h|;
    if j < n - 1 {
      assert h[j := v][..n - 1] == h[..n - 1][j := v];
      SumUpdate(h[..n - 1], j, v);
    } else {
      assert h[j := v][..n - 1] == h[..n - 1];
    }
  }

  lemma {:induction false} SumZeros(size: nat)
    ensures Sum(seq(size, _ => 0)) == 0
  {
    if size > 0 {
      assert seq(size, _ => 0)[..size - 1] == seq(size - 1, _ => 0);
      SumZeros(size - 1);
    }
  }

  /** Every index is counted once: the bins add up to the number of indices. */
  lemma {:induction false} HistogramTotal(indices: seq<int>, size: nat)
    requires forall k :: 0 <= k < |indices| ==> 0 <= indices[k] < size
    ensures Sum(Histogram(indices, size)) == |indices|
  {
    if indices == [] {
      SumZeros(size);
    } else {
      var front, last := indices[..|indices| - 1], indices[|indices| - 1];
      HistogramTotal(front, size);
      SumUpdate(Histogram(front, size), last, Histogram(front, size)[last] + 1);
    }
  }

  /** As reals, the `Double` entries of an `ArrayList`. */
  function AsReals(h: seq<nat>): (r: seq<real>)
    ensures |r| == |h| && forall j :: 0 <= j < |h| ==> r[j] == h[j] as real
  {
    seq(|h|, j requires 0 <= j < |h| => h[j] as real)
  }

  /** One more index counted in a list of `Double` slots. */
  lemma SlotStep(indices: seq<int>, size: nat, i: nat, y: seq<real>)
    requires i < |indices| && AllBinsExist(indices[..i + 1], size)
    requires AllBinsExist(indices[..i], size) && y == AsReals(Histogram(indices[..i], size))
    ensures 0 <= indices[i] < |y|
    ensures y[indices[i] := y[indices[i]] + 1.0] == AsReals(Histogram(indices[..i + 1], size))
  {
    HistogramStep(indices, size, i);
    assert indices[..i + 1][i] == indices[i];
  }

  // --- the Maxwell (speed) histogram ------------------------------------

  /** `Arrays.stream(particles).mapToDouble(Particle::getSpeed).max().orElse(1.0)`. */
  function MaxSpeed(ps: seq<ParticleState>, speed: ParticleState -> real): (m: real)
    ensures ps == [] ==> m == 1.0
    ensures forall k :: 0 <= k < |ps| ==> speed(ps[k]) <= m
    ensures ps != [] ==> exists k :: 0 <= k < |ps| && speed(ps[k]) == m
  {
    if ps == [] then 1.0
    else if |ps| == 1 then speed(ps[0])
    else
      var m := MaxSpeed(ps[..|ps| - 1], speed);
      var last := speed(ps[|ps| - 1]);
      assert forall k :: 0 <= k < |ps| - 1 ==> ps[..|ps| - 1][k] == ps[k];
      if last > m then last else m
  }

  /** `speed` is `getSpeed()`: the non-negative square root of the squared speed. */
  ghost predicate IsSpeed(speed: ParticleState -> real)
  {
    forall p: ParticleState :: speed(p) >= 0.0 && speed(p) * speed(p) == p.SpeedSquared()
  }

  /** Line 364: `Math.min((int) Math.floor(speed / deltaVelocity), binsNum - 1)`. */
  function MaxwellBin(speed: real, deltaVelocity: real, binsNum: int32): (idx: int)
  {
    var q := QuotientToInt(speed, deltaVelocity, true);
    if q < binsNum - 1 then q else binsNum - 1
  }

  /** For a non-negative speed and bin width the index lies in `[0, binsNum - 1]`. */
  lemma MaxwellBinInRange(speed: real, deltaVelocity: real, binsNum: int32)
    requires speed >= 0.0 && deltaVelocity >= 0.0 && binsNum >= 1
    ensures 0 <= MaxwellBin(speed, deltaVelocity, binsNum) <= binsNum - 1
  {
    if deltaVelocity > 0.0 {
      assert speed / deltaVelocity >= 0.0;
    }
  }

  /** `deltaVelocity`: the largest speed split into `binsNum` bins. */
  function DeltaVelocity(ps: seq<ParticleState>, speed: ParticleState -> real, binsNum: int32): real
    requires binsNum >= 1
  {
    MaxSpeed(ps, speed) / binsNum as real
  }

  function MaxwellBins(ps: seq<ParticleState>, deltaVelocity: real, binsNum: int32, speed: ParticleState -> real)
    : (idx: seq<int>)
    ensures |idx| == |ps| && forall k :: 0 <= k < |ps| ==> idx[k] == MaxwellBin(speed(ps[k]), deltaVelocity, binsNum)
  {
    seq(|ps|, k requires 0 <= k < |ps| => MaxwellBin(speed(ps[k]), deltaVelocity, binsNum))
  }

  /** Every particle's speed bin lies in `[0, binsNum - 1]`; slot `binsNum` of the list is never reached. */
  lemma MaxwellBinsInRange(ps: seq<ParticleState>, speed: ParticleState -> real, binsNum: int32)
    requires IsSpeed(speed) && binsNum >= 1
    ensures forall k :: 0 <= k < |ps| ==> 0 <= MaxwellBins(ps, DeltaVelocity(ps, speed, binsNum), binsNum, speed)[k] < binsNum
  {
    var dv := DeltaVelocity(ps, speed, binsNum);
    assert MaxSpeed(ps, speed) >= 0.0 by {
      if ps != [] {
        assert speed(ps[0]) >= 0.0;
      }
    }
    forall k | 0 <= k < |ps|
      ensures 0 <= MaxwellBins(ps, dv, binsNum, speed)[k] < binsNum
    {
      MaxwellBinInRange(speed(ps[k]), dv, binsNum);
    }
  }

  /**
   * The speed histogram of lines 339-366: `binsNum + 1` slots, each the
   * number of particles whose speed bin it is; the last slot stays 0.
   */
  ghost function MaxwellHistogram(ps: seq<ParticleState>, speed: ParticleState -> real, binsNum: int32): (h: seq<nat>)
    requires IsSpeed(speed) && binsNum >= 1
    ensures |h| == binsNum + 1
  {
    MaxwellBinsInRange(ps, speed, binsNum);
    Histogram(MaxwellBins(ps, DeltaVelocity(ps, speed, binsNum), binsNum, speed), binsNum + 1)
  }

  /** What the speed histogram says: slot `j` counts the particles of bin `j`, the last slot none, all of them in total. */
  lemma MaxwellHistogramMeaning(ps: seq<ParticleState>, speed: ParticleState -> real, binsNum: int32, j: int)
    requires IsSpeed(speed) && binsNum >= 1 && 0 <= j <= binsNum
    ensures MaxwellHistogram(ps, speed, binsNum)[j]
            == multiset(MaxwellBins(ps, DeltaVelocity(ps, speed, binsNum), binsNum, speed))[j]
    ensures MaxwellHistogram(ps, speed, binsNum)[binsNum] == 0
    ensures Sum(MaxwellHistogram(ps, speed, binsNum)) == |ps|
  {
    var idx := MaxwellBins(ps, DeltaVelocity(ps, speed, binsNum), binsNum, speed);
    MaxwellBinsInRange(ps, speed, binsNum);
    HistogramCounts(idx, binsNum + 1, j);
    HistogramCounts(idx, binsNum + 1, binsNum as int);
    assert binsNum as int !in multiset(idx);
    HistogramTotal(idx, binsNum + 1);
  }

  /** The speed histogram is the plain histogram of the speed bins, all of which exist. */
  lemma MaxwellHistogramOfBins(ps: seq<ParticleState>, speed: ParticleState -> real, binsNum: int32)
    requires IsSpeed(speed) && binsNum >= 1
    ensures AllBinsExist(MaxwellBins(ps, DeltaVelocity(ps, speed, binsNum), binsNum, speed), binsNum + 1)
    ensures MaxwellHistogram(ps, speed, binsNum)
            == Histogram(MaxwellBins(ps, DeltaVelocity(ps, speed, binsNum), binsNum, speed), binsNum + 1)
  {
    MaxwellBinsInRange(ps, speed, binsNum);
  }

  lemma HistogramStep(indices: seq<int>, size: nat, i: nat)
    requires i < |indices| && AllBinsExist(indices[..i + 1], size)
    ensures AllBinsExist(indices[..i], size)
    ensures var h := Histogram(indices[..i], size);
      Histogram(indices[..i + 1], size) == h[indices[i] := h[indices[i]] + 1]
  {
    assert indices[..i + 1][..i] == indices[..i];
    assert indices[..i + 1][i] == indices[i];
  }

  /** Lines 356-359: `binsNum + 1` slots, from `i = -1` to `binsNum - 1`, each `0.0`. */
  method ZeroSlots(binsNum: int32) returns (y: seq<real>)
    requires binsNum >= 0
    ensures y == AsReals(Histogram([], binsNum + 1))
  {
    y := [];
    var i: int := -1;
    while i < binsNum
      invariant -1 <= i <= binsNum && y == seq(i + 1, _ => 0.0)
    {
      y := y + [0.0];
      i := i + 1;
    }
  }

  /** Lines 361-366: each particle's speed bin, in array order, counted in its slot. */
  method TallySpeeds(particles: array<Particle>, ghost ps: seq<ParticleState>, y0: seq<real>, deltaVelocity: real,
                     binsNum: int32, speed: ParticleState -> real)
    returns (y: seq<real>)
    requires ps == StatesOf(particles) && binsNum >= 0
    requires AllBinsExist(MaxwellBins(ps, deltaVelocity, binsNum, speed), binsNum + 1)
    requires y0 == AsReals(Histogram([], binsNum + 1))
    ensures y == AsReals(Histogram(MaxwellBins(ps, deltaVelocity, binsNum, speed), binsNum + 1))
  {
    ghost var idx := MaxwellBins(ps, deltaVelocity, binsNum, speed);
    y := y0;
    assert idx[..0] == [];
    var k := 0;
    while k < particles.Length
      invariant 0 <= k <= particles.Length
      invariant AllBinsExist(idx[..k], binsNum + 1)
      invariant y == AsReals(Histogram(idx[..k], binsNum + 1))
    {
      var idxK := MaxwellBin(speed(particles[k].State()), deltaVelocity, binsNum);
      SlotStep(idx, binsNum + 1, k, y);
      y := y[idxK := y[idxK] + 1.0];
      k := k + 1;
    }
    assert idx[..k] == idx;
  }

  /**
   * `redrawMaxwellDistribution(state, binsNum)`, lines 339-366: the widest
   * speed, `binsNum + 1` zero slots, then one count per particle in the
   * slot of its speed bin. `speed` stands for `Particle.getSpeed`.
   */
  method MaxwellCounts(state: ExperimentState, binsNum: int32, speed: ParticleState -> real)
    returns (yExperimental: seq<real>)
    requires IsSpeed(speed) && binsNum >= 1
    ensures yExperimental == AsReals(MaxwellHistogram(state.Snapshot().particles, speed, binsNum))
  {
    var particles := state.GetParticles();
    ghost var ps := StatesOf(particles);
    assert ps == state.Snapshot().particles;
    var maxVelocity := MaxSpeed(StatesOf(particles), speed);
    var deltaVelocity := maxVelocity / binsNum as real;
    assert deltaVelocity == DeltaVelocity(ps, speed, binsNum);
    ghost var idx := MaxwellBins(ps, deltaVelocity, binsNum, speed);
    MaxwellHistogramOfBins(ps, speed, binsNum);
    assert AllBinsExist(idx, binsNum + 1);
    yExperimental := ZeroSlots(binsNum);
    yExperimental := TallySpeeds(particles, ps, yExperimental, deltaVelocity, binsNum, speed);
    assert yExperimental == AsReals(MaxwellHistogram(ps, speed, binsNum));
    assert state.Snapshot().particles == ps;
  }

  // --- the Boltzmann (height) histogram ---------------------------------

  /** Line 405: `(int) ((posY - deltaHeight / 2.0) / deltaHeight)`. */
  function BoltzmannBin(posY: real, deltaHeight: real): int32
  {
    QuotientToInt(posY - deltaHeight / 2.0, deltaHeight, false)
  }

  /**
   * With a positive bin height the bin exists exactly when the particle is
   * less than half a bin below the floor and less than half a bin above
   * `binsNum` bins: truncation puts the lowest half bin's particles in bin 0.
   */
  lemma BoltzmannBinInRange(posY: real, deltaHeight: real, binsNum: int32)
    requires deltaHeight > 0.0 && binsNum >= 1
    ensures 0 <= BoltzmannBin(posY, deltaHeight) < binsNum
            <==> -deltaHeight / 2.0 < posY < binsNum as real * deltaHeight + deltaHeight / 2.0
  {
    var x := (posY - deltaHeight / 2.0) / deltaHeight;
    assert x * deltaHeight == posY - deltaHeight / 2.0;
    TruncRange(x, binsNum);
    assert x > -1.0 <==> posY > -deltaHeight / 2.0 by {
      ScaleBounds(x, -1.0, deltaHeight);
    }
    assert x < binsNum as real <==> posY < binsNum as real * deltaHeight + deltaHeight / 2.0 by {
      ScaleBounds(x, binsNum as real, deltaHeight);
    }
  }

  lemma ScaleBounds(x: real, y: real, d: real)
    requires d > 0.0
    ensures x < y <==> x * d < y * d
    ensures x > y <==> x * d > y * d
  {
    assert (y - x) * d == y * d - x * d;
  }

  lemma TruncRange(x: real, binsNum: int32)
    requires binsNum >= 1
    ensures 0 <= Saturate(Trunc(x)) < binsNum <==> -1.0 < x < binsNum as real
  {
  }

  /** Inside the box, at heights `0 <= posY < boxHeight` with `boxHeight = binsNum · deltaHeight`, every bin exists. */
  lemma BoltzmannInsideBox(posY: real, deltaHeight: real, binsNum: int32)
    requires deltaHeight > 0.0 && binsNum >= 1
    requires 0.0 <= posY < binsNum as real * deltaHeight
    ensures 0 <= BoltzmannBin(posY, deltaHeight) < binsNum
  {
    BoltzmannBinInRange(posY, deltaHeight, binsNum);
  }

  /** Line 392: `getBoxHeight() / binsNum`. */
  function DeltaHeight(s: ExperimentSettings, binsNum: int32): real
    requires binsNum >= 1
  {
    Float32Value(s.boxHeight) / binsNum as real
  }

  function BoltzmannBins(ps: seq<ParticleState>, deltaHeight: real): (idx: seq<int>)
    ensures |idx| == |ps| && forall k :: 0 <= k < |ps| ==> idx[k] == BoltzmannBin(ps[k].posY, deltaHeight)
  {
    seq(|ps|, k requires 0 <= k < |ps| => BoltzmannBin(ps[k].posY, deltaHeight))
  }

  predicate AllBinsExist(idx: seq<int>, binsNum: int)
  {
    forall k :: 0 <= k < |idx| ==> 0 <= idx[k] < binsNum
  }

  /**
   * The Boltzmann counts: one bin per height band, or the
   * `ArrayIndexOutOfBoundsException` of `y[chunk]++` for the first particle
   * whose bin does not exist.
   */
  function BoltzmannHistogram(ps: seq<ParticleState>, deltaHeight: real, binsNum: int32): (r: Result<seq<nat>>)
    requires binsNum >= 1
    ensures r.Success? <==> AllBinsExist(BoltzmannBins(ps, deltaHeight), binsNum)
    ensures r.Failure? ==> r.error == IndexOutOfBounds
    ensures r.Success? ==> |r.value| == binsNum && Sum(r.value) == |ps|
  {
    var idx := BoltzmannBins(ps, deltaHeight);
    if AllBinsExist(idx, binsNum) then
      HistogramTotal(idx, binsNum as nat);
      Success(Histogram(idx, binsNum as nat))
    else Failure(IndexOutOfBounds)
  }

  /** A particle that is not in any bin throws; when every particle is in the box, none does. */
  lemma BoltzmannInBoxSucceeds(ps: seq<ParticleState>, deltaHeight: real, binsNum: int32)
    requires deltaHeight > 0.0 && binsNum >= 1
    requires forall k :: 0 <= k < |ps| ==> 0.0 <= ps[k].posY < binsNum as real * deltaHeight
    ensures BoltzmannHistogram(ps, deltaHeight, binsNum).Success?
    ensures forall j :: 0 <= j < binsNum ==>
              BoltzmannHistogram(ps, deltaHeight, binsNum).value[j] == multiset(BoltzmannBins(ps, deltaHeight))[j]
  {
    var idx := BoltzmannBins(ps, deltaHeight);
    forall k | 0 <= k < |ps|
      ensures 0 <= idx[k] < binsNum
    {
      BoltzmannInsideBox(ps[k].posY, deltaHeight, binsNum);
    }
    forall j | 0 <= j < binsNum
      ensures Histogram(idx, binsNum as nat)[j] == multiset(idx)[j]
    {
      HistogramCounts(idx, binsNum as nat, j);
    }
  }

  /** Lines 399-402: every counter set to 0. */
  method ZeroCounters(y: array<nat>)
    modifies y
    ensures y[..] == Histogram([], y.Length)
  {
    var i := 0;
    while i < y.Length
      invariant 0 <= i <= y.Length && forall j :: 0 <= j < i ==> y[j] == 0
    {
      y[i] := 0;
      i := i + 1;
    }
  }

  /** One `y[chunk]++` of line 406: the counters become the histogram of one more index. */
  method CountInBin(y: array<nat>, ghost idx: seq<int>, k: nat, chunk: int)
    requires k < |idx| && idx[k] == chunk && AllBinsExist(idx[..k + 1], y.Length)
    requires y[..] == Histogram(idx[..k], y.Length)
    modifies y
    ensures y[..] == Histogram(idx[..k + 1], y.Length)
  {
    HistogramStep(idx, y.Length, k);
    ghost var before := y[..];
    y[chunk] := y[chunk] + 1;
    assert y[..] == before[chunk := before[chunk] + 1];
  }

  /** Lines 404-407: `y[chunk]++` for each particle in array order, until a bin is missing. */
  method TallyHeights(particles: array<Particle>, ghost ps: seq<ParticleState>, y: array<nat>, deltaHeight: real)
    returns (r: Result<()>)
    requires ps == StatesOf(particles)
    requires y[..] == Histogram([], y.Length) && y.Length <= Int32Max
    modifies y
    ensures var idx := BoltzmannBins(ps, deltaHeight);
      (r.Success? <==> AllBinsExist(idx, y.Length))
      && (r.Failure? ==> r.error == IndexOutOfBounds)
      && (r.Success? ==> y[..] == Histogram(idx, y.Length))
  {
    ghost var idx := BoltzmannBins(ps, deltaHeight);
    assert idx[..0] == [];
    var k := 0;
    while k < particles.Length
      invariant 0 <= k <= particles.Length
      invariant AllBinsExist(idx[..k], y.Length)
      invariant y[..] == Histogram(idx[..k], y.Length)
    {
      var chunk := BoltzmannBin(particles[k].posY, deltaHeight);
      assert chunk == idx[k];
      if chunk < 0 || chunk >= y.Length {
        return Failure(IndexOutOfBounds);
      }
      assert AllBinsExist(idx[..k + 1], y.Length) by {
        assert idx[..k + 1] == idx[..k] + [chunk];
      }
      CountInBin(y, idx, k, chunk);
      k := k + 1;
    }
    assert idx[..k] == idx;
    return Success(());
  }

  /**
   * `redrawBoltzmannDistribution(state, binsNum)`, lines 392-407: `binsNum`
   * zero counters, then `y[chunk]++` for every particle, in array order.
   */
  method BoltzmannCounts(state: ExperimentState, binsNum: int32) returns (r: Result<seq<nat>>)
    requires binsNum >= 1
    ensures r == BoltzmannHistogram(state.Snapshot().particles, DeltaHeight(state.settings, binsNum), binsNum)
  {
    ghost var ps := state.Snapshot().particles;
    var deltaHeight := Float32Value(state.settings.boxHeight) / binsNum as real;
    assert deltaHeight == DeltaHeight(state.settings, binsNum);
    ghost var expected := BoltzmannHistogram(ps, deltaHeight, binsNum);
    var y := new nat[binsNum];
    ZeroCounters(y);
    var particles := state.GetParticles();
    assert StatesOf(particles) == ps;
    var tallied := TallyHeights(particles, ps, y, deltaHeight);
    assert state.Snapshot().particles == ps;
    if tallied.Failure? {
      assert expected == Failure(IndexOutOfBounds);
      return Failure(tallied.error);
    }
    assert expected == Success(y[..]);
    return Success(y[..]);
  }

  // --- the states the particle-count plot samples -----------------------

  /** Line 257 as written: the stride `Math.floorDiv(stateCount, 10)`. */
  function AsWrittenStride(stateCount: int32): (stride: int32)
  {
    FloorDiv(stateCount, 10)
  }

  /** The loop variable after `k` turns of `i += floorDiv(stateCount, 10)`, in 32-bit arithmetic. */
  function AsWrittenIndexAfter(stateCount: int32, k: nat): int32
  {
    if k == 0 then 0 else Wrap32(AsWrittenIndexAfter(stateCount, k - 1) + AsWrittenStride(stateCount))
  }

  /**
   * For 1 to 9 states the stride is 0, `i` stays 0 and `i < stateCount`
   * holds on every turn: the loop never ends and the screen never opens.
   */
  lemma {:induction false} AsWrittenPlotNeverEnds(stateCount: int32, k: nat)
    requires 0 < stateCount < 10
    ensures AsWrittenStride(stateCount) == 0
    ensures AsWrittenIndexAfter(stateCount, k) == 0 < stateCount
  {
    if k > 0 {
      AsWrittenPlotNeverEnds(stateCount, k - 1);
    }
  }

  /** The stride evidently intended: a tenth of the states, but at least one. */
  function Stride(stateCount: int32): (stride: int32)
    ensures stride >= 1
    ensures stateCount >= 10 ==> stride == AsWrittenStride(stateCount)
  {
    if FloorDiv(stateCount, 10) < 1 then 1 else FloorDiv(stateCount, 10)
  }

  /**
   * The indices the plot loop reads, from `i` on: `i` while it is below
   * `stateCount`, then `i + stride` wrapped to 32 bits. A wrapped index is
   * negative, and reading it ends the loop with an exception.
   */
  function PlotIndices(stateCount: int32, stride: int32, i: int32): (idx: seq<int32>)
    requires stride >= 1
    ensures forall k :: 0 <= k < |idx| ==> idx[k] < stateCount
    decreases stateCount - i
  {
    if i >= stateCount then []
    else if i + stride > Int32Max then [i, Wrap32(i + stride)]
    else [i] + PlotIndices(stateCount, stride, i + stride)
  }

  /**
   * While the indices do not overflow, the plot reads the states
   * `0, stride, 2·stride, ...` below `stateCount`, each once.
   */
  lemma {:induction false} PlotIndicesAreMultiples(stateCount: int32, stride: int32, i: int32, k: nat)
    requires stride >= 1 && 0 <= i && stateCount as int + stride <= Int32Max
    requires k < |PlotIndices(stateCount, stride, i)|
    ensures PlotIndices(stateCount, stride, i)[k] == i + k * stride
    ensures 0 <= PlotIndices(stateCount, stride, i)[k] < stateCount
    decreases stateCount - i
  {
    if k > 0 {
      PlotIndicesAreMultiples(stateCount, stride, i + stride, k - 1);
    }
  }

  /** ... and it reads every state that is a multiple of the stride. */
  lemma {:induction false} PlotIndicesComplete(stateCount: int32, stride: int32, i: int32, k: nat)
    requires stride >= 1 && 0 <= i && stateCount as int + stride <= Int32Max
    requires i + k * stride < stateCount
    ensures k < |PlotIndices(stateCount, stride, i)|
    decreases k
  {
    if k > 0 {
      assert i + stride + (k - 1) * stride == i + k * stride;
      PlotIndicesComplete(stateCount, stride, i + stride, k - 1);
    }
  }
}
