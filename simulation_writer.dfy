/**
 * `io.SimulationWriter`: runs a simulation from its initial distribution
 * and saves it as a trajectory file: the 72-byte header, then one frame for
 * every sampling window of `10^6 / fps` microseconds that some state of the
 * run falls into, until the run has lasted `length` minutes.
 */
module IoWriter {
  import opened JavaTypes
  import opened DataStream
  import opened Ieee
  import opened Settings
  import opened Particles
  import opened States
  import opened Streams
  import opened Trajectory
  import opened Sampling
  import opened Collisions
  import opened Simulation

  lemma AppendAssoc(a: seq<byte>, b: seq<byte>, c: seq<byte>)
    ensures (a + b) + c == a + (b + c)
  {
  }

  /** `TimeUnit.MINUTES.toMicros(m)`; for an `int` count the product never reaches the saturation bound. */
  function MicrosOfMinutes(m: int32): (us: int64)
    ensures us == m * 60_000_000
  {
    m * 60_000_000
  }

  /** `Math.floorDiv(1000000, fps)` fits a `long` whatever the frame rate. */
  lemma WindowOfFps(fps: int32)
    requires fps != 0
    ensures -1_000_000 <= FloorDiv(1_000_000, fps) <= 1_000_000
  {
  }

  /** The frames the writer emits for the sampled states, in order. */
  function FramesOf(snaps: seq<StateSnapshot>, doubleBits: real -> Float64): (fs: seq<FrameRecord>)
    ensures |fs| == |snaps|
    ensures forall k :: 0 <= k < |snaps| ==> fs[k] == FrameOf(snaps[k], doubleBits)
  {
    seq(|snaps|, k requires 0 <= k < |snaps| => FrameOf(snaps[k], doubleBits))
  }

  /** All frames of states with `n` particles have `n` records. */
  lemma FramesOfStates(snaps: seq<StateSnapshot>, doubleBits: real -> Float64, n: nat)
    requires forall k :: 0 <= k < |snaps| ==> |snaps[k].particles| == n
    ensures FramesOfSize(FramesOf(snaps, doubleBits), n)
  {
  }

  lemma EncodeFramesSnoc(fs: seq<FrameRecord>, f: FrameRecord)
    ensures EncodeFrames(fs + [f]) == EncodeFrames(fs) + EncodeFrame(f)
  {
    assert (fs + [f])[..|fs|] == fs;
  }

  lemma FramesOfSnoc(snaps: seq<StateSnapshot>, x: StateSnapshot, doubleBits: real -> Float64)
    ensures FramesOf(snaps + [x], doubleBits) == FramesOf(snaps, doubleBits) + [FrameOf(x, doubleBits)]
  {
    assert forall k :: 0 <= k < |snaps| ==> (snaps + [x])[k] == snaps[k];
  }

  /**
   * The eighteen header writes, lines 35-52 of the io writer and 27-44 of
   * the legacy one, into a stream that is still empty: the header in the
   * order `readWorldSettings` reads it.
   */
  method WriteHeader(sink: ByteSink, s: ExperimentSettings)
    requires sink.written == []
    modifies sink
    ensures sink.written == EncodeHeader(s)
  {
    sink.WriteInt(s.particleCountLeft);
    assert sink.written == EncodeFieldsTo(s, 1);
    sink.WriteInt(s.particleCountRight);
    assert sink.written == EncodeFieldsTo(s, 2);
    sink.WriteFloat(s.initialSpeed);
    assert sink.written == EncodeFieldsTo(s, 3);
    sink.WriteFloat(s.speedLoss);
    assert sink.written == EncodeFieldsTo(s, 4);
    sink.WriteFloat(s.speedDeltaTop);
    assert sink.written == EncodeFieldsTo(s, 5);
    sink.WriteFloat(s.speedDeltaSides);
    assert sink.written == EncodeFieldsTo(s, 6);
    sink.WriteFloat(s.speedDeltaBottom);
    assert sink.written == EncodeFieldsTo(s, 7);
    sink.WriteFloat(s.g);
    assert sink.written == EncodeFieldsTo(s, 8);
    sink.WriteFloat(s.boxWidth);
    assert sink.written == EncodeFieldsTo(s, 9);
    sink.WriteFloat(s.boxHeight);
    assert sink.written == EncodeFieldsTo(s, 10);
    sink.WriteFloat(s.barrierPosX);
    assert sink.written == EncodeFieldsTo(s, 11);
    sink.WriteFloat(s.barrierWidth);
    assert sink.written == EncodeFieldsTo(s, 12);
    sink.WriteFloat(s.holePosY);
    assert sink.written == EncodeFieldsTo(s, 13);
    sink.WriteFloat(s.holeHeight);
    assert sink.written == EncodeFieldsTo(s, 14);
    sink.WriteFloat(s.particleRadius);
    assert sink.written == EncodeFieldsTo(s, 15);
    sink.WriteInt(s.fps);
    assert sink.written == EncodeFieldsTo(s, 16);
    sink.WriteInt(s.length);
    assert sink.written == EncodeFieldsTo(s, 17);
    sink.WriteInt(s.seed);
  }

  /** One particle of a frame: `writeInt(id)`, then `writeDouble` of posX, posY, velocityX and velocityY. */
  method WriteRecord(sink: ByteSink, p: Particle, doubleBits: real -> Float64)
    modifies sink
    ensures sink.written == old(sink.written) + EncodeRecord(RecordOf(p.State(), doubleBits))
  {
    ghost var w0 := sink.written;
    ghost var r := RecordOf(p.State(), doubleBits);
    sink.WriteInt(p.id);
    sink.WriteDouble(doubleBits(p.posX));
    sink.WriteDouble(doubleBits(p.posY));
    sink.WriteDouble(doubleBits(p.velocityX));
    sink.WriteDouble(doubleBits(p.velocityY));
    ghost var i, x, y, u, v := EncodeInt32(r.id), EncodeWord64(r.posX), EncodeWord64(r.posY),
                               EncodeWord64(r.velocityX), EncodeWord64(r.velocityY);
    AppendAssoc(w0 + i + x + y, u, v);
    AppendAssoc(w0 + i + x, y, u + v);
    AppendAssoc(w0 + i, x, y + (u + v));
    AppendAssoc(w0, i, x + (y + (u + v)));
    assert i + (x + (y + (u + v))) == i + x + y + u + v by {
      AppendAssoc(i + x + y, u, v);
      AppendAssoc(i + x, y, u + v);
      AppendAssoc(i, x, y + (u + v));
    }
  }

  lemma RecordsStep(w0: seq<byte>, rs: seq<ParticleRecord>, i: nat)
    requires i < |rs|
    ensures w0 + EncodeRecords(rs[..i]) + EncodeRecord(rs[i]) == w0 + EncodeRecords(rs[..i + 1])
  {
    assert rs[..i + 1][..i] == rs[..i];
    AppendAssoc(w0, EncodeRecords(rs[..i]), EncodeRecord(rs[i]));
  }

  /** The `for (Particle particle : currState.getParticles())` loop: every particle's record, in array order. */
  method WriteRecords(sink: ByteSink, state: ExperimentState, doubleBits: real -> Float64)
    modifies sink
    ensures state.Snapshot() == old(state.Snapshot())
    ensures sink.written == old(sink.written) + EncodeRecords(FrameOf(state.Snapshot(), doubleBits).particles)
  {
    ghost var w0 := sink.written;
    ghost var rs := FrameOf(state.Snapshot(), doubleBits).particles;
    var particles := state.GetParticles();
    var i := 0;
    while i < particles.Length
      invariant 0 <= i <= particles.Length
      invariant sink.written == w0 + EncodeRecords(rs[..i])
    {
      WriteRecord(sink, particles[i], doubleBits);
      RecordsStep(w0, rs, i);
      i := i + 1;
    }
    assert rs[..i] == rs;
  }

  /** A frame of the io writer: `writeLong(time)`, then the records. */
  method WriteFrame(sink: ByteSink, state: ExperimentState, doubleBits: real -> Float64)
    modifies sink
    ensures state.Snapshot() == old(state.Snapshot())
    ensures sink.written == old(sink.written) + EncodeFrame(FrameOf(state.Snapshot(), doubleBits))
  {
    ghost var w0 := sink.written;
    sink.WriteLong(state.time);
    WriteRecords(sink, state, doubleBits);
    AppendAssoc(w0, EncodeInt64(state.time), EncodeRecords(FrameOf(state.Snapshot(), doubleBits).particles));
  }

  /**
   * The frames saved so far grow by one frame exactly when the visited state
   * lies in the current window.
   */
  lemma SavedStep(header: seq<byte>, trace: seq<StateSnapshot>, x: StateSnapshot, delta: int,
                  doubleBits: real -> Float64)
    ensures var prev := Sampled(trace, delta, false);
      header + EncodeFrames(FramesOf(Sampled(trace + [x], delta, false), doubleBits))
      == if InWindow(x.time, |prev|, delta, false)
         then header + EncodeFrames(FramesOf(prev, doubleBits)) + EncodeFrame(FrameOf(x, doubleBits))
         else header + EncodeFrames(FramesOf(prev, doubleBits))
  {
    var prev := Sampled(trace, delta, false);
    SampledStep(trace, x, delta, false);
    if InWindow(x.time, |prev|, delta, false) {
      FramesOfSnoc(prev, x, doubleBits);
      EncodeFramesSnoc(FramesOf(prev, doubleBits), FrameOf(x, doubleBits));
      AppendAssoc(header, EncodeFrames(FramesOf(prev, doubleBits)), EncodeFrame(FrameOf(x, doubleBits)));
    }
  }

  /** The largest step `calculateTimeStep` is taken to return: far below any overflow of `time + step`. */
  const MaxStep: int := 0x4000_0000_0000_0000

  /** Consecutive visited states are one time step apart. */
  ghost predicate Stepped(trace: seq<StateSnapshot>, timeStep: StateSnapshot -> int64)
  {
    forall k :: 0 < k < |trace| ==> trace[k].time == trace[k - 1].time + timeStep(trace[k - 1])
  }

  /**
   * `trace` is a run the loop can visit: it starts at `first`, every state
   * is before `duration`, has `n` particles and the ids of `first`, and
   * each state is one time step after the one before.
   */
  ghost predicate Visits(trace: seq<StateSnapshot>, first: StateSnapshot, duration: int, n: int,
                         timeStep: StateSnapshot -> int64)
  {
    (trace != [] ==> trace[0] == first)
    && (forall k :: 0 <= k < |trace| ==> 0 <= trace[k].time < duration)
    && (forall k :: 0 <= k < |trace| ==> |trace[k].particles| == n)
    && (forall k :: 0 <= k < |trace| ==> multiset(IdsOf(trace[k].particles)) == multiset(IdsOf(first.particles)))
    && Stepped(trace, timeStep)
  }

  /**
   * Each visited state after the first is a `nextTimeStep` of the one
   * before it, by the step `calculateTimeStep` gave for that one.
   */
  ghost predicate Follows(trace: seq<StateSnapshot>, timeStep: StateSnapshot -> int64, s: ExperimentSettings,
                          m: CollisionModel)
  {
    forall k :: 0 < k < |trace| ==> IsNextTimeStep(s, trace[k - 1], trace[k], timeStep(trace[k - 1]), m)
  }

  lemma FollowsExtend(trace: seq<StateSnapshot>, timeStep: StateSnapshot -> int64, s: ExperimentSettings,
                      m: CollisionModel, x: StateSnapshot)
    requires Follows(trace, timeStep, s, m)
    requires trace != [] ==> IsNextTimeStep(s, trace[|trace| - 1], x, timeStep(trace[|trace| - 1]), m)
    ensures Follows(trace + [x], timeStep, s, m)
  {
    var t := trace + [x];
    forall k | 0 < k < |t|
      ensures IsNextTimeStep(s, t[k - 1], t[k], timeStep(t[k - 1]), m)
    {
      assert t[k - 1] == (if k - 1 < |trace| then trace[k - 1] else x);
      if k < |trace| {
        assert t[k] == trace[k];
      }
    }
  }

  /** The time of the state the loop visits after `trace`. */
  ghost function NextTime(trace: seq<StateSnapshot>, first: StateSnapshot, timeStep: StateSnapshot -> int64): int
  {
    if trace == [] then first.time else trace[|trace| - 1].time + timeStep(trace[|trace| - 1])
  }

  lemma VisitsExtend(trace: seq<StateSnapshot>, first: StateSnapshot, duration: int, n: int,
                     timeStep: StateSnapshot -> int64, x: StateSnapshot)
    requires Visits(trace, first, duration, n, timeStep)
    requires trace == [] ==> x == first
    requires x.time == NextTime(trace, first, timeStep) && 0 <= x.time < duration && |x.particles| == n
    requires multiset(IdsOf(x.particles)) == multiset(IdsOf(first.particles))
    ensures Visits(trace + [x], first, duration, n, timeStep)
  {
    var t := trace + [x];
    forall k | 0 <= k < |t|
      ensures 0 <= t[k].time < duration && |t[k].particles| == n
      ensures multiset(IdsOf(t[k].particles)) == multiset(IdsOf(first.particles))
    {
      if k < |trace| {
        assert t[k] == trace[k];
      }
    }
    forall k | 0 < k < |t|
      ensures t[k].time == t[k - 1].time + timeStep(t[k - 1])
    {
      if k < |trace| {
        assert t[k] == trace[k] && t[k - 1] == trace[k - 1];
      }
    }
  }

  /**
   * The loop has visited `trace` and stands at `cur`: `cur` is the
   * `nextTimeStep` of the last visited state (or `first` itself), one time
   * step later, with the particle count and the ids of `first`.
   */
  ghost predicate Walked(trace: seq<StateSnapshot>, cur: StateSnapshot, first: StateSnapshot, duration: int,
                         n: int, timeStep: StateSnapshot -> int64, s: ExperimentSettings, m: CollisionModel)
  {
    Visits(trace, first, duration, n, timeStep)
    && Follows(trace, timeStep, s, m)
    && (trace != [] ==> IsNextTimeStep(s, trace[|trace| - 1], cur, timeStep(trace[|trace| - 1]), m))
    && (trace == [] ==> cur == first)
    && cur.time == NextTime(trace, first, timeStep) && cur.time >= 0
    && |cur.particles| == n
    && multiset(IdsOf(cur.particles)) == multiset(IdsOf(first.particles))
  }

  /** Visiting `cur` while it is before `duration` and stepping on keeps the walk a walk. */
  lemma WalkedStep(trace: seq<StateSnapshot>, cur: StateSnapshot, first: StateSnapshot, duration: int,
                   n: int, timeStep: StateSnapshot -> int64, s: ExperimentSettings, m: CollisionModel,
                   next: StateSnapshot)
    requires Walked(trace, cur, first, duration, n, timeStep, s, m) && cur.time < duration
    requires timeStep(cur) >= 1 && next.time == cur.time + timeStep(cur) && |next.particles| == n
    requires multiset(IdsOf(next.particles)) == multiset(IdsOf(first.particles))
    requires IsNextTimeStep(s, cur, next, timeStep(cur), m)
    ensures Walked(trace + [cur], next, first, duration, n, timeStep, s, m)
  {
    VisitsExtend(trace, first, duration, n, timeStep, cur);
    FollowsExtend(trace, timeStep, s, m, cur);
    assert (trace + [cur])[|trace + [cur]| - 1] == cur;
  }

  /** Line 67: one `nextTimeStep`, which cannot fail on a state with `left + right` particles. */
  method StepState(simulator: Simulator, state: ExperimentState, deltaTime: int64, m: CollisionModel)
    returns (next: ExperimentState)
    requires state.particles.Length == simulator.experimentSettings.ParticleCount()
    ensures state.Snapshot() == old(state.Snapshot())
    ensures next.particles.Length == state.particles.Length
    ensures next.time == Wrap64(state.time + deltaTime)
    ensures multiset(IdsOf(next.Snapshot().particles)) == multiset(IdsOf(state.Snapshot().particles))
    ensures IsNextTimeStep(simulator.experimentSettings, state.Snapshot(), next.Snapshot(), deltaTime, m)
  {
    var result;
    ghost var sorted;
    result, sorted := simulator.NextTimeStep(state, deltaTime, m);
    next := result.value;
    assert StepVia(simulator.experimentSettings, state.Snapshot(), next.Snapshot(), deltaTime, m, sorted);
  }

  /**
   * The end of a loop turn, shared by both writers: the step of
   * `calculateTimeStep`, then `nextTimeStep`. The time never wraps, since no
   * visited time reaches `duration` and `duration` and the step are both at
   * most `MaxStep`.
   */
  method StepOn(simulator: Simulator, state: ExperimentState, ghost trace: seq<StateSnapshot>,
                 ghost first: StateSnapshot, duration: int, timeStep: StateSnapshot -> int64, m: CollisionModel)
    returns (next: ExperimentState)
    requires state.particles.Length == simulator.experimentSettings.ParticleCount()
    requires Walked(trace, state.Snapshot(), first, duration, simulator.experimentSettings.ParticleCount(), timeStep,
                    simulator.experimentSettings, m)
    requires state.time < duration <= MaxStep
    requires forall snap :: 1 <= timeStep(snap) <= MaxStep
    ensures state.Snapshot() == old(state.Snapshot())
    ensures next.particles.Length == state.particles.Length && next.time > state.time
    ensures IsNextTimeStep(simulator.experimentSettings, state.Snapshot(), next.Snapshot(), timeStep(state.Snapshot()), m)
    ensures Walked(trace + [state.Snapshot()], next.Snapshot(), first, duration,
                   simulator.experimentSettings.ParticleCount(), timeStep, simulator.experimentSettings, m)
  {
    var step := timeStep(state.Snapshot());
    next := StepState(simulator, state, step, m);
    WalkedStep(trace, state.Snapshot(), first, duration, simulator.experimentSettings.ParticleCount(),
               timeStep, simulator.experimentSettings, m, next.Snapshot());
  }

  /**
   * Lines 60-66: write the visited state when its time lies in window
   * `currSnap`, and move the counter on after a write.
   */
  method SampleState(out: ByteSink, state: ExperimentState, currSnap: nat, ghost header: seq<byte>,
                     ghost trace: seq<StateSnapshot>, deltaTime: int64, doubleBits: real -> Float64)
    returns (nextSnap: nat)
    requires currSnap == |Sampled(trace, deltaTime, false)|
    requires out.written == header + EncodeFrames(FramesOf(Sampled(trace, deltaTime, false), doubleBits))
    modifies out
    ensures state.Snapshot() == old(state.Snapshot())
    ensures nextSnap == |Sampled(trace + [state.Snapshot()], deltaTime, false)|
    ensures out.written
            == header + EncodeFrames(FramesOf(Sampled(trace + [state.Snapshot()], deltaTime, false), doubleBits))
  {
    SampledStep(trace, state.Snapshot(), deltaTime, false);
    SavedStep(header, trace, state.Snapshot(), deltaTime, doubleBits);
    nextSnap := currSnap;
    if InWindow(state.time, currSnap, deltaTime, false) {
      WriteFrame(out, state, doubleBits);
      nextSnap := currSnap + 1;
    }
  }

  /**
   * The state of the io writer's loop: the walk so far, the window counter
   * and the bytes written, which are the header and the frames of the
   * states sampled from the walk.
   */
  ghost predicate Saving(header: seq<byte>, written: seq<byte>, trace: seq<StateSnapshot>, cur: StateSnapshot,
                         currSnap: int, n: int, first: StateSnapshot, duration: int, deltaTime: int,
                         timeStep: StateSnapshot -> int64, s: ExperimentSettings, m: CollisionModel,
                         doubleBits: real -> Float64)
  {
    Walked(trace, cur, first, duration, n, timeStep, s, m)
    && currSnap == |Sampled(trace, deltaTime, false)|
    && written == header + EncodeFrames(FramesOf(Sampled(trace, deltaTime, false), doubleBits))
  }

  /** One turn of the io writer's loop: sample the current state, then step on. */
  method SaveTurn(simulator: Simulator, out: ByteSink, state: ExperimentState, currSnap: nat, ghost header: seq<byte>,
                  ghost trace: seq<StateSnapshot>, ghost first: StateSnapshot, duration: int, deltaTime: int64,
                  timeStep: StateSnapshot -> int64, m: CollisionModel, doubleBits: real -> Float64)
    returns (next: ExperimentState, nextSnap: nat)
    requires state.particles.Length == simulator.experimentSettings.ParticleCount()
    requires Saving(header, out.written, trace, state.Snapshot(), currSnap, simulator.experimentSettings.ParticleCount(),
                    first, duration, deltaTime, timeStep, simulator.experimentSettings, m, doubleBits)
    requires state.time < duration <= MaxStep && forall snap :: 1 <= timeStep(snap) <= MaxStep
    modifies out
    ensures state.Snapshot() == old(state.Snapshot())
    ensures next.particles.Length == state.particles.Length && next.time > state.time
    ensures Saving(header, out.written, trace + [state.Snapshot()], next.Snapshot(), nextSnap,
                   simulator.experimentSettings.ParticleCount(), first, duration, deltaTime, timeStep,
                   simulator.experimentSettings, m, doubleBits)
  {
    nextSnap := SampleState(out, state, currSnap, header, trace, deltaTime, doubleBits);
    next := StepOn(simulator, state, trace, first, duration, timeStep, m);
  }

  /** When the loop stops, the walk covers exactly the run's duration. */
  lemma WalkEnds(trace: seq<StateSnapshot>, cur: StateSnapshot, first: StateSnapshot, duration: int, n: int,
                 timeStep: StateSnapshot -> int64, s: ExperimentSettings, m: CollisionModel)
    requires Walked(trace, cur, first, duration, n, timeStep, s, m) && first.time == 0 && cur.time >= duration
    ensures trace != [] <==> duration > 0
    ensures trace != [] ==>
              trace[0] == first && Visits(trace, trace[0], duration, n, timeStep)
              && Follows(trace, timeStep, s, m)
              && NextTime(trace, trace[0], timeStep) >= duration
  {
  }

  /**
   * Lines 54-68: the `while (currState.getTime() < duration)` loop, from the
   * initial state `init` to the first state at or past `duration`, saving
   * into `out`, which holds the header. `trace` is every state it visits.
   */
  method SaveRun(simulator: Simulator, out: ByteSink, init: ExperimentState, ghost first: StateSnapshot,
                 duration: int, deltaTime: int64, timeStep: StateSnapshot -> int64, m: CollisionModel,
                 doubleBits: real -> Float64)
    returns (ghost trace: seq<StateSnapshot>)
    requires init.particles.Length == simulator.experimentSettings.ParticleCount()
    requires first == init.Snapshot() && first.time == 0
    requires duration <= MaxStep && forall snap :: 1 <= timeStep(snap) <= MaxStep
    modifies out
    ensures out.written == old(out.written) + EncodeFrames(FramesOf(Sampled(trace, deltaTime, false), doubleBits))
    ensures trace != [] <==> duration > 0
    ensures trace != [] ==>
              trace[0] == first
              && Visits(trace, trace[0], duration, simulator.experimentSettings.ParticleCount(), timeStep)
              && Follows(trace, timeStep, simulator.experimentSettings, m)
              && NextTime(trace, trace[0], timeStep) >= duration
  {
    var currSnap := 0;
    var currState := init;
    ghost var header := out.written;
    trace := [];
    assert FramesOf(Sampled(trace, deltaTime, false), doubleBits) == [];
    assert out.written == header + EncodeFrames([]);
    while currState.time < duration
      invariant currState.particles.Length == simulator.experimentSettings.ParticleCount()
      invariant Saving(header, out.written, trace, currState.Snapshot(), currSnap,
                       simulator.experimentSettings.ParticleCount(), first, duration, deltaTime, timeStep,
                       simulator.experimentSettings, m, doubleBits)
      decreases duration - currState.time
    {
      var next;
      next, currSnap := SaveTurn(simulator, out, currState, currSnap, header, trace, first, duration, deltaTime,
                                 timeStep, m, doubleBits);
      trace := trace + [currState.Snapshot()];
      currState := next;
    }
    WalkEnds(trace, currState.Snapshot(), first, duration, simulator.experimentSettings.ParticleCount(), timeStep,
             simulator.experimentSettings, m);
  }

  class SimulationWriter {
    const simulator: Simulator

    constructor (simulator: Simulator)
      ensures this.simulator == simulator
    {
      this.simulator := simulator;
    }

    /**
     * `saveSimulation()`: the saved bytes, or the exception that stopped the
     * run. `trace` is every state the loop visits, in order. The packing
     * parameters are those of `initialDistribution`; `timeStep` stands for
     * `Simulator.calculateTimeStep`, `m` for the collision numerics and
     * `doubleBits` for `Double.doubleToLongBits`.
     */
    method SaveSimulation(maxAttempts: nat, cos: real -> real, sin: real -> real,
                          timeStep: StateSnapshot -> int64, m: CollisionModel, doubleBits: real -> Float64)
      returns (r: Result<seq<byte>>, ghost trace: seq<StateSnapshot>)
      requires simulator.Valid()
      requires forall snap :: 1 <= timeStep(snap) <= MaxStep
      modifies simulator
      ensures var s := simulator.experimentSettings;
        r.Success? ==>
          s.fps != 0 && r.value == EncodeFile(s, FramesOf(Sampled(trace, FloorDiv(1_000_000, s.fps), false), doubleBits))
      ensures var s := simulator.experimentSettings;
        s.fps == 0 ==> r.Failure?
      ensures var s := simulator.experimentSettings;
        0 <= s.particleCountLeft <= s.ParticleCount() && s.fps != 0 && r.Failure? ==> r.error == AttemptsExhausted
      ensures var s := simulator.experimentSettings;
        r.Success? ==>
          (trace != [] <==> MicrosOfMinutes(s.length) > 0)
          && (trace != [] ==>
                Visits(trace, trace[0], MicrosOfMinutes(s.length), s.ParticleCount(), timeStep)
                && Follows(trace, timeStep, s, m)
                && trace[0].time == 0 && Packed(s, trace[0].particles)
                && NextTime(trace, trace[0], timeStep) >= MicrosOfMinutes(s.length))
    {
      var initial := simulator.InitialDistribution(maxAttempts, cos, sin);
      if initial.Failure? {
        return Failure(initial.error), [];
      }
      var s := simulator.experimentSettings;
      ghost var first := initial.value.Snapshot();
      assert first.time == 0 && Packed(s, first.particles);
      var duration := MicrosOfMinutes(s.length);
      if s.fps == 0 {
        return Failure(Arithmetic), [];
      }
      WindowOfFps(s.fps);
      var deltaTime: int64 := FloorDiv(1_000_000, s.fps);
      var out := new ByteSink();
      WriteHeader(out, s);
      assert initial.value.Snapshot() == first;
      trace := SaveRun(simulator, out, initial.value, first, duration, deltaTime, timeStep, m, doubleBits);
      return Success(out.written), trace;
    }
  }
}
