/**
 * `model.SimulationWriter`, the older copy of the writer. It writes the same
 * header and the same particle records as the io writer, but
 *  - its window is `floorDiv(duration, fps)` microseconds, `duration` being
 *    the whole run, rather than `floorDiv(1000000, fps)`;
 *  - a state is written only when its time lies strictly inside the window,
 *    so a state exactly on a window's start, the initial one among them, is
 *    skipped;
 *  - a frame's time is written with `writeDouble`, as the binary64 word of
 *    `(double) time`, rather than with `writeLong`.
 */
module LegacyWriter {
  import opened JavaTypes
  import opened DataStream
  import opened Ieee
  import opened Settings
  import opened States
  import opened Streams
  import opened Trajectory
  import opened Sampling
  import opened Collisions
  import opened Simulation
  import opened IoWriter
  import opened Loader

  /**
   * The binary64 word of `(double) t`. A `long` below `2^53` converts
   * exactly; above that the conversion rounds, and `doubleBits` stands for
   * it as it does for the particles' doubles.
   */
  function TimeWord(t: int64, doubleBits: real -> Float64): (w: Float64)
    ensures t == 0 ==> w == 0
    ensures 1 <= t < Pow2Nat(53) ==> 0x3FF0_0000_0000_0000 <= w < 0x8000_0000_0000_0000
  {
    if 0 <= t < Pow2Nat(53) then DoubleWordOfLong(t) else doubleBits(t as real)
  }

  /**
   * The frame the legacy writer emits for a state, as the fields the time
   * slot of a frame holds: the eight bytes of `writeDouble(time)` are those
   * of `writeLong` of the same word read as a `long`.
   */
  function LegacyFrameOf(snap: StateSnapshot, doubleBits: real -> Float64): (f: FrameRecord)
    ensures f.time == Signed64(TimeWord(snap.time, doubleBits))
    ensures f.particles == FrameOf(snap, doubleBits).particles
  {
    FrameRecord(Signed64(TimeWord(snap.time, doubleBits)), FrameOf(snap, doubleBits).particles)
  }

  /** The frames the legacy writer emits for the sampled states, in order. */
  function LegacyFramesOf(snaps: seq<StateSnapshot>, doubleBits: real -> Float64): (fs: seq<FrameRecord>)
    ensures |fs| == |snaps|
    ensures forall k :: 0 <= k < |snaps| ==> fs[k] == LegacyFrameOf(snaps[k], doubleBits)
  {
    seq(|snaps|, k requires 0 <= k < |snaps| => LegacyFrameOf(snaps[k], doubleBits))
  }

  lemma LegacyFramesOfSnoc(snaps: seq<StateSnapshot>, x: StateSnapshot, doubleBits: real -> Float64)
    ensures LegacyFramesOf(snaps + [x], doubleBits) == LegacyFramesOf(snaps, doubleBits) + [LegacyFrameOf(x, doubleBits)]
  {
    assert forall k :: 0 <= k < |snaps| ==> (snaps + [x])[k] == snaps[k];
  }

  /** A legacy frame of a state with `n` particles has `n` records, so it has the io frame's size. */
  lemma LegacyFramesOfStates(snaps: seq<StateSnapshot>, doubleBits: real -> Float64, n: nat)
    requires forall k :: 0 <= k < |snaps| ==> |snaps[k].particles| == n
    ensures FramesOfSize(LegacyFramesOf(snaps, doubleBits), n)
  {
  }

  /** Lines 48-55: `writeDouble(time)`, then the records as the io writer writes them. */
  method WriteLegacyFrame(sink: ByteSink, state: ExperimentState, doubleBits: real -> Float64)
    modifies sink
    ensures state.Snapshot() == old(state.Snapshot())
    ensures sink.written == old(sink.written) + EncodeFrame(LegacyFrameOf(state.Snapshot(), doubleBits))
  {
    ghost var w0 := sink.written;
    var word := TimeWord(state.time, doubleBits);
    sink.WriteDouble(word);
    assert EncodeWord64(word) == EncodeInt64(Signed64(word));
    WriteRecords(sink, state, doubleBits);
    AppendAssoc(w0, EncodeWord64(word), EncodeRecords(FrameOf(state.Snapshot(), doubleBits).particles));
  }

  /** The legacy frames saved so far grow by one frame exactly when the state lies strictly inside the window. */
  lemma LegacySavedStep(header: seq<byte>, trace: seq<StateSnapshot>, x: StateSnapshot, delta: int,
                        doubleBits: real -> Float64)
    ensures var prev := Sampled(trace, delta, true);
      header + EncodeFrames(LegacyFramesOf(Sampled(trace + [x], delta, true), doubleBits))
      == if InWindow(x.time, |prev|, delta, true)
         then header + EncodeFrames(LegacyFramesOf(prev, doubleBits)) + EncodeFrame(LegacyFrameOf(x, doubleBits))
         else header + EncodeFrames(LegacyFramesOf(prev, doubleBits))
  {
    var prev := Sampled(trace, delta, true);
    SampledStep(trace, x, delta, true);
    if InWindow(x.time, |prev|, delta, true) {
      LegacyFramesOfSnoc(prev, x, doubleBits);
      EncodeFramesSnoc(LegacyFramesOf(prev, doubleBits), LegacyFrameOf(x, doubleBits));
      AppendAssoc(header, EncodeFrames(LegacyFramesOf(prev, doubleBits)), EncodeFrame(LegacyFrameOf(x, doubleBits)));
    }
  }

  /** Lines 47-57: write the state when it lies strictly inside window `currSnap`, and move the counter on. */
  method SampleLegacyState(out: ByteSink, state: ExperimentState, currSnap: nat, ghost header: seq<byte>,
                           ghost trace: seq<StateSnapshot>, deltaTime: int64, doubleBits: real -> Float64)
    returns (nextSnap: nat)
    requires currSnap == |Sampled(trace, deltaTime, true)|
    requires out.written == header + EncodeFrames(LegacyFramesOf(Sampled(trace, deltaTime, true), doubleBits))
    modifies out
    ensures state.Snapshot() == old(state.Snapshot())
    ensures nextSnap == |Sampled(trace + [state.Snapshot()], deltaTime, true)|
    ensures out.written
            == header + EncodeFrames(LegacyFramesOf(Sampled(trace + [state.Snapshot()], deltaTime, true), doubleBits))
  {
    SampledStep(trace, state.Snapshot(), deltaTime, true);
    LegacySavedStep(header, trace, state.Snapshot(), deltaTime, doubleBits);
    nextSnap := currSnap;
    if InWindow(state.time, currSnap, deltaTime, true) {
      WriteLegacyFrame(out, state, doubleBits);
      nextSnap := currSnap + 1;
    }
  }

  /** The state of the legacy loop: the walk so far, the counter, and the header followed by the sampled frames. */
  ghost predicate LegacySaving(header: seq<byte>, written: seq<byte>, trace: seq<StateSnapshot>, cur: StateSnapshot,
                               currSnap: int, n: int, first: StateSnapshot, duration: int, deltaTime: int,
                               timeStep: StateSnapshot -> int64, s: ExperimentSettings, m: CollisionModel,
                               doubleBits: real -> Float64)
  {
    Walked(trace, cur, first, duration, n, timeStep, s, m)
    && currSnap == |Sampled(trace, deltaTime, true)|
    && written == header + EncodeFrames(LegacyFramesOf(Sampled(trace, deltaTime, true), doubleBits))
  }

  /** One turn of the legacy loop: sample the current state, then step on. */
  method LegacyTurn(simulator: Simulator, out: ByteSink, state: ExperimentState, currSnap: nat,
                    ghost header: seq<byte>, ghost trace: seq<StateSnapshot>, ghost first: StateSnapshot,
                    duration: int, deltaTime: int64, timeStep: StateSnapshot -> int64, m: CollisionModel,
                    doubleBits: real -> Float64)
    returns (next: ExperimentState, nextSnap: nat)
    requires state.particles.Length == simulator.experimentSettings.ParticleCount()
    requires LegacySaving(header, out.written, trace, state.Snapshot(), currSnap,
                          simulator.experimentSettings.ParticleCount(), first, duration, deltaTime, timeStep,
                          simulator.experimentSettings, m, doubleBits)
    requires state.time < duration <= MaxStep && forall snap :: 1 <= timeStep(snap) <= MaxStep
    modifies out
    ensures state.Snapshot() == old(state.Snapshot())
    ensures next.particles.Length == state.particles.Length && next.time > state.time
    ensures LegacySaving(header, out.written, trace + [state.Snapshot()], next.Snapshot(), nextSnap,
                         simulator.experimentSettings.ParticleCount(), first, duration, deltaTime, timeStep,
                         simulator.experimentSettings, m, doubleBits)
  {
    nextSnap := SampleLegacyState(out, state, currSnap, header, trace, deltaTime, doubleBits);
    next := StepOn(simulator, state, trace, first, duration, timeStep, m);
  }

  /** Lines 46-60: the loop from the initial state `init` until the time reaches `duration`, saving into `out`. */
  method LegacyRun(simulator: Simulator, out: ByteSink, init: ExperimentState, ghost first: StateSnapshot,
                   duration: int, deltaTime: int64, timeStep: StateSnapshot -> int64, m: CollisionModel,
                   doubleBits: real -> Float64)
    returns (ghost trace: seq<StateSnapshot>)
    requires init.particles.Length == simulator.experimentSettings.ParticleCount()
    requires first == init.Snapshot() && first.time == 0
    requires duration <= MaxStep && forall snap :: 1 <= timeStep(snap) <= MaxStep
    modifies out
    ensures out.written
            == old(out.written) + EncodeFrames(LegacyFramesOf(Sampled(trace, deltaTime, true), doubleBits))
    ensures trace != [] <==> duration > 0
    ensures trace != [] ==>
              trace[0] == first
              && Visits(trace, trace[0], duration, simulator.experimentSettings.ParticleCount(), timeStep)
              && Follows(trace, timeStep, simulator.experimentSettings, m)
              && NextTime(trace, trace[0], timeStep) >= duration
  {
    var currSnap := 0;
    var currState := init;
    ghost var header := out.written;
    trace := [];
    assert LegacyFramesOf(Sampled(trace, deltaTime, true), doubleBits) == [];
    assert out.written == header + EncodeFrames([]);
    while currState.time < duration
      invariant currState.particles.Length == simulator.experimentSettings.ParticleCount()
      invariant LegacySaving(header, out.written, trace, currState.Snapshot(), currSnap,
                             simulator.experimentSettings.ParticleCount(), first, duration, deltaTime, timeStep,
                             simulator.experimentSettings, m, doubleBits)
      decreases duration - currState.time
    {
      var next;
      next, currSnap := LegacyTurn(simulator, out, currState, currSnap, header, trace, first, duration, deltaTime,
                                   timeStep, m, doubleBits);
      trace := trace + [currState.Snapshot()];
      currState := next;
    }
    WalkEnds(trace, currState.Snapshot(), first, duration, simulator.experimentSettings.ParticleCount(), timeStep,
             simulator.experimentSettings, m);
  }

  /** A quotient rounded down by a positive divisor is no larger in size than the dividend. */
  lemma QuotientBound(e: int, g: int, q: int, bound: int)
    requires g >= 1 && q * g <= e < (q + 1) * g && -bound <= e <= bound
    ensures -bound <= q <= bound
  {
    if q >= 0 {
      MulAtLeast(g, q);
    } else {
      MulAtLeast(g, -(q + 1));
      assert g * -(q + 1) == -((q + 1) * g);
    }
  }

  /** `Math.floorDiv(duration, fps)` stays a `long` for every run length an `int` of minutes gives. */
  lemma RunWindowFits(d: int, f: int)
    requires f != 0 && -MaxStep <= d <= MaxStep
    ensures -MaxStep <= FloorDiv(d, f) <= MaxStep
  {
    var q := FloorDiv(d, f);
    if f > 0 {
      QuotientBound(d, f, q, MaxStep);
    } else {
      assert q * -f == -(q * f) && (q + 1) * -f == -((q + 1) * f);
      QuotientBound(-d, -f, q, MaxStep);
    }
  }

  class SimulationWriter {
    const simulator: Simulator

    constructor (simulator: Simulator)
      ensures this.simulator == simulator
    {
      this.simulator := simulator;
    }

    /**
     * `saveSimulation()` of the legacy writer: the saved bytes, or the
     * exception that stopped the run. The parameters are those of the io
     * writer's `SaveSimulation`.
     */
    method SaveSimulation(maxAttempts: nat, cos: real -> real, sin: real -> real,
                          timeStep: StateSnapshot -> int64, m: CollisionModel, doubleBits: real -> Float64)
      returns (r: Result<seq<byte>>, ghost trace: seq<StateSnapshot>)
      requires simulator.Valid()
      requires forall snap :: 1 <= timeStep(snap) <= MaxStep
      modifies simulator
      ensures var s := simulator.experimentSettings;
        r.Success? ==>
          s.fps != 0
          && r.value == EncodeFile(s, LegacyFramesOf(Sampled(trace, FloorDiv(MicrosOfMinutes(s.length), s.fps), true),
                                                     doubleBits))
      ensures var s := simulator.experimentSettings;
        s.fps == 0 ==> r.Failure?
      ensures var s := simulator.experimentSettings;
        0 <= s.particleCountLeft <= s.ParticleCount() && s.fps != 0 && r.Failure? ==> r.error == AttemptsExhausted
      ensures var s := simulator.experimentSettings;
        r.Success? ==>
          (trace != [] <==> MicrosOfMinutes(s.length) > 0)
          && (trace != [] ==>
                Visits(trace, trace[0], MicrosOfMinutes(s.length), s.ParticleCount(), timeStep)
                && Follows(trace, timeStep, s, m)
                && trace[0].time == 0 && Packed(s, trace[0].particles)
                && NextTime(trace, trace[0], timeStep) >= MicrosOfMinutes(s.length))
    {
      var initial := simulator.InitialDistribution(maxAttempts, cos, sin);
      if initial.Failure? {
        return Failure(initial.error), [];
      }
      var s := simulator.experimentSettings;
      ghost var first := initial.value.Snapshot();
      assert first.time == 0 && Packed(s, first.particles);
      var duration := MicrosOfMinutes(s.length);
      if s.fps == 0 {
        return Failure(Arithmetic), [];
      }
      RunWindowFits(duration, s.fps);
      var deltaTime: int64 := FloorDiv(duration, s.fps);
      var out := new ByteSink();
      WriteHeader(out, s);
      assert initial.value.Snapshot() == first;
      trace := LegacyRun(simulator, out, initial.value, first, duration, deltaTime, timeStep, m, doubleBits);
      return Success(out.written), trace;
    }
  }

  // --- what the differences amount to -----------------------------------

  /**
   * Every frame of the legacy writer lies strictly after time 0, so the
   * initial distribution is never saved, whatever the window.
   */
  lemma LegacyFramesSkipStart(trace: seq<StateSnapshot>, delta: int, doubleBits: real -> Float64)
    requires trace != [] && trace[0].time == 0
    ensures trace[0] !in Sampled(trace, delta, true)
    ensures forall k :: 0 <= k < |Sampled(trace, delta, true)| ==> Sampled(trace, delta, true)[k].time > 0
  {
    StrictSkipsInitialState(trace, delta);
    forall k | 0 <= k < |Sampled(trace, delta, true)|
      ensures Sampled(trace, delta, true)[k].time > 0
    {
      StrictFramesArePositive(trace, delta, k);
    }
  }

  /**
   * A positive time below `2^53` written as a double is not the `long`
   * `readLong` reads back: the double's word lies at or above
   * `0x3FF0000000000000`, far past the time itself.
   */
  lemma TimeMisread(t: int64, doubleBits: real -> Float64)
    requires 1 <= t < Pow2Nat(53)
    ensures DecodeInt64(EncodeWord64(TimeWord(t, doubleBits))) == TimeWord(t, doubleBits)
    ensures DecodeInt64(EncodeWord64(TimeWord(t, doubleBits))) >= 0x3FF0_0000_0000_0000 > t
  {
    Word64RoundTrip(TimeWord(t, doubleBits));
    Pow2Nat52();
  }

  /**
   * The frames a legacy file holds, read with `ExperimentLoader.getState`:
   * the particles come back as the io writer's would, but the time of
   * every frame at a positive time below `2^53` comes back wrong.
   */
  lemma LoaderMisreadsLegacyTime(s: ExperimentSettings, snaps: seq<StateSnapshot>, doubleBits: real -> Float64,
                                 k: int32)
    requires 0 <= s.ParticleCount() && ChunkSize(s.ParticleCount()) <= Int32Max
    requires forall j :: 0 <= j < |snaps| ==> |snaps[j].particles| == s.ParticleCount()
    requires |snaps| <= Int32Max && 0 <= k < |snaps|
    requires SettingsSize + Block(k, ChunkSize(s.ParticleCount())) <= Int32Max
    requires 1 <= snaps[k].time < Pow2Nat(53)
    ensures var fs := LegacyFramesOf(snaps, doubleBits);
      ReadState(EncodeFile(s, fs), s.ParticleCount(), ChunkSize(s.ParticleCount()), |fs|, k) == Success(fs[k])
      && fs[k].particles == FrameOf(snaps[k], doubleBits).particles
      && fs[k].time != snaps[k].time
  {
    var fs := LegacyFramesOf(snaps, doubleBits);
    LegacyFramesOfStates(snaps, doubleBits, s.ParticleCount());
    LoadsFrameOfSavedFile(s, fs, s.ParticleCount(), ChunkSize(s.ParticleCount()), k);
    TimeMisread(snaps[k].time, doubleBits);
    Int64RoundTrip(fs[k].time);
  }

  /**
   * With windows of `floorDiv(duration, fps)` microseconds the whole run gets
   * at most `fps + 1` frames (once `duration >= fps^2`, so that a window is
   * at least `fps` long), where the io writer's one-second windows give up
   * to `fps` frames for every second of the run.
   */
  lemma LegacyFrameBound(trace: seq<StateSnapshot>, first: StateSnapshot, duration: int64, fps: int32, n: int,
                         timeStep: StateSnapshot -> int64)
    requires Visits(trace, first, duration, n, timeStep)
    requires fps > 0 && duration >= fps * fps
    ensures |Sampled(trace, FloorDiv(duration, fps), true)| <= fps + 1
  {
    var delta := FloorDiv(duration, fps);
    var count := |Sampled(trace, delta, true)|;
    if count > 0 {
      WindowsStartBeforeEnd(trace, first, duration, n, timeStep, delta, count - 1);
      FloorDivLarge(duration, fps);
      MulAtLeast(count - 1 - fps, delta);
      assert (count - 1 - fps) * delta == (count - 1) * delta - fps * delta;
    }
  }

  /** Every frame's window opens before the run ends, the frame's own time being before it. */
  lemma WindowsStartBeforeEnd(trace: seq<StateSnapshot>, first: StateSnapshot, duration: int, n: int,
                              timeStep: StateSnapshot -> int64, delta: int, k: nat)
    requires Visits(trace, first, duration, n, timeStep)
    requires k < |Sampled(trace, delta, true)|
    ensures k * delta < duration
  {
    var frames := Sampled(trace, delta, true);
    var j :| 0 <= j < |trace| && trace[j] == frames[k];
    assert InWindow(frames[k].time, k, delta, true);
  }

  /** A window of `floorDiv(d, f)` microseconds is at least `f` long once `d >= f^2`, and overshoots `d` by less than `f`. */
  lemma FloorDivLarge(d: int, f: int)
    requires f > 0 && d >= f * f
    ensures FloorDiv(d, f) >= f && d < f * FloorDiv(d, f) + f
  {
    var q := FloorDiv(d, f);
    MulAtLeast(f - q, f);
    assert (f - q) * f == f * f - q * f;
  }
}
