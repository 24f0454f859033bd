/**
 * The model side of `DemonstrationController`: which saved state the screen
 * shows, the playback that steps through the states, and the data each
 * chart is given. Drawing, timers, the slider and the charts' look are not
 * part of the model; a chart is the data last handed to it.
 */
module Demonstration {
  import opened JavaTypes
  import opened Particles
  import opened DataStream
  import opened Settings
  import opened States
  import opened Streams
  import opened Trajectory
  import opened Loader
  import opened Analysis

  /** The number of speed bins `setState` asks the Maxwell chart for. */
  const SpeedBins: int32 := 20
  /** The number of height bins `setState` asks the Boltzmann chart for. */
  const HeightBins: int32 := 17

  /** A point of the particle-count plot: the state's time in microseconds and its four counts. */
  datatype PlotPoint = PlotPoint(time: int64, counts: SideCounts)

  /** The point the plot draws for a frame read from the file. */
  function PointOf(f: FrameRecord, s: ExperimentSettings): (p: PlotPoint)
    ensures p.time == f.time
    ensures p.counts.Total() <= |f.particles|
  {
    CountsAtMostParticles(SnapshotOf(f).particles, LeftBound(s), RightBound(s));
    PlotPoint(f.time, CountsOf(SnapshotOf(f).particles, LeftBound(s), RightBound(s)))
  }

  /** `getState` of a file holding `bytes`, as a function of the index. */
  function ReaderOf(bytes: seq<byte>, n: int32, chunk: int32, count: int32): (read: int32 -> Result<FrameRecord>)
    ensures forall index :: read(index) == ReadState(bytes, n, chunk, count, index)
  {
    (index: int32) => ReadState(bytes, n, chunk, count, index)
  }

  /**
   * What reading the states at `indices` in turn with `read` gives: a
   * point for each, or the exception of the first read that fails.
   */
  function PlotOf(read: int32 -> Result<FrameRecord>, s: ExperimentSettings, indices: seq<int32>)
    : (r: Result<seq<PlotPoint>>)
    ensures r.Success? ==> |r.value| == |indices|
  {
    if indices == [] then Success([])
    else
      var first := read(indices[0]);
      if first.Failure? then Failure(first.error)
      else
        var rest := PlotOf(read, s, indices[1..]);
        if rest.Failure? then Failure(rest.error)
        else Success([PointOf(first.value, s)] + rest.value)
  }

  /** The plot has a point for every index, each from the state read there. */
  lemma {:induction false} PlotOfPoints(read: int32 -> Result<FrameRecord>, s: ExperimentSettings,
                                        indices: seq<int32>, k: nat)
    requires PlotOf(read, s, indices).Success? && k < |indices|
    ensures read(indices[k]).Success?
    ensures PlotOf(read, s, indices).value[k] == PointOf(read(indices[k]).value, s)
  {
    if k > 0 {
      PlotOfPoints(read, s, indices[1..], k - 1);
    }
  }

  /** A plot that fails fails with the exception of the first index whose read fails. */
  lemma {:induction false} PlotOfFailure(read: int32 -> Result<FrameRecord>, s: ExperimentSettings,
                                         indices: seq<int32>)
      returns (k: nat)
    requires PlotOf(read, s, indices).Failure?
    ensures k < |indices| && read(indices[k]) == Failure(PlotOf(read, s, indices).error)
    ensures forall j :: 0 <= j < k ==> read(indices[j]).Success?
  {
    if read(indices[0]).Failure? {
      k := 0;
    } else {
      var k' := PlotOfFailure(read, s, indices[1..]);
      k := k' + 1;
      assert forall j :: 1 <= j < k ==> indices[j] == indices[1..][j - 1];
    }
  }

  /** The points read so far, followed by whatever the remaining reads give. */
  function Prepend(points: seq<PlotPoint>, r: Result<seq<PlotPoint>>): Result<seq<PlotPoint>>
  {
    if r.Failure? then r else Success(points + r.value)
  }

  /** Reading one more index of the plot: its point joins those read so far. */
  lemma PlotStep(read: int32 -> Result<FrameRecord>, s: ExperimentSettings, points: seq<PlotPoint>,
                 indices: seq<int32>)
    requires indices != [] && read(indices[0]).Success?
    ensures Prepend(points, PlotOf(read, s, indices))
            == Prepend(points + [PointOf(read(indices[0]).value, s)], PlotOf(read, s, indices[1..]))
  {
    var rest := PlotOf(read, s, indices[1..]);
    if rest.Success? {
      assert points + ([PointOf(read(indices[0]).value, s)] + rest.value)
             == points + [PointOf(read(indices[0]).value, s)] + rest.value;
    }
  }

  /** When every read succeeds, so does the plot. */
  lemma {:induction false} PlotOfAllRead(read: int32 -> Result<FrameRecord>, s: ExperimentSettings, indices: seq<int32>)
    requires forall k :: 0 <= k < |indices| ==> read(indices[k]).Success?
    ensures PlotOf(read, s, indices).Success?
  {
    if indices != [] {
      assert forall k :: 0 <= k < |indices| - 1 ==> indices[1..][k] == indices[k + 1];
      PlotOfAllRead(read, s, indices[1..]);
    }
  }

  /**
   * Where state `k` reads as frame `fs[k]` for every `k`, the plot has one
   * point per stride-th frame, counted from that frame.
   */
  lemma PlotOfFrames(read: int32 -> Result<FrameRecord>, fs: seq<FrameRecord>, t: ExperimentSettings, j: nat)
    requires |fs| <= Int32Max / 2
    requires forall k: int32 :: 0 <= k < |fs| ==> read(k) == Success(fs[k])
    ensures var indices := PlotIndices(|fs|, Stride(|fs|), 0);
      var plot := PlotOf(read, t, indices);
      plot.Success? && |plot.value| == |indices|
      && (j < |indices| ==> j * Stride(|fs|) < |fs| && plot.value[j] == PointOf(fs[j * Stride(|fs|)], t))
  {
    var count: int32 := |fs|;
    var stride := Stride(count);
    var indices := PlotIndices(count, stride, 0);
    forall k | 0 <= k < |indices|
      ensures read(indices[k]).Success?
    {
      PlotIndicesAreMultiples(count, stride, 0, k);
    }
    PlotOfAllRead(read, t, indices);
    if j < |indices| {
      PlotIndicesAreMultiples(count, stride, 0, j);
      PlotOfPoints(read, t, indices, j);
    }
  }

  /** Frames take at least their 8-byte time each. */
  lemma FramesAtLeastTimes(m: nat, c: nat)
    requires c >= 8
    ensures m * 8 <= Block(m, c)
  {
    assert Block(m, c) == m * 8 + m * (c - 8);
  }

  /** Frame `k` of a saved file, through the reader. */
  lemma SavedFrameReads(s: ExperimentSettings, fs: seq<FrameRecord>, k: int32)
    requires 0 <= s.ParticleCount() && ChunkSize(s.ParticleCount()) <= Int32Max
    requires FramesOfSize(fs, s.ParticleCount()) && |fs| <= Int32Max
    requires 0 <= k < |fs| && SettingsSize + Block(k, ChunkSize(s.ParticleCount())) <= Int32Max
    ensures ReaderOf(EncodeFile(s, fs), s.ParticleCount(), ChunkSize(s.ParticleCount()), |fs|)(k) == Success(fs[k])
  {
    LoadsFrameOfSavedFile(s, fs, s.ParticleCount(), ChunkSize(s.ParticleCount()), k);
  }

  /** On a file the io writer saved, whose every position fits in an `int`, state `k` reads as frame `k`. */
  lemma ReadsSavedFile(s: ExperimentSettings, fs: seq<FrameRecord>)
    requires 0 <= s.ParticleCount() && ChunkSize(s.ParticleCount()) <= Int32Max
    requires FramesOfSize(fs, s.ParticleCount())
    requires SettingsSize + Block(|fs|, ChunkSize(s.ParticleCount())) <= Int32Max
    ensures |fs| <= Int32Max / 2
    ensures var n := s.ParticleCount();
      forall k: int32 :: 0 <= k < |fs| ==> ReaderOf(EncodeFile(s, fs), n, ChunkSize(n), |fs|)(k) == Success(fs[k])
  {
    var n := s.ParticleCount();
    var c := ChunkSize(n);
    FramesAtLeastTimes(|fs|, c);
    forall k: int32 | 0 <= k < |fs|
      ensures ReaderOf(EncodeFile(s, fs), n, c, |fs|)(k) == Success(fs[k])
    {
      MulMonotone(k, |fs|, c);
      SavedFrameReads(s, fs, k);
    }
  }

  /** The indices still to read, from the loop variable `i` on: after a wrap only the wrapped index is left. */
  function RemainingIndices(stateCount: int32, stride: int32, i: int32): seq<int32>
    requires stride >= 1
  {
    if i >= 0 then PlotIndices(stateCount, stride, i) else [i]
  }

  /**
   * The loop variable steps from a readable index to the next: the first
   * remaining index is the current one, and the rest follow the step.
   */
  lemma RemainingStep(stateCount: int32, stride: int32, i: int32)
    requires stride >= 1 && 0 <= i < stateCount
    ensures RemainingIndices(stateCount, stride, i)[0] == i
    ensures |RemainingIndices(stateCount, stride, i)| >= 1
    ensures RemainingIndices(stateCount, stride, i)[1..]
            == RemainingIndices(stateCount, stride, Wrap32(i as int + stride as int))
    ensures Wrap32(i as int + stride as int)
            == if i as int + stride as int > Int32Max then i as int + stride as int - 0x1_0000_0000
               else i as int + stride as int
  {
    if i as int + stride as int > Int32Max {
      assert Wrap32(i as int + stride as int) == i as int + stride as int - 0x1_0000_0000;
    }
  }

  /**
   * The text of the fps field as `Integer.valueOf` sees it: empty, an int,
   * or anything else (which makes `Integer.valueOf` throw).
   */
  datatype FpsText = Empty | Digits(value: int32) | NotAnInt

  /**
   * The tick length `(long) (1000 / fps)` of `onStateTimerLaunch`, lines
   * 140-145, where an empty field means 1 frame per second, or the
   * exception that computing it throws. It is negative exactly for the
   * rates -1000 to -1.
   */
  function TickMillis(fpsText: FpsText): (r: Result<int>)
    ensures fpsText.NotAnInt? <==> r == Failure(NumberFormat)
    ensures fpsText == Digits(0) <==> r == Failure(Arithmetic)
    ensures r.Success? ==> (r.value < 0 <==> fpsText.Digits? && -1000 <= fpsText.value <= -1)
    ensures fpsText.Digits? && fpsText.value > 0 ==> r == Success(1000 / fpsText.value as int)
  {
    match fpsText
    case Empty => Success(1000)
    case NotAnInt => Failure(NumberFormat)
    case Digits(v) =>
      if v == 0 then Failure(Arithmetic)
      else
        assert v < 0 ==> (1000 / -(v as int) > 0 <==> -(v as int) <= 1000);
        Success(TruncDiv(1000, v as int))
  }

  class DemonstrationController {
    const loader: ExperimentLoader
    /** The index of the state on screen. */
    var currentState: int32
    var playbackStarted: bool
    /** The per-bin speed counts the Maxwell chart was last drawn from. */
    var speedChart: seq<real>
    /** The height counts of the Boltzmann chart; cleared before they are counted. */
    var heightChart: seq<nat>
    /** The bar chart of the particle counts, once drawn. */
    var particlesNumBar: Option<SideCounts>
    /** The particle-count plot over the sampled states. */
    var particlesNumLines: seq<PlotPoint>

    /** The index on screen is a state of the file, or 0 before any is shown. */
    predicate InRange()
      reads this
    {
      0 <= currentState && (currentState < loader.stateCount || currentState == 0)
    }

    /** The controller of an opened file, before `initialize`: fields at their Java defaults. */
    constructor (loader: ExperimentLoader)
      ensures this.loader == loader && currentState == 0 && !playbackStarted
      ensures speedChart == [] && heightChart == [] && particlesNumBar == None && particlesNumLines == []
      ensures InRange()
    {
      this.loader := loader;
      currentState := 0;
      playbackStarted := false;
      speedChart := [];
      heightChart := [];
      particlesNumBar := None;
      particlesNumLines := [];
    }

    /** A read of state `index` succeeds. */
    ghost predicate Readable(index: int32)
    {
      ReadState(loader.dataSource.bytes, loader.experimentSettings.ParticleCount(), loader.dataChunkSize,
                loader.stateCount, index).Success?
    }

    /** `getState` on this controller's file. */
    function Reader(): int32 -> Result<FrameRecord>
    {
      ReaderOf(loader.dataSource.bytes, loader.experimentSettings.ParticleCount(), loader.dataChunkSize, loader.stateCount)
    }

    /** The particles of state `index`, when it can be read. */
    ghost function ParticlesAt(index: int32): seq<ParticleState>
      requires Readable(index)
    {
      SnapshotOf(ReadState(loader.dataSource.bytes, loader.experimentSettings.ParticleCount(),
                           loader.dataChunkSize, loader.stateCount, index).value).particles
    }

    /** The Boltzmann histogram of state `index`, or the index exception a missing bin throws. */
    ghost function HeightsAt(index: int32): Result<seq<nat>>
      requires Readable(index)
    {
      BoltzmannHistogram(ParticlesAt(index), DeltaHeight(loader.experimentSettings, HeightBins), HeightBins)
    }

    /**
     * The charts once `setState` has shown state `index`: the Maxwell chart
     * of its speeds; then either its height bins and side counts, or, for a
     * height without a bin, a cleared Boltzmann chart and the bar chart
     * `bar` it had before.
     */
    ghost predicate ChartsOf(index: int32, speed: ParticleState -> real, bar: Option<SideCounts>)
      requires Readable(index) && IsSpeed(speed)
      reads this
    {
      var ps := ParticlesAt(index);
      speedChart == AsReals(MaxwellHistogram(ps, speed, SpeedBins))
      && (HeightsAt(index).Failure? ==> heightChart == [] && particlesNumBar == bar)
      && (HeightsAt(index).Success? ==>
            heightChart == HeightsAt(index).value
            && particlesNumBar == Some(CountsOf(ps, LeftBound(loader.experimentSettings),
                                                RightBound(loader.experimentSettings))))
    }

    /**
     * `setState(newValue, updateSlider)`, lines 161-184: an index past the
     * last state is ignored; otherwise the state is read, becomes the
     * current one, and the charts are redrawn from it in source order
     * (Maxwell with 20 bins, then Boltzmann with 17, then the counts). An
     * exception from a read leaves everything as it was; one from the
     * Boltzmann chart leaves that chart cleared and the bar chart as it was.
     * `speed` stands for `Particle.getSpeed`.
     */
    method SetState(newValue: int32, speed: ParticleState -> real) returns (r: Result<()>)
      requires IsSpeed(speed)
      modifies this, loader.dataSource
      ensures playbackStarted == old(playbackStarted) && particlesNumLines == old(particlesNumLines)
      ensures old(InRange()) ==> InRange()
      ensures newValue >= loader.stateCount ==>
                r == Success(()) && currentState == old(currentState) && speedChart == old(speedChart)
                && heightChart == old(heightChart) && particlesNumBar == old(particlesNumBar)
      ensures newValue < loader.stateCount && !Readable(newValue) ==>
                r.Failure? && currentState == old(currentState) && speedChart == old(speedChart)
                && heightChart == old(heightChart) && particlesNumBar == old(particlesNumBar)
      ensures newValue < loader.stateCount && Readable(newValue) ==>
                currentState == newValue && ChartsOf(newValue, speed, old(particlesNumBar))
                && r == (if HeightsAt(newValue).Failure? then Failure(IndexOutOfBounds) else Success(()))
    {
      if newValue >= loader.stateCount {
        return Success(());
      }
      var state := loader.GetState(newValue);
      if state.Failure? {
        return Failure(state.error);
      }
      ReadStateIndexCheck(loader.dataSource.bytes, loader.experimentSettings.ParticleCount(), loader.dataChunkSize,
                          loader.stateCount, newValue);
      currentState := newValue;
      r := Redraw(state.value, speed, ParticlesAt(newValue));
    }

    /**
     * The chart updates of `setState`, lines 171-183: the Maxwell chart
     * from 20 speed bins, the Boltzmann chart cleared and then filled from
     * 17 height bins, and the bar chart from the side counts, which an
     * exception from the Boltzmann chart skips.
     */
    method Redraw(state: ExperimentState, speed: ParticleState -> real, ghost ps: seq<ParticleState>)
      returns (r: Result<()>)
      requires IsSpeed(speed) && ps == state.Snapshot().particles
      modifies this
      ensures currentState == old(currentState) && playbackStarted == old(playbackStarted)
      ensures particlesNumLines == old(particlesNumLines)
      ensures var heights := BoltzmannHistogram(ps, DeltaHeight(state.settings, HeightBins), HeightBins);
        speedChart == AsReals(MaxwellHistogram(ps, speed, SpeedBins))
        && (heights.Failure? ==>
              r == Failure(IndexOutOfBounds) && heightChart == [] && particlesNumBar == old(particlesNumBar))
        && (heights.Success? ==>
              r == Success(()) && heightChart == heights.value
              && particlesNumBar == Some(CountsOf(ps, LeftBound(state.settings), RightBound(state.settings))))
    {
      // The charts are assigned once everything is counted; the counting
      // reads only the state, so the outcome is that of the source's order.
      var speeds, heights := SpeedsAndHeights(state, speed, ps);
      if heights.Failure? {
        speedChart := speeds;
        heightChart := [];
        return Failure(heights.error);
      }
      var counts := CountSides(state, LeftBound(state.settings), RightBound(state.settings));
      assert state.Snapshot().particles == ps;
      speedChart := speeds;
      heightChart := heights.value;
      particlesNumBar := Some(counts);
      return Success(());
    }

    /** The two histograms `setState` draws, counted from the state's particles `ps`. */
    static method SpeedsAndHeights(state: ExperimentState, speed: ParticleState -> real, ghost ps: seq<ParticleState>)
      returns (speeds: seq<real>, heights: Result<seq<nat>>)
      requires IsSpeed(speed) && ps == state.Snapshot().particles
      ensures speeds == AsReals(MaxwellHistogram(ps, speed, SpeedBins))
      ensures heights == BoltzmannHistogram(ps, DeltaHeight(state.settings, HeightBins), HeightBins)
    {
      speeds := MaxwellCounts(state, SpeedBins, speed);
      assert state.Snapshot().particles == ps;
      heights := BoltzmannCounts(state, HeightBins);
      assert state.Snapshot().particles == ps;
    }

    /** The `setState(currentState + 1, true)` of a timer tick, whose exception is dropped. */
    method ShowNext(speed: ParticleState -> real)
      requires IsSpeed(speed)
      requires currentState < loader.stateCount - 1
      modifies this, loader.dataSource
      ensures old(InRange()) ==> InRange()
      ensures playbackStarted == old(playbackStarted) && particlesNumLines == old(particlesNumLines)
      ensures Readable(old(currentState) + 1) ==>
                currentState == old(currentState) + 1 && ChartsOf(currentState, speed, old(particlesNumBar))
      ensures !Readable(old(currentState) + 1) ==>
                currentState == old(currentState) && speedChart == old(speedChart)
                && heightChart == old(heightChart) && particlesNumBar == old(particlesNumBar)
    {
      var _ := SetState(currentState + 1, speed);
    }

    /**
     * `onStateTimerLaunch`, lines 139-159: while playing and before the last
     * state, compute the tick length from the fps field, schedule the next
     * tick and show the next state; otherwise stop playing. The tick length
     * is computed before the `try`, so its exception (text that is not an
     * int, or a rate of 0) leaves the handler. A negative tick length makes
     * the `KeyFrame` constructor throw inside the `try`, before `setState`,
     * and the exception is printed and dropped. In all three cases nothing
     * changes and playback stays marked as started, with no tick scheduled.
     * The timer itself is not modelled.
     */
    method OnStateTimerLaunch(fpsText: FpsText, speed: ParticleState -> real) returns (r: Result<()>)
      requires IsSpeed(speed)
      modifies this, loader.dataSource
      ensures old(InRange()) ==> InRange()
      ensures particlesNumLines == old(particlesNumLines)
      ensures old(currentState) < loader.stateCount - 1 && old(playbackStarted) ==>
                playbackStarted
                && r == (if TickMillis(fpsText).Failure? then Failure(TickMillis(fpsText).error) else Success(()))
      ensures old(currentState) < loader.stateCount - 1 && old(playbackStarted)
              && (TickMillis(fpsText).Failure? || TickMillis(fpsText).value < 0 || !Readable(old(currentState) + 1)) ==>
                currentState == old(currentState) && speedChart == old(speedChart)
                && heightChart == old(heightChart) && particlesNumBar == old(particlesNumBar)
      ensures old(currentState) < loader.stateCount - 1 && old(playbackStarted)
              && TickMillis(fpsText).Success? && TickMillis(fpsText).value >= 0 && Readable(old(currentState) + 1) ==>
                currentState == old(currentState) + 1 && ChartsOf(currentState, speed, old(particlesNumBar))
      ensures !(old(currentState) < loader.stateCount - 1 && old(playbackStarted)) ==>
                r == Success(()) && !playbackStarted && currentState == old(currentState) && speedChart == old(speedChart)
                && heightChart == old(heightChart) && particlesNumBar == old(particlesNumBar)
    {
      if currentState < loader.stateCount - 1 && playbackStarted {
        var millis := TickMillis(fpsText);
        if millis.Failure? {
          return Failure(millis.error);
        }
        if millis.value < 0 {
          // KeyFrame rejects a negative time; the catch prints the exception.
          return Success(());
        }
        ShowNext(speed);
        r := Success(());
      } else {
        playbackStarted := false;
        r := Success(());
      }
    }

    /** `onPlaybackClicked`: a click pauses a running playback and resumes a paused one. */
    method OnPlaybackClicked()
      modifies this
      ensures playbackStarted == !old(playbackStarted)
      ensures currentState == old(currentState) && speedChart == old(speedChart) && heightChart == old(heightChart)
      ensures particlesNumBar == old(particlesNumBar) && particlesNumLines == old(particlesNumLines)
    {
      if playbackStarted {
        playbackStarted := false;
      } else {
        playbackStarted := true;
      }
    }

    /** `onTimeSliderValueChanged`, lines 439-446: show the state under the slider, `newValue.intValue()`. */
    method OnTimeSliderValueChanged(newValue: real, speed: ParticleState -> real)
      requires IsSpeed(speed)
      modifies this, loader.dataSource
      ensures old(InRange()) ==> InRange()
      ensures playbackStarted == old(playbackStarted) && particlesNumLines == old(particlesNumLines)
      ensures var index := Saturate(Trunc(newValue));
        index < loader.stateCount && Readable(index) ==>
          currentState == index && ChartsOf(index, speed, old(particlesNumBar))
      ensures var index := Saturate(Trunc(newValue));
        !(index < loader.stateCount && Readable(index)) ==>
          currentState == old(currentState) && speedChart == old(speedChart)
          && heightChart == old(heightChart) && particlesNumBar == old(particlesNumBar)
    {
      var _ := SetState(Saturate(Trunc(newValue)), speed);
    }

    /**
     * `plotParticlesNumLines`, lines 235-293, with the stride corrected to
     * at least 1: read the states `0, stride, 2·stride, ...` below the
     * state count and count each one's particles by side and type. An
     * index past `Integer.MAX_VALUE` wraps, and reading it throws.
     */
    method PlotParticlesNumLines() returns (r: Result<seq<PlotPoint>>)
      modifies loader.dataSource
      ensures r == PlotOf(Reader(), loader.experimentSettings, PlotIndices(loader.stateCount, Stride(loader.stateCount), 0))
    {
      var stateCount := loader.stateCount;
      var stride := Stride(stateCount);
      ghost var read := Reader();
      ghost var s := loader.experimentSettings;
      ghost var all := PlotIndices(stateCount, stride, 0);
      var points: seq<PlotPoint> := [];
      var i: int32 := 0;
      assert Prepend(points, PlotOf(read, s, all)).Success? ==> points + PlotOf(read, s, all).value == PlotOf(read, s, all).value;
      while i < stateCount
        invariant PlotOf(read, s, all) == Prepend(points, PlotOf(read, s, RemainingIndices(stateCount, stride, i)))
        decreases stateCount - i + (if i >= 0 then 0x1_0000_0000 else 0)
      {
        var point := PointAt(i);
        if point.Failure? {
          return Failure(point.error);
        }
        RemainingStep(stateCount, stride, i);
        PlotStep(read, s, points, RemainingIndices(stateCount, stride, i));
        points := points + [point.value];
        i := Wrap32(i as int + stride as int);
      }
      assert RemainingIndices(stateCount, stride, i) == [];
      assert points + [] == points;
      r := Success(points);
    }

    /** One pass of the plot loop, lines 260-285: read state `index` and count its particles by side and type. */
    method PointAt(index: int32) returns (r: Result<PlotPoint>)
      modifies loader.dataSource
      ensures r.Success? ==> 0 <= index < loader.stateCount
      ensures Reader()(index).Failure? ==> r == Failure(Reader()(index).error)
      ensures Reader()(index).Success? ==> r == Success(PointOf(Reader()(index).value, loader.experimentSettings))
    {
      var state := loader.GetState(index);
      if state.Failure? {
        return Failure(state.error);
      }
      ReadStateIndexCheck(loader.dataSource.bytes, loader.experimentSettings.ParticleCount(), loader.dataChunkSize,
                          loader.stateCount, index);
      ghost var ps := state.value.Snapshot().particles;
      var counts := CountSides(state.value, LeftBound(state.value.settings), RightBound(state.value.settings));
      assert state.value.Snapshot().particles == ps;
      return Success(PlotPoint(state.value.time, counts));
    }

    /**
     * `initialize`, lines 78-103: draw the particle-count plot (an
     * exception is printed and the plot left empty), show state 0, and
     * start playing.
     */
    method Initialize(speed: ParticleState -> real)
      requires IsSpeed(speed)
      modifies this, loader.dataSource
      ensures playbackStarted
      ensures old(InRange()) ==> InRange()
      ensures 0 < loader.stateCount && Readable(0) ==> currentState == 0 && ChartsOf(0, speed, old(particlesNumBar))
      ensures !(0 < loader.stateCount && Readable(0)) ==>
                currentState == old(currentState) && speedChart == old(speedChart)
                && heightChart == old(heightChart) && particlesNumBar == old(particlesNumBar)
      ensures var plot := PlotOf(Reader(), loader.experimentSettings,
                                 PlotIndices(loader.stateCount, Stride(loader.stateCount), 0));
        particlesNumLines == (if plot.Success? then plot.value else old(particlesNumLines))
    {
      var plot := PlotParticlesNumLines();
      if plot.Success? {
        particlesNumLines := plot.value;
      }
      var _ := SetState(0, speed);
      playbackStarted := true;
    }
  }
}
