/**
 * `ExperimentLoader`: opens a trajectory file, reads its header, derives the
 * frame size and the number of frames from the file length, and reads any
 * frame back on request by seeking to it.
 */
module Loader {
  import opened JavaTypes
  import opened DataStream
  import opened Ieee
  import opened Settings
  import opened Particles
  import opened States
  import opened Streams
  import opened Trajectory

  // --- the size arithmetic ------------------------------------------------

  /** `dataChunkSize = getParticleCount() * 36 + 8`, in `int` arithmetic. */
  function ChunkOf(s: ExperimentSettings): int32
  {
    Wrap32(36 * s.ParticleCount() + 8)
  }

  /** Without overflow the chunk is the size of one frame, so it is positive. */
  lemma ChunkOfFrameSize(s: ExperimentSettings)
    requires 0 <= s.ParticleCount() && 36 * s.ParticleCount() + 8 <= Int32Max
    ensures ChunkOf(s) == ChunkSize(s.ParticleCount()) && ChunkOf(s) >= 8
  {
  }

  /** The chunk of a hundred particles, as the round-trip test expects. */
  lemma ChunkOfHundredParticles(s: ExperimentSettings)
    requires s.particleCountLeft == 50 && s.particleCountRight == 50
    ensures ChunkOf(s) == 3608
  {
  }

  /**
   * `stateCount = (int) ((length - SETTINGS_SIZE) / dataChunkSize)`: a
   * `long` division truncating toward zero, which throws on a zero chunk,
   * cast to `int`.
   */
  function StateCountOf(length: nat, chunk: int32): (r: Result<int32>)
    ensures r.Failure? <==> chunk == 0
    ensures r.Failure? ==> r.error == Arithmetic
  {
    if chunk == 0 then Failure(Arithmetic) else Success(Wrap32(TruncDiv(length - SettingsSize, chunk)))
  }

  /** With a positive chunk the count is the number of whole chunks after the header. */
  lemma StateCountIsWholeChunks(length: nat, chunk: int32)
    requires length >= SettingsSize && chunk > 0 && (length - SettingsSize) / chunk <= Int32Max
    ensures StateCountOf(length, chunk).Success?
    ensures var count := StateCountOf(length, chunk).value;
      count >= 0 && Block(count, chunk) <= length - SettingsSize < Block(count + 1, chunk)
  {
    var q := (length - SettingsSize) / chunk;
    assert Block(q, chunk) + (length - SettingsSize) % chunk == length - SettingsSize;
    BlockStep(q + 1, chunk);
  }

  /** `k c <= x` and `k` whole blocks of `c` stand below `x` only while `k <= x / c`. */
  lemma BlocksBelow(k: nat, c: nat, x: nat)
    requires c > 0 && k <= x / c
    ensures Block(k, c) <= x
  {
    MulMonotone(k, x / c, c);
    assert Block(x / c, c) + x % c == x;
  }

  lemma MulMonotone(a: nat, b: nat, c: nat)
    requires a <= b
    ensures Block(a, c) <= Block(b, c)
  {
    assert b * c == a * c + (b - a) * c;
  }

  /** A valid index, whatever the cast did to the count, names a frame lying wholly inside the file. */
  lemma ValidIndexWithinFile(length: nat, chunk: int32, index: int32)
    requires length >= SettingsSize && chunk > 0
    requires StateCountOf(length, chunk).Success? && 0 <= index < StateCountOf(length, chunk).value
    ensures SettingsSize + Block(index + 1, chunk) <= length
  {
    var q := (length - SettingsSize) / chunk;
    var count := StateCountOf(length, chunk).value;
    assert count <= q by {
      assert (count - q) % 0x1_0000_0000 == 0;
      if q < 0x8000_0000 {
        assert count == q;
      }
    }
    BlocksBelow(index + 1, chunk, length - SettingsSize);
  }

  /**
   * `getStatePosition(index) = SETTINGS_SIZE + index * dataChunkSize`:
   * computed in `int` and only then widened to `long`.
   */
  function StatePosition(index: int32, chunk: int32): int32
  {
    Wrap32(SettingsSize + Wrap32(index * chunk))
  }

  /** The position is the frame's offset exactly when that offset fits in an `int`. */
  lemma StatePositionExact(index: int32, chunk: int32)
    requires index >= 0 && chunk > 0
    ensures StatePosition(index, chunk) == SettingsSize + Block(index, chunk)
        <==> SettingsSize + Block(index, chunk) <= Int32Max
  {
    if SettingsSize + Block(index, chunk) <= Int32Max {
      assert Wrap32(index * chunk) == index * chunk;
    }
  }

  /** Past that bound, up to `2^32`, the position is negative, and `seek` throws. */
  lemma StatePositionNegative(index: int32, chunk: int32)
    requires index >= 0 && chunk > 0
    requires Int32Max < SettingsSize + Block(index, chunk) < 0x1_0000_0000
    ensures StatePosition(index, chunk) < 0
  {
    var x := index * chunk;
    if x <= Int32Max {
      assert Wrap32(x) == x;
      assert StatePosition(index, chunk) == SettingsSize + x - 0x1_0000_0000;
    } else {
      assert Wrap32(x) == x - 0x1_0000_0000;
    }
  }

  /** A hundred particles, 600000 states: frame 600000 is in the file, but its position is negative. */
  lemma HundredParticlesLongRun(index: int32)
    requires index == 600000
    ensures SettingsSize + Block(index, 3608) == 2164800072
    ensures StatePosition(index, 3608) < 0
  {
    StatePositionNegative(index, 3608);
  }

  // --- getState as a function of the file ---------------------------------

  /**
   * What `getState(index)` yields for a file holding `bytes`, with particle
   * count `n`, chunk size `chunk` and state count `count`: the exceptions in
   * the order the code meets them, or the frame at the seek position.
   */
  function ReadState(bytes: seq<byte>, n: int32, chunk: int32, count: int32, index: int32): (r: Result<FrameRecord>)
    ensures r.Success? ==> |r.value.particles| == n
  {
    if index < 0 || index >= count then Failure(IndexOutOfBounds)
    else
      var pos := StatePosition(index, chunk);
      if pos < 0 then Failure(InputOutput)
      else if pos + TimeSize > |bytes| then Failure(EndOfFile)
      else if n < 0 then Failure(NegativeArraySize)
      else if pos + ChunkSize(n) > |bytes| then Failure(EndOfFile)
      else Success(DecodeFrameAt(bytes, pos, n))
  }

  /** `getState` throws `IndexOutOfBoundsException` exactly for an index outside `[0, stateCount)`. */
  lemma ReadStateIndexCheck(bytes: seq<byte>, n: int32, chunk: int32, count: int32, index: int32)
    ensures ReadState(bytes, n, chunk, count, index) == Failure(IndexOutOfBounds)
        <==> index < 0 || index >= count
  {
  }

  /**
   * For a file of whole frames of `n >= 0` particles with a positive chunk,
   * every valid index whose position fits in an `int` reads a whole frame.
   */
  lemma ReadStateSucceeds(bytes: seq<byte>, n: int32, c: int32, count: int32, index: int32)
    requires 0 <= n && c == ChunkSize(n) && |bytes| >= SettingsSize
    requires StateCountOf(|bytes|, c) == Success(count) && 0 <= index < count
    requires SettingsSize + Block(index, c) <= Int32Max
    ensures SettingsSize + Block(index, c) + ChunkSize(n) <= |bytes|
    ensures ReadState(bytes, n, c, count, index) == Success(DecodeFrameAt(bytes, SettingsSize + Block(index, c), n))
  {
    ValidIndexWithinFile(|bytes|, c, index);
    StatePositionExact(index, c);
    BlockStep(index + 1, c);
  }

  lemma MulAtLeast(d: int, c: int)
    requires c >= 0
    ensures d >= 1 ==> d * c >= c
    ensures d <= -1 ==> d * c <= -c
  {
    assert d * c == c + (d - 1) * c;
    assert d * c == -c + (d + 1) * c;
  }

  /** Whole blocks divide back exactly: `(m c) / c == m`. */
  lemma BlockDiv(m: nat, c: nat)
    requires c > 0
    ensures Block(m, c) / c == m
  {
    var q, r := Block(m, c) / c, Block(m, c) % c;
    assert m * c == q * c + r;
    assert (m - q) * c == m * c - q * c;
    MulAtLeast(m - q, c);
  }

  /** A saved file of frames of `n` particles holds exactly its frames' worth of chunks. */
  lemma SavedStateCount(s: ExperimentSettings, fs: seq<FrameRecord>, n: nat)
    requires 0 < ChunkSize(n) <= Int32Max && FramesOfSize(fs, n) && |fs| <= Int32Max
    ensures |EncodeFile(s, fs)| == SettingsSize + Block(|fs|, ChunkSize(n))
    ensures StateCountOf(|EncodeFile(s, fs)|, ChunkSize(n)) == Success(|fs|)
  {
    FramesLength(fs, n);
    BlockDiv(|fs|, ChunkSize(n));
  }

  /** Settings that agree on both counts agree on the particle count and on the chunk. */
  lemma SameCounts(a: ExperimentSettings, b: ExperimentSettings)
    requires a.particleCountLeft == b.particleCountLeft && a.particleCountRight == b.particleCountRight
    ensures a.ParticleCount() == b.ParticleCount() && ChunkOf(a) == ChunkOf(b)
  {
    assert a.particleCountLeft + a.particleCountRight == b.particleCountLeft + b.particleCountRight;
  }

  /**
   * Opening a file the io writer saved, with `n` particles a frame: the
   * header is `equals` to the settings written, the chunk is one frame and
   * `stateCount` is the number of frames saved.
   */
  lemma LoadsHeaderOfSavedFile(s: ExperimentSettings, fs: seq<FrameRecord>)
    requires 0 <= s.ParticleCount() && ChunkSize(s.ParticleCount()) <= Int32Max
    requires FramesOfSize(fs, s.ParticleCount()) && |fs| <= Int32Max
    ensures var file := EncodeFile(s, fs);
      var h := DecodeHeaderAt(file, 0);
      h.Equals(s) && h.ParticleCount() == s.ParticleCount()
      && ChunkOf(h) == ChunkSize(s.ParticleCount())
      && StateCountOf(|file|, ChunkOf(h)) == Success(|fs|)
  {
    FileHeaderRoundTrip(s, fs, s.ParticleCount());
    SameCounts(DecodeHeaderAt(EncodeFile(s, fs), 0), s);
    ChunkOfFrameSize(s);
    SavedStateCount(s, fs, s.ParticleCount());
  }

  /**
   * `getState(k)` on a file the io writer saved gives back frame `k`
   * whenever the frame's offset fits in an `int`.
   */
  lemma LoadsFrameOfSavedFile(s: ExperimentSettings, fs: seq<FrameRecord>, n: int32, c: int32, k: int32)
    requires 0 <= n && c == ChunkSize(n) && FramesOfSize(fs, n) && |fs| <= Int32Max
    requires 0 <= k < |fs| && SettingsSize + Block(k, c) <= Int32Max
    ensures ReadState(EncodeFile(s, fs), n, c, |fs|, k) == Success(fs[k])
  {
    SavedStateCount(s, fs, n);
    FileFrameRoundTrip(s, fs, n, k);
    ReadsFrame(EncodeFile(s, fs), n, c, |fs|, k, fs[k]);
  }

  lemma ReadsFrame(file: seq<byte>, n: int32, c: int32, count: int32, k: int32, f: FrameRecord)
    requires 0 <= n && c == ChunkSize(n) && |file| >= SettingsSize
    requires StateCountOf(|file|, c) == Success(count) && 0 <= k < count
    requires SettingsSize + Block(k, c) <= Int32Max
    requires SettingsSize + Block(k, c) + ChunkSize(n) <= |file|
    requires DecodeFrameAt(file, SettingsSize + Block(k, c), n) == f
    ensures ReadState(file, n, c, count, k) == Success(f)
  {
    ReadStateSucceeds(file, n, c, count, k);
  }

  // --- the loader -----------------------------------------------------------

  /** `readInt` of the header field at offset `off`, the cursor being there. */
  method ReadIntAt(source: ByteSource, ghost p: nat, ghost off: nat) returns (r: Result<int32>)
    requires source.pos == p + off
    modifies source
    ensures p + off + 4 <= |source.bytes| ==>
              r == Success(DecodeInt32(source.bytes[p + off..p + off + 4])) && source.pos == p + off + 4
    ensures p + off + 4 > |source.bytes| ==> r == Failure(EndOfFile)
  {
    r := source.ReadInt();
  }

  /** `readFloat` of the header field at offset `off`, the cursor being there. */
  method ReadFloatAt(source: ByteSource, ghost p: nat, ghost off: nat) returns (r: Result<Float32>)
    requires source.pos == p + off
    modifies source
    ensures p + off + 4 <= |source.bytes| ==>
              r == Success(DecodeWord32(source.bytes[p + off..p + off + 4])) && source.pos == p + off + 4
    ensures p + off + 4 > |source.bytes| ==> r == Failure(EndOfFile)
  {
    r := source.ReadFloat();
  }

  /**
   * `readWorldSettings`: eighteen reads in header order from the cursor,
   * the first one to run out of bytes throwing `EOFException`.
   */
  method ReadWorldSettings(source: ByteSource) returns (r: Result<ExperimentSettings>)
    modifies source
    ensures old(source.pos) + SettingsSize <= |source.bytes| ==>
              r == Success(DecodeHeaderAt(source.bytes, old(source.pos))) && source.pos == old(source.pos) + SettingsSize
    ensures old(source.pos) + SettingsSize > |source.bytes| ==> r == Failure(EndOfFile)
  {
    ghost var p, b := source.pos, source.bytes;
    var particleCountLeft := ReadIntAt(source, p, 0);
    if particleCountLeft.Failure? { return Failure(particleCountLeft.error); }
    var particleCountRight := ReadIntAt(source, p, 4);
    if particleCountRight.Failure? { return Failure(particleCountRight.error); }
    var initialSpeed := ReadFloatAt(source, p, 8);
    if initialSpeed.Failure? { return Failure(initialSpeed.error); }
    var speedLoss := ReadFloatAt(source, p, 12);
    if speedLoss.Failure? { return Failure(speedLoss.error); }
    var speedDeltaTop := ReadFloatAt(source, p, 16);
    if speedDeltaTop.Failure? { return Failure(speedDeltaTop.error); }
    var speedDeltaSides := ReadFloatAt(source, p, 20);
    if speedDeltaSides.Failure? { return Failure(speedDeltaSides.error); }
    var speedDeltaBottom := ReadFloatAt(source, p, 24);
    if speedDeltaBottom.Failure? { return Failure(speedDeltaBottom.error); }
    var g := ReadFloatAt(source, p, 28);
    if g.Failure? { return Failure(g.error); }
    var boxWidth := ReadFloatAt(source, p, 32);
    if boxWidth.Failure? { return Failure(boxWidth.error); }
    var boxHeight := ReadFloatAt(source, p, 36);
    if boxHeight.Failure? { return Failure(boxHeight.error); }
    var barrierPosX := ReadFloatAt(source, p, 40);
    if barrierPosX.Failure? { return Failure(barrierPosX.error); }
    var barrierWidth := ReadFloatAt(source, p, 44);
    if barrierWidth.Failure? { return Failure(barrierWidth.error); }
    var holePosY := ReadFloatAt(source, p, 48);
    if holePosY.Failure? { return Failure(holePosY.error); }
    var holeHeight := ReadFloatAt(source, p, 52);
    if holeHeight.Failure? { return Failure(holeHeight.error); }
    var particleRadius := ReadFloatAt(source, p, 56);
    if particleRadius.Failure? { return Failure(particleRadius.error); }
    var fps := ReadIntAt(source, p, 60);
    if fps.Failure? { return Failure(fps.error); }
    var duration := ReadIntAt(source, p, 64);
    if duration.Failure? { return Failure(duration.error); }
    var seed := ReadIntAt(source, p, 68);
    if seed.Failure? { return Failure(seed.error); }
    // what the builder chain of the source builds from the eighteen values
    r := Success(ExperimentSettings(
      particleCountLeft := particleCountLeft.value, particleCountRight := particleCountRight.value,
      initialSpeed := initialSpeed.value, boxWidth := boxWidth.value, boxHeight := boxHeight.value,
      speedDeltaTop := speedDeltaTop.value, speedDeltaSides := speedDeltaSides.value,
      speedDeltaBottom := speedDeltaBottom.value, barrierPosX := barrierPosX.value,
      barrierWidth := barrierWidth.value, holePosY := holePosY.value, holeHeight := holeHeight.value,
      fps := fps.value, length := duration.value, seed := seed.value, speedLoss := speedLoss.value,
      particleRadius := particleRadius.value, g := g.value));
  }

  class ExperimentLoader {
    const dataChunkSize: int32
    const experimentSettings: ExperimentSettings
    const stateCount: int32
    const dataSource: ByteSource

    constructor (dataSource: ByteSource, settings: ExperimentSettings, chunk: int32, count: int32)
      ensures this.dataSource == dataSource && experimentSettings == settings
      ensures dataChunkSize == chunk && stateCount == count
    {
      this.dataSource := dataSource;
      experimentSettings := settings;
      dataChunkSize := chunk;
      stateCount := count;
    }

    /**
     * `getState(index)`: check the index, seek to the frame, read its time
     * and then `getParticleCount()` particles into a new array.
     */
    method GetState(index: int32) returns (r: Result<ExperimentState>)
      modifies dataSource
      ensures r.Success? <==> ReadState(dataSource.bytes, experimentSettings.ParticleCount(),
                                        dataChunkSize, stateCount, index).Success?
      ensures r.Failure? ==> ReadState(dataSource.bytes, experimentSettings.ParticleCount(),
                                       dataChunkSize, stateCount, index) == Failure(r.error)
      ensures r.Success? ==> fresh(r.value) && fresh(r.value.particles)
      ensures r.Success? ==> r.value.settings == experimentSettings
      ensures r.Success? ==> r.value.Snapshot() == SnapshotOf(ReadState(dataSource.bytes,
                               experimentSettings.ParticleCount(), dataChunkSize, stateCount, index).value)
    {
      if index < 0 || index >= stateCount {
        return Failure(IndexOutOfBounds);
      }
      var position := StatePosition(index, dataChunkSize);
      var sought := dataSource.Seek(position);
      if sought.Failure? {
        return Failure(sought.error);
      }
      var time := dataSource.ReadLong();
      if time.Failure? {
        return Failure(time.error);
      }
      var n := experimentSettings.ParticleCount();
      if n < 0 {
        return Failure(NegativeArraySize);
      }
      var placed := ReadParticles(dataSource, n);
      if placed.Failure? {
        return Failure(placed.error);
      }
      ghost var frame := DecodeFrameAt(dataSource.bytes, position, n);
      var particles := ArrayOf(placed.value, SnapshotOf(frame).particles);
      var state := BuildState(particles, experimentSettings, time.value);
      return Success(state);
    }
  }

  /** One iteration of the loop of `getState`: `readInt`, then four `readDouble`s: the record at the cursor. */
  method ReadRecord(source: ByteSource) returns (r: Result<ParticleRecord>)
    modifies source
    ensures old(source.pos) + RecordSize <= |source.bytes| ==>
              r == Success(DecodeRecordAt(source.bytes, old(source.pos))) && source.pos == old(source.pos) + RecordSize
    ensures old(source.pos) + RecordSize > |source.bytes| ==> r == Failure(EndOfFile)
  {
    var id := source.ReadInt();
    if id.Failure? {
      return Failure(id.error);
    }
    var posX := source.ReadDouble();
    if posX.Failure? {
      return Failure(posX.error);
    }
    var posY := source.ReadDouble();
    if posY.Failure? {
      return Failure(posY.error);
    }
    var velocityX := source.ReadDouble();
    if velocityX.Failure? {
      return Failure(velocityX.error);
    }
    var velocityY := source.ReadDouble();
    if velocityY.Failure? {
      return Failure(velocityY.error);
    }
    return Success(ParticleRecord(id.value, posX.value, posY.value, velocityX.value, velocityY.value));
  }

  /** `Particle.newBuilder().id(..).position(..).velocity(..).build()` on the words of a record. */
  method NewParticle(record: ParticleRecord) returns (p: Particle)
    ensures fresh(p) && p.State() == StateOf(record)
  {
    p := new Particle(record.id, Float64Value(record.posX), Float64Value(record.posY),
                      Float64Value(record.velocityX), Float64Value(record.velocityY));
  }

  /** Particle `i` of the `n` whose records start at `start`, read from the cursor standing at its record. */
  method ReadParticle(source: ByteSource, ghost start: nat, ghost n: nat, ghost i: nat) returns (r: Result<Particle>)
    requires i < n && source.pos == start + 36 * i
    modifies source
    ensures start + 36 * n <= |source.bytes| ==>
              r.Success? && fresh(r.value) && source.pos == old(source.pos) + RecordSize
              && r.value.State() == StateOf(DecodeRecordsAt(source.bytes, start, n)[i])
    ensures old(source.pos) + RecordSize <= |source.bytes| ==> r.Success? && source.pos == old(source.pos) + RecordSize
    ensures old(source.pos) + RecordSize > |source.bytes| ==> r == Failure(EndOfFile)
  {
    var record := ReadRecord(source);
    if record.Failure? {
      return Failure(record.error);
    }
    if start + 36 * n <= |source.bytes| {
      DecodeRecordsAtIndex(source.bytes, start, n, i);
    }
    var particle := NewParticle(record.value);
    return Success(particle);
  }

  /**
   * The loop of `getState`: `n` records read one after the other from the
   * cursor, each made into a new particle of the decoded values.
   */
  method ReadParticles(source: ByteSource, n: int32) returns (r: Result<seq<Particle>>)
    requires n >= 0 && source.pos <= |source.bytes|
    modifies source
    ensures old(source.pos) + 36 * n <= |source.bytes| ==>
              r.Success? && |r.value| == n && source.pos == old(source.pos) + 36 * n
              && forall k :: 0 <= k < n ==>
                   r.value[k].State() == StateOf(DecodeRecordsAt(source.bytes, old(source.pos), n)[k])
    ensures old(source.pos) + 36 * n > |source.bytes| ==> r == Failure(EndOfFile)
  {
    ghost var start, b := source.pos, source.bytes;
    var placed: seq<Particle> := [];
    var i: int32 := 0;
    while i < n
      invariant 0 <= i <= n && |placed| == i
      invariant source.pos == start + 36 * i && start + 36 * i <= |b|
      invariant start + 36 * n <= |b| ==>
                  forall k :: 0 <= k < i ==> placed[k].State() == StateOf(DecodeRecordsAt(b, start, n)[k])
    {
      var particle := ReadParticle(source, start, n, i);
      if particle.Failure? {
        return Failure(particle.error);
      }
      placed := placed + [particle.value];
      i := i + 1;
    }
    return Success(placed);
  }

  /**
   * The constructor: open the file, read the header, then derive the chunk
   * size and the state count from the file length.
   */
  method Open(file: seq<byte>) returns (r: Result<ExperimentLoader>)
    ensures |file| < SettingsSize ==> r == Failure(EndOfFile)
    ensures |file| >= SettingsSize && ChunkOf(DecodeHeaderAt(file, 0)) == 0 ==> r == Failure(Arithmetic)
    ensures |file| >= SettingsSize && ChunkOf(DecodeHeaderAt(file, 0)) != 0 ==>
      r.Success? && fresh(r.value) && fresh(r.value.dataSource)
      && r.value.dataSource.bytes == file && r.value.dataSource.pos == SettingsSize
      && r.value.experimentSettings == DecodeHeaderAt(file, 0)
      && r.value.dataChunkSize == ChunkOf(DecodeHeaderAt(file, 0))
      && StateCountOf(|file|, r.value.dataChunkSize) == Success(r.value.stateCount)
  {
    var source := new ByteSource(file);
    var settings := ReadWorldSettings(source);
    if settings.Failure? {
      return Failure(settings.error);
    }
    var chunk := ChunkOf(settings.value);
    var count := StateCountOf(source.Length(), chunk);
    if count.Failure? {
      return Failure(count.error);
    }
    var loader := new ExperimentLoader(source, settings.value, chunk, count.value);
    return Success(loader);
  }
}
