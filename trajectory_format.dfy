/**
 * The trajectory file: a 72-byte header holding the experiment settings,
 * then one fixed-size frame per saved state, everything big-endian as
 * `DataOutputStream` writes it. A frame is the state's time as a `long`
 * and, per particle in array order, its id as an `int` and its position
 * and velocity as four `double`s: `36 n + 8` bytes for `n` particles.
 *
 * Every encoder appends its last part to the encoding of the parts before
 * it, the order in which a stream writes them.
 */
module Trajectory {
  import opened JavaTypes
  import opened DataStream
  import opened Ieee
  import opened Settings
  import opened Particles
  import opened States

  /** `ExperimentLoader.SETTINGS_SIZE`. */
  const SettingsSize: int := 72
  /** One particle: an `int` and four `double`s. */
  const RecordSize: int := 36
  /** The `long` time at the head of a frame. */
  const TimeSize: int := 8

  // --- the header -----------------------------------------------------

  /** One four-byte header field: an `int` or a `float`. */
  datatype HeaderField = IntField(i: int32) | FloatField(w: Float32)

  /** A field as `writeInt` or `writeFloat` puts it. */
  function EncodeField(f: HeaderField): (b: seq<byte>)
    ensures |b| == 4
  {
    match f
    case IntField(x) => EncodeInt32(x)
    case FloatField(w) => EncodeFloat(w)
  }

  /** Header field `k`, in the order the writers emit and the loader reads the eighteen fields. */
  function FieldOf(s: ExperimentSettings, k: nat): HeaderField
    requires k < 18
  {
    if k == 0 then IntField(s.particleCountLeft)
    else if k == 1 then IntField(s.particleCountRight)
    else if k == 2 then FloatField(s.initialSpeed)
    else if k == 3 then FloatField(s.speedLoss)
    else if k == 4 then FloatField(s.speedDeltaTop)
    else if k == 5 then FloatField(s.speedDeltaSides)
    else if k == 6 then FloatField(s.speedDeltaBottom)
    else if k == 7 then FloatField(s.g)
    else if k == 8 then FloatField(s.boxWidth)
    else if k == 9 then FloatField(s.boxHeight)
    else if k == 10 then FloatField(s.barrierPosX)
    else if k == 11 then FloatField(s.barrierWidth)
    else if k == 12 then FloatField(s.holePosY)
    else if k == 13 then FloatField(s.holeHeight)
    else if k == 14 then FloatField(s.particleRadius)
    else if k == 15 then IntField(s.fps)
    else if k == 16 then IntField(s.length)
    else IntField(s.seed)
  }

  /** The first `k` header fields, one after the other. */
  function EncodeFieldsTo(s: ExperimentSettings, k: nat): (b: seq<byte>)
    requires k <= 18
    ensures |b| == 4 * k
  {
    if k == 0 then [] else EncodeFieldsTo(s, k - 1) + EncodeField(FieldOf(s, k - 1))
  }

  function EncodeHeader(s: ExperimentSettings): (b: seq<byte>)
    ensures |b| == SettingsSize
  {
    EncodeFieldsTo(s, 18)
  }

  /** Where the first `k` fields sit at `p`, so do the first `k - 1`, and field `k - 1` follows them. */
  lemma PeelField(s: ExperimentSettings, b: seq<byte>, p: nat, k: nat)
    requires 0 < k <= 18 && At(b, p, EncodeFieldsTo(s, k))
    ensures At(b, p, EncodeFieldsTo(s, k - 1))
    ensures At(b, p + 4 * (k - 1), EncodeField(FieldOf(s, k - 1)))
  {
    AtConcat(b, p, EncodeFieldsTo(s, k - 1), EncodeField(FieldOf(s, k - 1)));
  }

  /** What reading a field's four bytes at `p` yields: its `int`, or the `floatToIntBits` word of its `float`. */
  predicate FieldReads(b: seq<byte>, p: nat, f: HeaderField)
    requires p + 4 <= |b|
  {
    match f
    case IntField(x) => DecodeInt32(b[p..p + 4]) == x
    case FloatField(w) => DecodeWord32(b[p..p + 4]) == FloatToIntBits(w)
  }

  lemma AtField(b: seq<byte>, p: nat, f: HeaderField)
    requires At(b, p, EncodeField(f))
    ensures p + 4 <= |b| && FieldReads(b, p, f)
  {
    match f
    case IntField(x) => AtInt32(b, p, x);
    case FloatField(w) => AtFloat(b, p, w);
  }

  /** Where the first `n` fields sit at `p`, field `k < n` reads back at `p + 4 k`. */
  lemma {:induction false} FieldRoundTrip(s: ExperimentSettings, b: seq<byte>, p: nat, n: nat, k: nat)
    requires k < n <= 18 && At(b, p, EncodeFieldsTo(s, n))
    ensures p + 4 * k + 4 <= |b| && FieldReads(b, p + 4 * k, FieldOf(s, k))
  {
    PeelField(s, b, p, n);
    if k == n - 1 {
      AtField(b, p + 4 * k, FieldOf(s, k));
    } else {
      FieldRoundTrip(s, b, p, n - 1, k);
    }
  }

  /** The settings `readWorldSettings` builds from the 72 bytes at `p`, read in header order. */
  function DecodeHeaderAt(b: seq<byte>, p: nat): (s: ExperimentSettings)
    requires p + SettingsSize <= |b|
  {
    ExperimentSettings(
      particleCountLeft := DecodeInt32(b[p..p + 4]),
      particleCountRight := DecodeInt32(b[p + 4..p + 8]),
      initialSpeed := DecodeWord32(b[p + 8..p + 12]),
      speedLoss := DecodeWord32(b[p + 12..p + 16]),
      speedDeltaTop := DecodeWord32(b[p + 16..p + 20]),
      speedDeltaSides := DecodeWord32(b[p + 20..p + 24]),
      speedDeltaBottom := DecodeWord32(b[p + 24..p + 28]),
      g := DecodeWord32(b[p + 28..p + 32]),
      boxWidth := DecodeWord32(b[p + 32..p + 36]),
      boxHeight := DecodeWord32(b[p + 36..p + 40]),
      barrierPosX := DecodeWord32(b[p + 40..p + 44]),
      barrierWidth := DecodeWord32(b[p + 44..p + 48]),
      holePosY := DecodeWord32(b[p + 48..p + 52]),
      holeHeight := DecodeWord32(b[p + 52..p + 56]),
      particleRadius := DecodeWord32(b[p + 56..p + 60]),
      fps := DecodeInt32(b[p + 60..p + 64]),
      length := DecodeInt32(b[p + 64..p + 68]),
      seed := DecodeInt32(b[p + 68..p + 72]))
  }

  /** The settings with every float replaced by its `floatToIntBits` word: what a header keeps. */
  function CanonicalFloats(s: ExperimentSettings): (c: ExperimentSettings)
  {
    s.(initialSpeed := FloatToIntBits(s.initialSpeed), speedLoss := FloatToIntBits(s.speedLoss),
       speedDeltaTop := FloatToIntBits(s.speedDeltaTop), speedDeltaSides := FloatToIntBits(s.speedDeltaSides),
       speedDeltaBottom := FloatToIntBits(s.speedDeltaBottom), g := FloatToIntBits(s.g),
       boxWidth := FloatToIntBits(s.boxWidth), boxHeight := FloatToIntBits(s.boxHeight),
       barrierPosX := FloatToIntBits(s.barrierPosX), barrierWidth := FloatToIntBits(s.barrierWidth),
       holePosY := FloatToIntBits(s.holePosY), holeHeight := FloatToIntBits(s.holeHeight),
       particleRadius := FloatToIntBits(s.particleRadius))
  }

  /** Canonical settings are `equals` to the originals, and are the originals when no float is a NaN. */
  lemma CanonicalFloatsEquals(s: ExperimentSettings)
    ensures CanonicalFloats(s).Equals(s)
    ensures s.NoNaN() ==> CanonicalFloats(s) == s
  {
    FloatToIntBitsIdempotent(s.initialSpeed);
    FloatToIntBitsIdempotent(s.speedLoss);
    FloatToIntBitsIdempotent(s.speedDeltaTop);
    FloatToIntBitsIdempotent(s.speedDeltaSides);
    FloatToIntBitsIdempotent(s.speedDeltaBottom);
    FloatToIntBitsIdempotent(s.g);
    FloatToIntBitsIdempotent(s.boxWidth);
    FloatToIntBitsIdempotent(s.boxHeight);
    FloatToIntBitsIdempotent(s.barrierPosX);
    FloatToIntBitsIdempotent(s.barrierWidth);
    FloatToIntBitsIdempotent(s.holePosY);
    FloatToIntBitsIdempotent(s.holeHeight);
    FloatToIntBitsIdempotent(s.particleRadius);
  }

  /** The two particle counts, the float parameters and the three trailing ints read back as written. */
  lemma HeaderCountsRoundTrip(s: ExperimentSettings, b: seq<byte>, p: nat)
    requires At(b, p, EncodeHeader(s))
    ensures p + SettingsSize <= |b|
    ensures DecodeInt32(b[p..p + 4]) == s.particleCountLeft
    ensures DecodeInt32(b[p + 4..p + 8]) == s.particleCountRight
    ensures DecodeInt32(b[p + 60..p + 64]) == s.fps
    ensures DecodeInt32(b[p + 64..p + 68]) == s.length
    ensures DecodeInt32(b[p + 68..p + 72]) == s.seed
  {
    FieldRoundTrip(s, b, p, 18, 0);
    FieldRoundTrip(s, b, p, 18, 1);
    FieldRoundTrip(s, b, p, 18, 15);
    FieldRoundTrip(s, b, p, 18, 16);
    FieldRoundTrip(s, b, p, 18, 17);
  }

  /** The initial speed, the speed loss, the three speed deltas, `g` and the box size read back as written. */
  lemma HeaderSpeedsRoundTrip(s: ExperimentSettings, b: seq<byte>, p: nat)
    requires At(b, p, EncodeHeader(s))
    ensures p + SettingsSize <= |b|
    ensures DecodeWord32(b[p + 8..p + 12]) == FloatToIntBits(s.initialSpeed)
    ensures DecodeWord32(b[p + 12..p + 16]) == FloatToIntBits(s.speedLoss)
    ensures DecodeWord32(b[p + 16..p + 20]) == FloatToIntBits(s.speedDeltaTop)
    ensures DecodeWord32(b[p + 20..p + 24]) == FloatToIntBits(s.speedDeltaSides)
    ensures DecodeWord32(b[p + 24..p + 28]) == FloatToIntBits(s.speedDeltaBottom)
    ensures DecodeWord32(b[p + 28..p + 32]) == FloatToIntBits(s.g)
    ensures DecodeWord32(b[p + 32..p + 36]) == FloatToIntBits(s.boxWidth)
    ensures DecodeWord32(b[p + 36..p + 40]) == FloatToIntBits(s.boxHeight)
  {
    FieldRoundTrip(s, b, p, 18, 2);
    FieldRoundTrip(s, b, p, 18, 3);
    FieldRoundTrip(s, b, p, 18, 4);
    FieldRoundTrip(s, b, p, 18, 5);
    FieldRoundTrip(s, b, p, 18, 6);
    FieldRoundTrip(s, b, p, 18, 7);
    FieldRoundTrip(s, b, p, 18, 8);
    FieldRoundTrip(s, b, p, 18, 9);
  }

  /** The barrier, the hole and the particle radius read back as written. */
  lemma HeaderObstaclesRoundTrip(s: ExperimentSettings, b: seq<byte>, p: nat)
    requires At(b, p, EncodeHeader(s))
    ensures p + SettingsSize <= |b|
    ensures DecodeWord32(b[p + 40..p + 44]) == FloatToIntBits(s.barrierPosX)
    ensures DecodeWord32(b[p + 44..p + 48]) == FloatToIntBits(s.barrierWidth)
    ensures DecodeWord32(b[p + 48..p + 52]) == FloatToIntBits(s.holePosY)
    ensures DecodeWord32(b[p + 52..p + 56]) == FloatToIntBits(s.holeHeight)
    ensures DecodeWord32(b[p + 56..p + 60]) == FloatToIntBits(s.particleRadius)
  {
    FieldRoundTrip(s, b, p, 18, 10);
    FieldRoundTrip(s, b, p, 18, 11);
    FieldRoundTrip(s, b, p, 18, 12);
    FieldRoundTrip(s, b, p, 18, 13);
    FieldRoundTrip(s, b, p, 18, 14);
  }

  /**
   * A header reads back as the settings that were written, each float as
   * its `floatToIntBits` word: `equals` to them, and equal to them when no
   * float is a NaN.
   */
  lemma HeaderRoundTrip(s: ExperimentSettings, b: seq<byte>, p: nat)
    requires At(b, p, EncodeHeader(s))
    ensures p + SettingsSize <= |b|
    ensures DecodeHeaderAt(b, p) == CanonicalFloats(s)
    ensures DecodeHeaderAt(b, p).Equals(s)
    ensures s.NoNaN() ==> DecodeHeaderAt(b, p) == s
  {
    HeaderCountsRoundTrip(s, b, p);
    HeaderSpeedsRoundTrip(s, b, p);
    HeaderObstaclesRoundTrip(s, b, p);
    CanonicalFloatsEquals(s);
  }

  // --- frames ---------------------------------------------------------

  /** A particle as a frame holds it: the id and the words of its four doubles. */
  datatype ParticleRecord = ParticleRecord(
    id: int32, posX: Float64, posY: Float64, velocityX: Float64, velocityY: Float64)

  /** One saved state: its time and its particles in array order. */
  datatype FrameRecord = FrameRecord(time: int64, particles: seq<ParticleRecord>)

  /** `dataChunkSize` for `n` particles, before any 32-bit wrap-around: `n` records after the time. */
  function ChunkSize(n: int): int
  {
    36 * n + 8
  }

  /** `writeInt(id)`, then `writeDouble` of posX, posY, velocityX and velocityY. */
  function EncodeRecord(r: ParticleRecord): (b: seq<byte>)
    ensures |b| == RecordSize
  {
    EncodeInt32(r.id) + EncodeWord64(r.posX) + EncodeWord64(r.posY)
    + EncodeWord64(r.velocityX) + EncodeWord64(r.velocityY)
  }

  function EncodeRecords(rs: seq<ParticleRecord>): (b: seq<byte>)
    ensures |b| == 36 * |rs|
  {
    if rs == [] then [] else EncodeRecords(rs[..|rs| - 1]) + EncodeRecord(rs[|rs| - 1])
  }

  /** `writeLong(time)`, then the records. */
  function EncodeFrame(f: FrameRecord): (b: seq<byte>)
    ensures |b| == ChunkSize(|f.particles|)
  {
    EncodeInt64(f.time) + EncodeRecords(f.particles)
  }

  /** The particle `getState` reads at `p`: id, posX, posY, velocityX, velocityY. */
  function DecodeRecordAt(b: seq<byte>, p: nat): ParticleRecord
    requires p + RecordSize <= |b|
  {
    ParticleRecord(
      DecodeInt32(b[p..p + 4]),
      DecodeWord64(b[p + 4..p + 12]), DecodeWord64(b[p + 12..p + 20]),
      DecodeWord64(b[p + 20..p + 28]), DecodeWord64(b[p + 28..p + 36]))
  }

  /** The `n` particles `getState` reads one after the other from `p` on. */
  function DecodeRecordsAt(b: seq<byte>, p: nat, n: nat): (rs: seq<ParticleRecord>)
    requires p + 36 * n <= |b|
    ensures |rs| == n
  {
    if n == 0 then [] else DecodeRecordsAt(b, p, n - 1) + [DecodeRecordAt(b, p + 36 * (n - 1))]
  }

  /** Record `k` of the records at `p` is the record `36 k` bytes on. */
  lemma {:induction false} DecodeRecordsAtIndex(b: seq<byte>, p: nat, n: nat, k: nat)
    requires p + 36 * n <= |b| && k < n
    ensures DecodeRecordsAt(b, p, n)[k] == DecodeRecordAt(b, p + 36 * k)
  {
    if k < n - 1 {
      DecodeRecordsAtIndex(b, p, n - 1, k);
    }
  }

  /** The frame of `n` particles at `p`: the time, then the records. */
  function DecodeFrameAt(b: seq<byte>, p: nat, n: nat): (f: FrameRecord)
    requires p + ChunkSize(n) <= |b|
    ensures |f.particles| == n
  {
    FrameRecord(DecodeInt64(b[p..p + TimeSize]), DecodeRecordsAt(b, p + TimeSize, n))
  }

  /** A record reads back as exactly the words that were written. */
  lemma RecordRoundTrip(r: ParticleRecord, b: seq<byte>, p: nat)
    requires At(b, p, EncodeRecord(r))
    ensures p + RecordSize <= |b| && DecodeRecordAt(b, p) == r
  {
    var i, x, y, u, v := EncodeInt32(r.id), EncodeWord64(r.posX), EncodeWord64(r.posY),
                         EncodeWord64(r.velocityX), EncodeWord64(r.velocityY);
    AtConcat(b, p, i + x + y + u, v);
    AtConcat(b, p, i + x + y, u);
    AtConcat(b, p, i + x, y);
    AtConcat(b, p, i, x);
    AtInt32(b, p, r.id);
    AtWord64(b, p + 4, r.posX);
    AtWord64(b, p + 12, r.posY);
    AtWord64(b, p + 20, r.velocityX);
    AtWord64(b, p + 28, r.velocityY);
  }

  /** Encoded records read back as the list that was written. */
  lemma {:induction false} RecordsRoundTrip(rs: seq<ParticleRecord>, b: seq<byte>, p: nat)
    requires At(b, p, EncodeRecords(rs))
    ensures p + 36 * |rs| <= |b|
    ensures DecodeRecordsAt(b, p, |rs|) == rs
  {
    if rs != [] {
      var n := |rs|;
      RecordsFrontAt(rs, b, p);
      RecordsLastAt(rs, b, p);
      RecordsRoundTrip(rs[..n - 1], b, p);
      RecordRoundTrip(rs[n - 1], b, p + 36 * (n - 1));
      DecodeRecordsAtLast(b, p, n);
      FrontLast(rs);
    }
  }

  /** Where the records sit at `p`, all but the last sit at `p` too. */
  lemma RecordsFrontAt(rs: seq<ParticleRecord>, b: seq<byte>, p: nat)
    requires rs != [] && At(b, p, EncodeRecords(rs))
    ensures At(b, p, EncodeRecords(rs[..|rs| - 1]))
  {
    AtConcat(b, p, EncodeRecords(rs[..|rs| - 1]), EncodeRecord(rs[|rs| - 1]));
  }

  /** Where the records sit at `p`, the last sits right after all the others. */
  lemma RecordsLastAt(rs: seq<ParticleRecord>, b: seq<byte>, p: nat)
    requires rs != [] && At(b, p, EncodeRecords(rs))
    ensures At(b, p + |EncodeRecords(rs[..|rs| - 1])|, EncodeRecord(rs[|rs| - 1]))
  {
    AtConcat(b, p, EncodeRecords(rs[..|rs| - 1]), EncodeRecord(rs[|rs| - 1]));
  }

  /** The records at `p` are the first `n - 1` of them followed by the one `36 (n - 1)` bytes on. */
  lemma DecodeRecordsAtLast(b: seq<byte>, p: nat, n: nat)
    requires 0 < n && p + 36 * n <= |b|
    ensures DecodeRecordsAt(b, p, n) == DecodeRecordsAt(b, p, n - 1) + [DecodeRecordAt(b, p + 36 * (n - 1))]
  {
  }

  /** A non-empty list is its front followed by its last element. */
  lemma FrontLast<T>(s: seq<T>)
    requires s != []
    ensures s == s[..|s| - 1] + [s[|s| - 1]]
  {
  }

  /** A frame reads back as the time and the records that were written. */
  lemma FrameRoundTrip(f: FrameRecord, b: seq<byte>, p: nat)
    requires At(b, p, EncodeFrame(f))
    ensures p + ChunkSize(|f.particles|) <= |b|
    ensures DecodeFrameAt(b, p, |f.particles|) == f
  {
    AtConcat(b, p, EncodeInt64(f.time), EncodeRecords(f.particles));
    AtInt64(b, p, f.time);
    RecordsRoundTrip(f.particles, b, p + TimeSize);
  }

  /** Every frame holds `n` particles. */
  predicate FramesOfSize(fs: seq<FrameRecord>, n: nat)
  {
    forall k :: 0 <= k < |fs| ==> |fs[k].particles| == n
  }

  lemma FramesOfSizeFront(fs: seq<FrameRecord>, n: nat)
    requires FramesOfSize(fs, n) && fs != []
    ensures FramesOfSize(fs[..|fs| - 1], n)
  {
    var front := fs[..|fs| - 1];
    forall k | 0 <= k < |front|
      ensures |front[k].particles| == n
    {
      assert front[k] == fs[k];
    }
  }

  function EncodeFrames(fs: seq<FrameRecord>): (b: seq<byte>)
  {
    if fs == [] then [] else EncodeFrames(fs[..|fs| - 1]) + EncodeFrame(fs[|fs| - 1])
  }

  /** Where block `k` of width `c` starts: `k c`. */
  function Block(k: nat, c: nat): nat
  {
    k * c
  }

  lemma BlockStep(k: nat, c: nat)
    requires k > 0
    ensures Block(k, c) == Block(k - 1, c) + c
  {
  }

  /** Frames of `n` particles each take `ChunkSize(n)` bytes apiece. */
  lemma {:induction false} FramesLength(fs: seq<FrameRecord>, n: nat)
    requires FramesOfSize(fs, n)
    ensures |EncodeFrames(fs)| == Block(|fs|, ChunkSize(n))
  {
    if fs != [] {
      var front, last := fs[..|fs| - 1], fs[|fs| - 1];
      FramesOfSizeFront(fs, n);
      assert |last.particles| == n;
      assert EncodeFrames(fs) == EncodeFrames(front) + EncodeFrame(last);
      FramesLength(front, n);
      BlockStep(|fs|, ChunkSize(n));
    }
  }

  /** Frame `k` of frames of `n` particles encoded at `p` is read back at `p + k C`, for `C = ChunkSize(n)`. */
  lemma {:induction false} FramesRoundTrip(fs: seq<FrameRecord>, n: nat, b: seq<byte>, p: nat, k: nat)
    requires FramesOfSize(fs, n) && k < |fs|
    requires At(b, p, EncodeFrames(fs))
    ensures p + Block(k, ChunkSize(n)) + ChunkSize(n) <= |b|
    ensures DecodeFrameAt(b, p + Block(k, ChunkSize(n)), n) == fs[k]
  {
    var front := fs[..|fs| - 1];
    assert EncodeFrames(fs) == EncodeFrames(front) + EncodeFrame(fs[|fs| - 1]);
    AtConcat(b, p, EncodeFrames(front), EncodeFrame(fs[|fs| - 1]));
    FramesOfSizeFront(fs, n);
    if k == |fs| - 1 {
      FramesLength(front, n);
      FrameRoundTrip(fs[k], b, p + Block(k, ChunkSize(n)));
    } else {
      FramesRoundTrip(front, n, b, p, k);
    }
  }

  /** A whole file: the header, then the frames back to back. */
  function EncodeFile(s: ExperimentSettings, fs: seq<FrameRecord>): seq<byte>
  {
    EncodeHeader(s) + EncodeFrames(fs)
  }

  /** Reading a file the writer produced: its length, and the header gives back the settings. */
  lemma FileHeaderRoundTrip(s: ExperimentSettings, fs: seq<FrameRecord>, n: nat)
    requires FramesOfSize(fs, n)
    ensures |EncodeFile(s, fs)| == SettingsSize + Block(|fs|, ChunkSize(n))
    ensures DecodeHeaderAt(EncodeFile(s, fs), 0) == CanonicalFloats(s)
    ensures DecodeHeaderAt(EncodeFile(s, fs), 0).Equals(s)
  {
    var b := EncodeFile(s, fs);
    FramesLength(fs, n);
    assert At(b, 0, b);
    AtConcat(b, 0, EncodeHeader(s), EncodeFrames(fs));
    HeaderRoundTrip(s, b, 0);
  }

  /** Reading a file the writer produced: the frame at `72 + k C` gives back frame `k`. */
  lemma FileFrameRoundTrip(s: ExperimentSettings, fs: seq<FrameRecord>, n: nat, k: nat)
    requires FramesOfSize(fs, n) && k < |fs|
    ensures SettingsSize + Block(k, ChunkSize(n)) + ChunkSize(n) <= |EncodeFile(s, fs)|
    ensures DecodeFrameAt(EncodeFile(s, fs), SettingsSize + Block(k, ChunkSize(n)), n) == fs[k]
  {
    var b := EncodeFile(s, fs);
    assert At(b, 0, b);
    AtConcat(b, 0, EncodeHeader(s), EncodeFrames(fs));
    FramesRoundTrip(fs, n, b, SettingsSize, k);
  }

  // --- from particle values to records and back -------------------------

  /**
   * The record the io writer emits for a particle: `doubleBits` is
   * `Double.doubleToLongBits`, a library conversion the model takes as given.
   */
  function RecordOf(p: ParticleState, doubleBits: real -> Float64): ParticleRecord
  {
    ParticleRecord(p.id, doubleBits(p.posX), doubleBits(p.posY),
                   doubleBits(p.velocityX), doubleBits(p.velocityY))
  }

  /** The particle `getState` builds from a record: each word read as the double it denotes. */
  function StateOf(r: ParticleRecord): (p: ParticleState)
    ensures p.id == r.id
  {
    ParticleState(r.id, Float64Value(r.posX), Float64Value(r.posY),
                  Float64Value(r.velocityX), Float64Value(r.velocityY))
  }

  /** The state `getState` builds from a frame: its time and the particle of every record, in order. */
  function SnapshotOf(f: FrameRecord): (snap: StateSnapshot)
    ensures snap.time == f.time && |snap.particles| == |f.particles|
    ensures forall i :: 0 <= i < |f.particles| ==> snap.particles[i] == StateOf(f.particles[i])
  {
    StateSnapshot(f.time, seq(|f.particles|, i requires 0 <= i < |f.particles| => StateOf(f.particles[i])))
  }

  /** The frame the io writer emits for a state: its `long` time and every particle in order. */
  function FrameOf(snap: StateSnapshot, doubleBits: real -> Float64): (f: FrameRecord)
    ensures f.time == snap.time && |f.particles| == |snap.particles|
    ensures forall i :: 0 <= i < |snap.particles| ==> f.particles[i] == RecordOf(snap.particles[i], doubleBits)
  {
    FrameRecord(snap.time, seq(|snap.particles|, i requires 0 <= i < |snap.particles| =>
      RecordOf(snap.particles[i], doubleBits)))
  }

  /** Every coordinate and velocity of `p` is a value its double word denotes exactly. */
  predicate ExactDoubles(p: ParticleState, doubleBits: real -> Float64)
  {
    Float64Value(doubleBits(p.posX)) == p.posX && Float64Value(doubleBits(p.posY)) == p.posY
    && Float64Value(doubleBits(p.velocityX)) == p.velocityX
    && Float64Value(doubleBits(p.velocityY)) == p.velocityY
  }

  /** A particle whose reals are doubles is read back as itself. */
  lemma StateOfRecordOf(p: ParticleState, doubleBits: real -> Float64)
    ensures StateOf(RecordOf(p, doubleBits)).id == p.id
    ensures ExactDoubles(p, doubleBits) <==> StateOf(RecordOf(p, doubleBits)) == p
  {
  }
}
