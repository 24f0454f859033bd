/**
 * One saved moment of an experiment: the settings, the particle array and
 * the time in microseconds since the start.
 */
module States {
  import opened JavaTypes
  import opened Particles
  import opened Settings

  /** The particle values an array holds, in array order. */
  function StatesOf(a: array<Particle>): (s: seq<ParticleState>)
    reads a, a[..]
    ensures |s| == a.Length
    ensures forall k :: 0 <= k < a.Length ==> s[k] == a[k].State()
  {
    seq(a.Length, k requires 0 <= k < a.Length reads a, a[..] => a[k].State())
  }

  /** The value of an `ExperimentState`: its time and particles. */
  datatype StateSnapshot = StateSnapshot(time: int64, particles: seq<ParticleState>)

  /** `Arrays.equals` on two particle arrays, compared with `Particle.equals`. */
  predicate ArraysEqual(a: array<Particle>, b: array<Particle>)
    reads a, a[..], b, b[..]
  {
    a.Length == b.Length
    && forall k :: 0 <= k < a.Length ==> a[k].State().Equals(b[k].State())
  }

  class ExperimentState {
    const settings: ExperimentSettings
    /** Shared, not copied: `getParticles` hands out this very array. */
    const particles: array<Particle>
    /** Microseconds since the start; the class has no mutator for it. */
    const time: int64

    constructor (settings: ExperimentSettings, particles: array<Particle>, time: int64)
      ensures this.settings == settings && this.particles == particles && this.time == time
    {
      this.settings := settings;
      this.particles := particles;
      this.time := time;
    }

    function Snapshot(): StateSnapshot
      reads particles, particles[..]
    {
      StateSnapshot(time, StatesOf(particles))
    }

    /** `getParticles()`: the internal array itself, so callers can reorder the state. */
    method GetParticles() returns (a: array<Particle>)
      ensures a == particles
    {
      a := particles;
    }

    /** `equals`: equal times, `equals` settings and element-wise equal particles. */
    predicate Equals(that: ExperimentState)
      reads particles, particles[..], that.particles, that.particles[..]
    {
      time == that.time && settings.Equals(that.settings) && ArraysEqual(particles, that.particles)
    }
  }

  /** `equals` compares the times, the settings and the particle values in order. */
  lemma EqualsIsSnapshotEquality(s: ExperimentState, t: ExperimentState)
    ensures s.Equals(t) <==> s.settings.Equals(t.settings) && s.Snapshot() == t.Snapshot()
  {
    var a, b := StatesOf(s.particles), StatesOf(t.particles);
    if ArraysEqual(s.particles, t.particles) {
      assert a == b by {
        forall k | 0 <= k < |a|
          ensures a[k] == b[k]
        {
          EqualsIsValueEquality(a[k], b[k]);
        }
      }
    }
    if a == b {
      forall k | 0 <= k < |a|
        ensures s.particles[k].State().Equals(t.particles[k].State())
      {
        EqualsIsValueEquality(a[k], b[k]);
      }
    }
  }

  /** The array `new Particle[n]` once every slot is filled. */
  method ArrayOf(placed: seq<Particle>, ghost st: seq<ParticleState>) returns (a: array<Particle>)
    requires |placed| == |st| && forall k :: 0 <= k < |st| ==> placed[k].State() == st[k]
    ensures fresh(a) && a[..] == placed && StatesOf(a) == st
  {
    a := new Particle[|placed|](k requires 0 <= k < |placed| => placed[k]);
    assert StatesOf(a) == st;
  }

  /** `ExperimentState.newBuilder().setParticles(a).setSettings(s).setTime(time).build()`. */
  method BuildState(a: array<Particle>, s: ExperimentSettings, time: int64) returns (state: ExperimentState)
    ensures fresh(state) && state.particles == a && state.settings == s && state.time == time
  {
    var builder := new Builder();
    builder := builder.SetParticles(a);
    builder := builder.SetSettings(s);
    builder := builder.SetTime(time);
    state := builder.Build();
  }

  /** `ExperimentState.Builder`. In the source its fields start out `null` and `0`. */
  class Builder {
    var settings: Option<ExperimentSettings>
    var particles: array?<Particle>
    var time: int64

    constructor ()
      ensures settings == None && particles == null && time == 0
    {
      settings, particles, time := None, null, 0;
    }

    /** `particles(..)` (also spelt `setParticles`). */
    method SetParticles(particles: array<Particle>) returns (self: Builder)
      modifies this
      ensures self == this
      ensures this.particles == particles && settings == old(settings) && time == old(time)
    {
      this.particles := particles;
      self := this;
    }

    /** `settings(..)` (also spelt `setSettings`). */
    method SetSettings(settings: ExperimentSettings) returns (self: Builder)
      modifies this
      ensures self == this
      ensures this.settings == Some(settings) && particles == old(particles) && time == old(time)
    {
      this.settings := Some(settings);
      self := this;
    }

    /** `time(..)` (also spelt `setTime`). */
    method SetTime(microseconds: int64) returns (self: Builder)
      modifies this
      ensures self == this
      ensures time == microseconds && settings == old(settings) && particles == old(particles)
    {
      time := microseconds;
      self := this;
    }

    /** `build()`: a state holding exactly the builder's settings, array and time. */
    method Build() returns (state: ExperimentState)
      requires settings.Some? && particles != null
      ensures fresh(state)
      ensures state.settings == settings.value && state.particles == particles && state.time == time
    {
      state := new ExperimentState(settings.value, particles, time);
    }
  }
}
