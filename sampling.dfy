/**
 * The frame-sampling rule of the two `saveSimulation` loops. The loop
 * visits the states of a run in order and keeps a window counter
 * `currSnap`: a state is written when its time lies in window `currSnap`
 * of width `deltaTime`, and each write moves the counter on by one. The io
 * writer's windows include their lower end; the legacy writer's do not.
 */
module Sampling {
  import opened JavaTypes
  import opened States

  /** Window `snap` of width `delta`: `snap·Δ <= time < (snap+1)·Δ`, or with `<` at both ends when `strict`. */
  predicate InWindow(time: int, snap: int, delta: int, strict: bool)
  {
    (if strict then snap * delta < time else snap * delta <= time) && time < (snap + 1) * delta
  }

  /**
   * The states the loop writes when it visits `trace` in order, the window
   * counter starting at 0. The counter is always the number of frames
   * written, so frame `k` lies in window `k`, and every frame is a visited
   * state.
   */
  function Sampled(trace: seq<StateSnapshot>, delta: int, strict: bool): (frames: seq<StateSnapshot>)
    ensures |frames| <= |trace|
    ensures forall k :: 0 <= k < |frames| ==> InWindow(frames[k].time, k, delta, strict)
    ensures forall k :: 0 <= k < |frames| ==> frames[k] in trace
  {
    if trace == [] then []
    else
      var front, last := trace[..|trace| - 1], trace[|trace| - 1];
      var prev := Sampled(front, delta, strict);
      assert forall k :: 0 <= k < |prev| ==> prev[k] in trace by {
        forall k | 0 <= k < |prev|
          ensures prev[k] in trace
        {
          var j :| 0 <= j < |front| && front[j] == prev[k];
          assert trace[j] == prev[k];
        }
      }
      if InWindow(last.time, |prev|, delta, strict) then prev + [last] else prev
  }

  /** One more visited state adds a frame exactly when its time lies in the current window. */
  lemma SampledStep(trace: seq<StateSnapshot>, x: StateSnapshot, delta: int, strict: bool)
    ensures var prev := Sampled(trace, delta, strict);
      Sampled(trace + [x], delta, strict)
      == if InWindow(x.time, |prev|, delta, strict) then prev + [x] else prev
  {
    assert (trace + [x])[..|trace|] == trace;
  }

  lemma MulStep(k: int, delta: int)
    ensures (k + 1) * delta == k * delta + delta
  {
  }

  lemma MulMonotone(i: nat, j: nat, delta: int)
    requires i <= j && delta > 0
    ensures i * delta <= j * delta
  {
    assert j * delta == i * delta + (j - i) * delta;
  }

  /** With a positive window the frames' times strictly increase: no two frames share a window. */
  lemma SampledIncreasing(trace: seq<StateSnapshot>, delta: int, strict: bool, i: nat, j: nat)
    requires delta > 0
    requires i < j < |Sampled(trace, delta, strict)|
    ensures Sampled(trace, delta, strict)[i].time < Sampled(trace, delta, strict)[j].time
  {
    MulMonotone(i + 1, j, delta);
  }

  /** A window of width zero or less holds no time, so nothing is ever written. */
  lemma EmptyWindowsWriteNothing(trace: seq<StateSnapshot>, delta: int, strict: bool)
    requires delta <= 0
    ensures Sampled(trace, delta, strict) == []
  {
  }

  /** The io rule writes the first visited state when its time is 0 and the window is positive. */
  lemma {:induction false} FirstFrameIsInitialState(trace: seq<StateSnapshot>, delta: int)
    requires trace != [] && trace[0].time == 0 && delta > 0
    ensures Sampled(trace, delta, false) != [] && Sampled(trace, delta, false)[0] == trace[0]
  {
    var front, last := trace[..|trace| - 1], trace[|trace| - 1];
    if front == [] {
      assert trace == front + [last];
      SampledStep(front, last, delta, false);
      assert InWindow(last.time, 0, delta, false);
    } else {
      FirstFrameIsInitialState(front, delta);
      assert trace == front + [last];
      SampledStep(front, last, delta, false);
    }
  }

  /** The legacy rule's strict lower bound never writes a state at time 0 or earlier. */
  lemma StrictFramesArePositive(trace: seq<StateSnapshot>, delta: int, k: nat)
    requires k < |Sampled(trace, delta, true)|
    ensures Sampled(trace, delta, true)[k].time > 0
  {
    var frames := Sampled(trace, delta, true);
    if delta <= 0 {
      EmptyWindowsWriteNothing(trace, delta, true);
    } else {
      MulMonotone(0, k, delta);
      assert InWindow(frames[k].time, k, delta, true);
    }
  }

  /** In particular the legacy rule skips the initial state, at time 0. */
  lemma StrictSkipsInitialState(trace: seq<StateSnapshot>, delta: int)
    requires trace != [] && trace[0].time == 0
    ensures trace[0] !in Sampled(trace, delta, true)
  {
    var frames := Sampled(trace, delta, true);
    if trace[0] in frames {
      var k :| 0 <= k < |frames| && frames[k] == trace[0];
      StrictFramesArePositive(trace, delta, k);
    }
  }

  /** Times that never decrease along the run. */
  predicate NonDecreasing(trace: seq<StateSnapshot>)
  {
    forall i, j :: 0 <= i < j < |trace| ==> trace[i].time <= trace[j].time
  }

  /** When every state from `k` on lies past the end of the window open at `k`, none of them is written. */
  lemma {:induction false} PastWindowWritesNothing(trace: seq<StateSnapshot>, delta: int, strict: bool, k: nat, end: int)
    requires k <= |trace| && end == (|Sampled(trace[..k], delta, strict)| + 1) * delta
    requires forall j :: k <= j < |trace| ==> trace[j].time >= end
    ensures Sampled(trace, delta, strict) == Sampled(trace[..k], delta, strict)
  {
    var n := |trace|;
    if k < n {
      var front, last := trace[..n - 1], trace[n - 1];
      var w := |Sampled(trace[..k], delta, strict)|;
      assert last.time >= end;
      assert trace == front + [last];
      assert front[..k] == trace[..k];
      assert forall j :: k <= j < |front| ==> front[j].time >= end by {
        forall j | k <= j < |front|
          ensures front[j].time >= end
        {
          assert front[j] == trace[j];
        }
      }
      PastWindowWritesNothing(front, delta, strict, k, end);
      assert |Sampled(front, delta, strict)| == w;
      assert !InWindow(last.time, w, delta, strict);
      SampledStep(front, last, delta, strict);
    } else {
      assert trace[..k] == trace;
    }
  }

  /**
   * Once a state is visited past the end of the current window without
   * being written, no later state is written either: the counter has no way
   * to catch up.
   */
  lemma MissedWindowEndsSampling(trace: seq<StateSnapshot>, delta: int, strict: bool, k: nat)
    requires NonDecreasing(trace) && k < |trace|
    requires trace[k].time >= (|Sampled(trace[..k], delta, strict)| + 1) * delta
    ensures Sampled(trace, delta, strict) == Sampled(trace[..k], delta, strict)
  {
    PastWindowWritesNothing(trace, delta, strict, k, (|Sampled(trace[..k], delta, strict)| + 1) * delta);
  }
}
