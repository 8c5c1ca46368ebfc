/**
 * The frame playback rule of frontend/src/App.js: while a playback interval
 * runs, every tick advances the frame index by one, and the tick that finds
 * the index at the last frame resets it to 0 and stops the interval.
 */
module Playback {

  /** Milliseconds between two ticks: ten frames a second. */
  const TickMillis := 100

  /** The index a tick leaves, and whether that tick stopped playback. */
  datatype Step = Step(index: int, stopped: bool)

  /**
   * The `setCurrentFrameIndex` updater run by each tick; `count` is the
   * number of frames the interval's callback captured when play started.
   */
  function NextFrame(prev: int, count: int): (s: Step)
    ensures s.stopped <==> prev >= count - 1
    ensures s.stopped ==> s.index == 0
    ensures !s.stopped ==> s.index == prev + 1
    ensures 0 <= prev < count ==> 0 <= s.index < count
  {
    if prev >= count - 1 then Step(0, true) else Step(prev + 1, false)
  }

  /** Where `ticks` firings of the interval leave the index; no tick fires after the stopping one. */
  function Play(start: int, count: int, ticks: nat): Step
    decreases ticks
  {
    if ticks == 0 then Step(start, false)
    else
      var s := NextFrame(start, count);
      if s.stopped then s else Play(s.index, count, ticks - 1)
  }

  /** Before the last frame is reached, each tick moves one frame forward. */
  lemma {:induction false} PlayAdvances(start: int, count: int, ticks: nat)
    requires 0 <= start && start + ticks < count
    ensures Play(start, count, ticks) == Step(start + ticks, false)
    decreases ticks
  {
    if ticks > 0 {
      PlayAdvances(start + 1, count, ticks - 1);
    }
  }

  /**
   * Started at frame `start`, playback shows frames `start` .. `count - 1`
   * and stops at index 0 on tick number `count - start`.
   */
  lemma {:induction false} PlayStopsAtEnd(start: int, count: int)
    requires 0 <= start < count
    ensures Play(start, count, count - start) == Step(0, true)
    ensures forall j :: 0 <= j < count - start ==> Play(start, count, j) == Step(start + j, false)
    decreases count - start
  {
    if start < count - 1 {
      PlayStopsAtEnd(start + 1, count);
    }
    forall j | 0 <= j < count - start
      ensures Play(start, count, j) == Step(start + j, false)
    {
      PlayAdvances(start, count, j);
    }
  }

  /** Playback never leaves the valid frame indices. */
  lemma {:induction false} PlayStaysInRange(start: int, count: int, ticks: nat)
    requires 0 <= start < count
    ensures 0 <= Play(start, count, ticks).index < count
    decreases ticks
  {
    if ticks > 0 && !NextFrame(start, count).stopped {
      PlayStaysInRange(start + 1, count, ticks - 1);
    }
  }
}
