/**
 * The stopwatch of stopwatch.py: the START, STOP, RESET and LAP buttons
 * over the session's start time, elapsed time, running flag and lap list,
 * the current-time reading and the lap statistics. Time is an integer
 * clock reading passed in by the caller.
 */
module Stopwatch {
  import opened Optional

  /** The status line above the display. */
  datatype Status = Running | Stopped | Ready

  predicate NonDecreasing(s: seq<int>)
  {
    forall i, j :: 0 <= i < j < |s| ==> s[i] <= s[j]
  }

  class Stopwatch {
    var startTime: Option<int>
    var elapsed: int
    var isRunning: bool
    var laps: seq<int>
    /** The latest clock reading the session has seen; readings never go back. */
    ghost var clock: int

    /**
     * get_current_time: while running with a (truthy) start time, the
     * stored elapsed time plus the time since START; otherwise the stored
     * elapsed time. A start time of 0 counts as unset, as in Python.
     */
    function CurrentTime(now: int): (r: int)
      reads this
      ensures !isRunning ==> r == elapsed
      ensures startTime.Some? && startTime.value <= now ==> r >= elapsed
    {
      if isRunning && startTime.Some? && startTime.value != 0
      then elapsed + (now - startTime.value)
      else elapsed
    }

    /**
     * Running exactly when a start time is held, that start time is not in
     * the future, the elapsed time is not negative, and the laps are
     * non-negative readings taken in order, none beyond the current time.
     */
    ghost predicate Valid()
      reads this
    {
      && (isRunning <==> startTime.Some?)
      && (startTime.Some? ==> startTime.value <= clock)
      && elapsed >= 0
      && (forall i :: 0 <= i < |laps| ==> 0 <= laps[i])
      && NonDecreasing(laps)
      && (|laps| > 0 ==> laps[|laps| - 1] <= CurrentTime(clock))
    }

    /** The status line: running, stopped with time on the display, or ready. */
    function DisplayStatus(now: int): (r: Status)
      reads this
      ensures r == Running <==> isRunning
      ensures r == Stopped <==> !isRunning && CurrentTime(now) > 0
      ensures r == Ready <==> !isRunning && CurrentTime(now) <= 0
    {
      if isRunning then Running
      else if CurrentTime(now) > 0 then Stopped
      else Ready
    }

    /** With the clock not going back, the current time never decreases. */
    lemma CurrentTimeMonotone(t1: int, t2: int)
      requires Valid() && clock <= t1 <= t2
      ensures elapsed <= CurrentTime(t1) <= CurrentTime(t2)
    {
    }

    /** The session's first state: no start time, zero elapsed, not running, no laps. */
    constructor (now: int)
      ensures Valid()
      ensures startTime == None && elapsed == 0 && !isRunning && laps == [] && clock == now
    {
      startTime := None;
      elapsed := 0;
      isRunning := false;
      laps := [];
      clock := now;
    }

    /** START: when stopped, take `now` as the start time and run. */
    method Start(now: int)
      requires Valid() && clock <= now
      modifies this
      ensures Valid() && clock == now
      ensures elapsed == old(elapsed) && laps == old(laps)
      ensures isRunning
      ensures startTime == if old(isRunning) then old(startTime) else Some(now)
      ensures CurrentTime(now) >= old(CurrentTime(clock))
    {
      CurrentTimeMonotone(clock, now);
      clock := now;
      if !isRunning {
        startTime := Some(now);
        isRunning := true;
      }
    }

    /**
     * STOP: when running, fold the running interval into the elapsed time,
     * forget the start time and stop; the display keeps its value.
     */
    method Stop(now: int)
      requires Valid() && clock <= now
      modifies this
      ensures Valid() && clock == now
      ensures laps == old(laps) && !isRunning && startTime == None
      ensures elapsed == old(CurrentTime(now))
      ensures CurrentTime(now) == old(CurrentTime(now)) >= old(CurrentTime(clock))
    {
      CurrentTimeMonotone(clock, now);
      clock := now;
      if isRunning {
        elapsed := CurrentTime(now);
        isRunning := false;
        startTime := None;
      }
    }

    /** RESET: no start time, zero elapsed, stopped, no laps. */
    method Reset(now: int)
      requires Valid() && clock <= now
      modifies this
      ensures Valid() && clock == now
      ensures startTime == None && elapsed == 0 && !isRunning && laps == []
      ensures CurrentTime(now) == 0 && DisplayStatus(now) == Ready
    {
      clock := now;
      startTime := None;
      elapsed := 0;
      isRunning := false;
      laps := [];
    }

    /**
     * LAP: the page was drawn at `rendered` and the button handled at
     * `now`. When running, or when the time drawn was positive, the
     * current time at `now` is recorded as a lap.
     */
    method Lap(rendered: int, now: int)
      requires Valid() && clock <= rendered <= now
      modifies this
      ensures Valid() && clock == now
      ensures startTime == old(startTime) && elapsed == old(elapsed) && isRunning == old(isRunning)
      ensures laps == if old(isRunning) || old(CurrentTime(rendered)) > 0
                      then old(laps) + [old(CurrentTime(now))] else old(laps)
      ensures CurrentTime(now) >= old(CurrentTime(clock))
    {
      CurrentTimeMonotone(clock, rendered);
      CurrentTimeMonotone(rendered, now);
      clock := now;
      if isRunning || CurrentTime(rendered) > 0 {
        laps := laps + [CurrentTime(now)];
      }
    }
  }

  /** The "Best Lap" figure: the smallest lap time. */
  function BestLap(laps: seq<int>): (r: int)
    requires |laps| > 0
    ensures r in laps
    ensures forall i :: 0 <= i < |laps| ==> r <= laps[i]
  {
    if |laps| == 1 then laps[0]
    else
      var rest := BestLap(laps[1..]);
      if laps[0] <= rest then laps[0] else rest
  }

  function Sum(laps: seq<int>): int
  {
    if laps == [] then 0 else laps[0] + Sum(laps[1..])
  }

  /** n laps, none below lo, add up to at least n times lo. */
  lemma {:induction false} SumAtLeast(laps: seq<int>, lo: int)
    requires forall i :: 0 <= i < |laps| ==> lo <= laps[i]
    ensures |laps| * lo <= Sum(laps)
  {
    if laps != [] {
      SumAtLeast(laps[1..], lo);
      assert |laps| * lo == |laps[1..]| * lo + lo;
    }
  }

  /** Dividing both sides by a positive number keeps the order. */
  lemma ScaleCancel(x: real, y: real, n: real)
    requires n > 0.0 && x * n <= y * n
    ensures x <= y
  {
  }

  lemma IntProductAsReal(a: int, b: int)
    ensures (a * b) as real == a as real * b as real
  {
  }

  lemma DivideThenScale(t: real, n: real)
    requires n > 0.0
    ensures (t / n) * n == t
  {
  }

  /** k values adding up to at least k times lo have a mean of at least lo. */
  lemma MeanAtLeast(k: nat, lo: int, total: int)
    requires k > 0 && k * lo <= total
    ensures lo as real <= total as real / k as real
  {
    IntProductAsReal(k, lo);
    DivideThenScale(total as real, k as real);
    ScaleCancel(lo as real, total as real / k as real, k as real);
  }

  /** The mean of the laps is never below the best lap. */
  lemma BestLapAtMostMean(laps: seq<int>)
    requires |laps| > 0
    ensures BestLap(laps) as real <= Sum(laps) as real / |laps| as real
  {
    SumAtLeast(laps, BestLap(laps));
    MeanAtLeast(|laps|, BestLap(laps), Sum(laps));
  }

  /** The "Average Lap" figure: the sum of the laps over their number, never below the best lap. */
  function AverageLap(laps: seq<int>): (r: real)
    requires |laps| > 0
    ensures BestLap(laps) as real <= r
  {
    BestLapAtMostMean(laps);
    Sum(laps) as real / |laps| as real
  }

  /** For laps taken in order, the best lap is the first one. */
  lemma BestOfOrderedLapsIsFirst(laps: seq<int>)
    requires |laps| > 0 && NonDecreasing(laps)
    ensures BestLap(laps) == laps[0]
  {
  }
}
