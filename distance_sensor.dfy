/** Model of hardware/distance_sensor.py: a PWM infrared proximity sensor.
  * A pin callback measures the width of each high pulse in pigpio ticks
  * (microseconds); the sensor loop turns the latest width into millimetres,
  * optionally smoothed over a bounded window. Ticks, levels and wall time
  * are parameters. */
module DistanceSensors {
  import opened Wrappers
  import Orientations

  const TickRange: int := 0x1_0000_0000

  /** `pigpio.tickDiff(start, tick)`: the ticks from `start` to `tick` on
    * the 32-bit tick counter, which wraps around. */
  function TickDiff(start: int, tick: int): (r: int)
    ensures 0 <= r < TickRange
    ensures 0 <= start <= tick < TickRange ==> r == tick - start
    ensures 0 <= tick < start < TickRange ==> r == tick - start + TickRange
  {
    (tick - start) % TickRange
  }

  /** The shortest and longest pulse widths that encode a distance. */
  const MinWidth: int := 1000
  const MaxWidth: int := 1850

  /** A width inside the valid range as millimetres: three quarters of a
    * millimetre per microsecond above 1000, so from 0 up to 637.5. */
  function WidthToDistance(width: int): (r: Option<real>)
    ensures r.Some? <==> MinWidth <= width <= MaxWidth
    ensures r.Some? ==> r.value == (width - 1000) as real * 3.0 / 4.0 && 0.0 <= r.value <= 637.5
  {
    if MinWidth <= width <= MaxWidth then Some((width - 1000) as real * 3.0 / 4.0) else None
  }

  /** `deque.append` on a deque bounded by `maxlen` (none for unbounded):
    * when full, the oldest entry falls off. */
  function Push(window: seq<real>, maxlen: Option<nat>, x: real): (r: seq<real>)
    ensures maxlen.None? ==> r == window + [x]
    ensures maxlen.Some? ==> |r| == if |window| + 1 <= maxlen.value then |window| + 1 else maxlen.value
    ensures r == (window + [x])[|window| + 1 - |r|..]
  {
    var all := window + [x];
    if maxlen.Some? && |all| > maxlen.value then all[|all| - maxlen.value..] else all
  }

  function Sum(s: seq<real>): real {
    if s == [] then 0.0 else Sum(s[..|s| - 1]) + s[|s| - 1]
  }

  predicate Within(s: seq<real>, lo: real, hi: real) {
    forall k :: 0 <= k < |s| ==> lo <= s[k] <= hi
  }

  /** A sum of values in `[lo, hi]` lies between `|s| lo` and `|s| hi`. */
  lemma {:induction false} SumBounds(s: seq<real>, lo: real, hi: real)
    requires Within(s, lo, hi)
    ensures |s| as real * lo <= Sum(s) <= |s| as real * hi
  {
    if s != [] {
      var t := s[..|s| - 1];
      assert Within(t, lo, hi) by {
        forall k | 0 <= k < |t| ensures lo <= t[k] <= hi { assert t[k] == s[k]; }
      }
      SumBounds(t, lo, hi);
      assert Sum(s) == Sum(t) + s[|s| - 1];
      assert |s| as real == |t| as real + 1.0;
      SuccTimes(|t| as real, lo);
      SuccTimes(|t| as real, hi);
    }
  }

  lemma SuccTimes(n: real, x: real)
    ensures (n + 1.0) * x == n * x + x
  {
  }

  /** `int(sum(window) / len(window))` for a non-empty window of
    * non-negative values: the truncated mean, which lies within the range
    * of the values. */
  function Mean(window: seq<real>): (r: int)
    requires window != [] && Within(window, 0.0, 637.5)
    ensures r == (Sum(window) / |window| as real).Floor
    ensures 0 <= r <= 637
  {
    SumBounds(window, 0.0, 637.5);
    var n := |window| as real;
    var m := Sum(window) / n;
    assert m * n == Sum(window);
    assert 0.0 <= m <= 637.5;
    m.Floor
  }

  class DistanceSensor {
    const smoothing: bool
    /** The window's bound: none for an unbounded deque. */
    const smoothingWindow: Option<nat>
    const timeout: real
    var pulseStart: Option<int>
    var pulseWidth: Option<int>
    var window: seq<real>
    /** The last computed distance: -1 before the first computation and
      * none when the last pulse was out of range. */
    var distance: Option<int>
    var lastReadTime: real

    predicate Valid()
      reads this
    {
      Within(window, 0.0, 637.5)
      && (smoothingWindow.Some? ==> |window| <= smoothingWindow.value)
      && (!smoothing ==> window == [])
    }

    constructor (smoothing: bool, smoothingWindow: Option<nat>, timeout: real, now: real)
      ensures Valid()
      ensures this.smoothing == smoothing && this.smoothingWindow == smoothingWindow && this.timeout == timeout
      ensures pulseStart.None? && pulseWidth.None? && window == [] && distance == Some(-1)
      ensures lastReadTime == now
    {
      this.smoothing := smoothing;
      this.smoothingWindow := smoothingWindow;
      this.timeout := timeout;
      pulseStart := None;
      pulseWidth := None;
      window := [];
      distance := Some(-1);
      lastReadTime := now;
    }

    /** `_pulse_callback`: a rising edge records its tick; a falling edge
      * sets the width from the recorded start, or none without one; any
      * other level changes nothing. */
    method PulseCallback(level: int, tick: int)
      modifies this
      ensures level == 1 ==> pulseStart == Some(tick) && pulseWidth == old(pulseWidth)
      ensures level == 0 ==> pulseStart == old(pulseStart)
                             && pulseWidth == if old(pulseStart).Some? then Some(TickDiff(old(pulseStart).value, tick)) else None
      ensures level != 0 && level != 1 ==> pulseStart == old(pulseStart) && pulseWidth == old(pulseWidth)
      ensures window == old(window) && distance == old(distance) && lastReadTime == old(lastReadTime)
    {
      if level == 1 {
        pulseStart := Some(tick);
      } else if level == 0 {
        if pulseStart.Some? {
          pulseWidth := Some(TickDiff(pulseStart.value, tick));
        } else {
          pulseWidth := None;
        }
      }
    }

    /** `_compute_distance` at time `now`: none without an in-range width;
      * otherwise the distance, truncated, or with smoothing the truncated
      * mean of the window after the new distance is pushed. A zero-length
      * window leaves nothing to average and raises ZeroDivisionError. A
      * width, in range or not, is consumed. */
    method ComputeDistance(now: real) returns (r: Result<Option<int>>)
      requires Valid()
      modifies this
      ensures Valid()
      ensures pulseStart == old(pulseStart) && distance == old(distance)
      ensures var d := if old(pulseWidth).Some? then WidthToDistance(old(pulseWidth).value) else None;
              && (d.None? ==> r == Ok(None) && window == old(window) && lastReadTime == old(lastReadTime)
                              && pulseWidth.None?)
              && (d.Some? ==> lastReadTime == now)
              && (d.Some? && !smoothing ==> r == Ok(Some(d.value.Floor)) && window == old(window) && pulseWidth.None?)
              && (d.Some? && smoothing ==> window == Push(old(window), smoothingWindow, d.value))
              && (d.Some? && smoothing && window == [] ==> r == Err(ZeroDivisionError) && pulseWidth == old(pulseWidth))
              && (d.Some? && smoothing && window != [] ==> r == Ok(Some(Mean(window))) && pulseWidth.None?)
    {
      var width := pulseWidth;
      r := Ok(None);
      if width.Some? {
        var d := WidthToDistance(width.value);
        if d.Some? {
          lastReadTime := now;
          if smoothing {
            window := Push(window, smoothingWindow, d.value);
            if window == [] {
              return Err(ZeroDivisionError);
            }
            r := Ok(Some(Mean(window)));
          } else {
            r := Ok(Some(d.value.Floor));
          }
        }
        pulseWidth := None;
      }
    }

    /** One pass of the sensor loop: the distance `_compute_distance`
      * returns is stored; when it raises, the stored distance and the
      * width are left as they were and the loop ends with that error. */
    method LoopStep(now: real) returns (st: Status)
      requires Valid()
      modifies this
      ensures Valid()
      ensures pulseStart == old(pulseStart)
      ensures var d := if old(pulseWidth).Some? then WidthToDistance(old(pulseWidth).value) else None;
              && (d.None? ==> st == Done && distance == None && window == old(window)
                              && lastReadTime == old(lastReadTime) && pulseWidth.None?)
              && (d.Some? ==> lastReadTime == now)
              && (d.Some? && !smoothing ==> st == Done && distance == Some(d.value.Floor)
                                            && window == old(window) && pulseWidth.None?)
              && (d.Some? && smoothing ==> window == Push(old(window), smoothingWindow, d.value))
              && (d.Some? && smoothing && window == [] ==> st == Raised(ZeroDivisionError)
                                                           && distance == old(distance) && pulseWidth == old(pulseWidth))
              && (d.Some? && smoothing && window != [] ==> st == Done && distance == Some(Mean(window))
                                                           && pulseWidth.None?)
      ensures st.Done? ==> distance.None? || 0 <= distance.value <= 637
    {
      var r := ComputeDistance(now);
      if r.Err? {
        return Raised(r.error);
      }
      distance := r.value;
      st := Done;
    }

    /** `check_timeout` at time `now`: no in-range reading within the
      * last `timeout` seconds. */
    function TimedOut(now: real): (r: bool)
      reads this
      ensures r <==> lastReadTime + timeout < now
      ensures now <= lastReadTime && 0.0 <= timeout ==> !r
    {
      now - lastReadTime > timeout
    }
  }

  /** The constructor's orientation check: only PORT, CNTR and STBD
    * sensors exist; any other orientation raises. */
  method NewDistanceSensor(orientation: Orientations.Orientation, smoothing: bool, smoothingWindow: Option<nat>,
                           timeout: real, now: real) returns (r: Result<DistanceSensor>)
    ensures orientation !in {Orientations.Port, Orientations.Cntr, Orientations.Stbd} <==> r == Err(PlainException)
    ensures r.Ok? ==> fresh(r.value) && r.value.Valid() && r.value.distance == Some(-1)
                      && r.value.pulseStart.None? && r.value.pulseWidth.None? && r.value.window == []
  {
    if orientation !in {Orientations.Port, Orientations.Cntr, Orientations.Stbd} {
      return Err(PlainException);
    }
    var s := new DistanceSensor(smoothing, smoothingWindow, timeout, now);
    r := Ok(s);
  }
}
