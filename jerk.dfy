/** Model of hardware/jerk.py: a limiter on the change of a motor power
  * between two successive values, followed by a clip to the output range.
  * Values are reals; Python's floating point is not modelled. */
module Jerk {
  import opened Wrappers
  import Util

  function Abs(x: real): real {
    if x < 0.0 then -x else x
  }

  function Max(x: real, y: real): real {
    if x < y then y else x
  }

  /** `math.isclose(a, b, abs_tol=1e-3)` with its default relative
    * tolerance of `1e-9`. */
  predicate IsClose(a: real, b: real) {
    Abs(a - b) <= Max(0.000000001 * Max(Abs(a), Abs(b)), 0.001)
  }

  /** The limiter's configuration: the largest change allowed per call and
    * the output range. */
  datatype JerkLimiter = JerkLimiter(maximumChange: real, minimumOutput: real, maximumOutput: real)

  /** The constructor: a given power limit `p` sets the range to `[-p, p]`;
    * otherwise the configured range is used. */
  function NewJerkLimiter(maximumChange: real, maxPowerLimit: Option<real>,
                          configMinimum: real, configMaximum: real): (l: JerkLimiter)
    ensures l.maximumChange == maximumChange
    ensures maxPowerLimit.Some? ==> l.maximumOutput == maxPowerLimit.value && l.minimumOutput == -maxPowerLimit.value
    ensures maxPowerLimit.None? ==> l.minimumOutput == configMinimum && l.maximumOutput == configMaximum
  {
    if maxPowerLimit.Some? then JerkLimiter(maximumChange, -1.0 * maxPowerLimit.value, maxPowerLimit.value)
    else JerkLimiter(maximumChange, configMinimum, configMaximum)
  }

  /** The value `limit` computes before clipping: the target, unless it is
    * not close to the current value and further from it than the maximum
    * change, in which case the current value moved by the maximum change
    * towards the target. A step that does not reach the target closes the
    * gap to it by exactly the maximum change. The docstring of `limit`
    * says the current value is returned when the two are close, but the
    * code returns the target there; the model follows the code. */
  function Stepped(l: JerkLimiter, current: real, target: real): (v: real)
    ensures IsClose(current, target) || Abs(current - target) <= l.maximumChange ==> v == target
    ensures !IsClose(current, target) && target > current && target - current > l.maximumChange ==> v == current + l.maximumChange
    ensures !IsClose(current, target) && target <= current && current - target > l.maximumChange ==> v == current - l.maximumChange
    ensures 0.0 <= l.maximumChange ==> v == target || Abs(target - v) == Abs(target - current) - l.maximumChange
  {
    if IsClose(current, target) then target
    else if target > current then
      if Abs(current - target) > l.maximumChange then current + l.maximumChange else target
    else
      if Abs(current - target) > l.maximumChange then current - l.maximumChange else target
  }

  /** The final clip: a negative value is negated, clipped and negated
    * back, so the negative side is bounded by the maximum output. In a
    * non-negative range the sign is kept and the magnitude lies in it. */
  function MirrorClip(l: JerkLimiter, v: real): (r: real)
    ensures 0.0 <= l.minimumOutput <= l.maximumOutput ==>
              (v < 0.0 ==> r <= 0.0) && (0.0 <= v ==> 0.0 <= r) && l.minimumOutput <= Abs(r) <= l.maximumOutput
  {
    if v < 0.0 then -1.0 * Util.Clip(-1.0 * v, l.minimumOutput, l.maximumOutput)
    else Util.Clip(v, l.minimumOutput, l.maximumOutput)
  }

  /** `limit(current_value, target_value)`. */
  function Limit(l: JerkLimiter, current: real, target: real): (r: real)
    ensures l.minimumOutput <= l.maximumOutput && 0.0 <= l.minimumOutput ==>
              l.minimumOutput <= Abs(r) <= l.maximumOutput
  {
    MirrorClip(l, Stepped(l, current, target))
  }

  /** A symmetric range `[-p, p]`, as a given power limit sets up. */
  predicate Symmetric(l: JerkLimiter) {
    0.0 <= l.maximumOutput && l.minimumOutput == -l.maximumOutput
  }

  /** With a symmetric range, the mirrored clip is the ordinary clip to
    * that range, so every result lies in `[-p, p]`. */
  lemma SymmetricLimitIsClipped(l: JerkLimiter, current: real, target: real)
    requires Symmetric(l)
    ensures Limit(l, current, target) == Util.Clip(Stepped(l, current, target), l.minimumOutput, l.maximumOutput)
    ensures l.minimumOutput <= Limit(l, current, target) <= l.maximumOutput
  {
    var v := Stepped(l, current, target);
    if v < 0.0 {
      assert -Util.Clip(-v, l.minimumOutput, l.maximumOutput) == Util.Clip(v, l.minimumOutput, l.maximumOutput);
    }
  }

  /** Away from the closeness tolerance and with a non-negative maximum
    * change, one call moves no further than the maximum change from a
    * current value inside a symmetric range, and never past the target. */
  lemma LimitBoundsTheChange(l: JerkLimiter, current: real, target: real)
    requires Symmetric(l) && 0.0 <= l.maximumChange
    requires l.minimumOutput <= current <= l.maximumOutput
    requires !IsClose(current, target)
    ensures Abs(Limit(l, current, target) - current) <= l.maximumChange
    ensures current <= target ==> current <= Limit(l, current, target) <= Max(target, l.minimumOutput)
    ensures target <= current ==> -Max(-target, -l.maximumOutput) <= Limit(l, current, target) <= current
  {
    SymmetricLimitIsClipped(l, current, target);
  }
}
