/** The two PWM outputs: the ESC of each motor and the IMU heater. Each turns a
    controller output into a pulse width and clamps it to the range its device
    accepts; the PWM channel write itself is hardware and is not modelled. */
module Actuators {

  /** Pulse widths, in microseconds, an ESC accepts. */
  const EscMin: int := 1000
  const EscMax: int := 2000

  /** Pulse widths, in microseconds of a 3 ms carrier, the heater accepts. */
  const HeaterMin: int := 0
  const HeaterMax: int := 2999

  /** Raise a value below `lo` to `lo`, then lower a value above `hi` to `hi`,
      in that order. */
  function Clamp(v: int, lo: int, hi: int): (r: int)
    requires lo <= hi
    ensures lo <= r <= hi
    ensures lo <= v <= hi ==> r == v
    ensures v < lo ==> r == lo
    ensures v > hi ==> r == hi
  {
    var raised := if v < lo then lo else v;
    if raised > hi then hi else raised
  }

  /** Clamping never reverses the order of two values. */
  lemma ClampMonotone(a: int, b: int, lo: int, hi: int)
    requires lo <= hi && a <= b
    ensures Clamp(a, lo, hi) <= Clamp(b, lo, hi)
  {
  }

  /** A clamped value is left alone by a second clamp. */
  lemma ClampIdempotent(v: int, lo: int, hi: int)
    requires lo <= hi
    ensures Clamp(Clamp(v, lo, hi), lo, hi) == Clamp(v, lo, hi)
  {
  }

  /** Python's `int()` on a float: the integer part, truncated toward zero. */
  function Truncate(x: real): (n: int)
    ensures x >= 0.0 ==> n as real <= x < n as real + 1.0
    ensures x < 0.0 ==> n as real - 1.0 < x <= n as real
  {
    if x >= 0.0 then x.Floor else -((-x).Floor)
  }

  /** Truncation keeps the sign and never grows the magnitude. */
  lemma TruncateTowardZero(x: real)
    ensures x >= 0.0 ==> 0 <= Truncate(x)
    ensures x <= 0.0 ==> Truncate(x) <= 0
    ensures Truncate(-x) == -Truncate(x)
  {
  }

  lemma TruncateMonotone(a: real, b: real)
    requires a <= b
    ensures Truncate(a) <= Truncate(b)
  {
  }

  /** `ESC.update`: the pulse is the minimum width plus the mixer's spin, kept
      inside [1000, 2000]. */
  function EscUpdate(spin: int): (pulse: int)
    ensures EscMin <= pulse <= EscMax
    ensures 0 <= spin <= EscMax - EscMin ==> pulse == EscMin + spin
    ensures spin <= 0 ==> pulse == EscMin
    ensures spin >= EscMax - EscMin ==> pulse == EscMax
  {
    Clamp(EscMin + spin, EscMin, EscMax)
  }

  /** More spin never gives a shorter pulse. */
  lemma EscMonotone(a: int, b: int)
    requires a <= b
    ensures EscUpdate(a) <= EscUpdate(b)
  {
    ClampMonotone(EscMin + a, EscMin + b, EscMin, EscMax);
  }

  /** `HEATER.update`: the controller's real output truncated to an integer
      width and kept inside [0, 2999]. */
  function HeaterUpdate(tempOut: real): (pulse: int)
    ensures HeaterMin <= pulse <= HeaterMax
    ensures 0.0 <= tempOut < (HeaterMax + 1) as real ==> pulse == tempOut.Floor
    ensures tempOut < 1.0 ==> pulse == HeaterMin
    ensures tempOut >= HeaterMax as real ==> pulse == HeaterMax
  {
    Clamp(Truncate(HeaterMin as real + tempOut), HeaterMin, HeaterMax)
  }

  /** More heat demanded never gives a shorter heater pulse. */
  lemma HeaterMonotone(a: real, b: real)
    requires a <= b
    ensures HeaterUpdate(a) <= HeaterUpdate(b)
  {
    TruncateMonotone(a, b);
    ClampMonotone(Truncate(a), Truncate(b), HeaterMin, HeaterMax);
  }

  /** The shutdown path drives every motor at update(0) and the heater at
      update(0): motors idle at the minimum pulse and the heater is off. */
  lemma ShutdownOutputs()
    ensures EscUpdate(0) == EscMin == 1000
    ensures HeaterUpdate(0.0) == HeaterMin == 0
  {
  }
}
