/** Keeping the IMU die at a constant temperature: the gate that refuses to
    fly a sensor that is already too warm, the warm-up exit test, the
    once-a-second rate limit on temperature messages, and the heater loop
    that closes the temperature PID onto the heater PWM. */
module Thermal {
  import opened Pid
  import opened Actuators
  import opened Sensor

  /** Raw die temperature code aimed for: about 40 degrees Celsius. */
  const TempTarget: int := 1180
  /** Raw codes per degree Celsius. */
  const CodesPerDegree: int := 340
  /** A warm-up is complete within 34 codes of the target: a tenth of a
      degree. */
  const SettledBand: int := 34

  const TempPGain: real := 0.75
  const TempIGain: real := 0.01
  const TempDGain: real := 0.001

  // ---------------------------------------------------------------------------
  // Gates
  // ---------------------------------------------------------------------------

  /** Refuse to fly when the die is more than a degree above the target. */
  predicate TooWarm(temp: int) {
    temp - TempTarget > CodesPerDegree
  }

  /** Only heat is refused: a die at or below the target, however cold, is
      never too warm, and the heater is left to warm it. */
  lemma TooWarmIsOneSided(temp: int)
    ensures TooWarm(temp) <==> temp > 1520
    ensures TooWarm(temp) <==> TempCelsius(temp) > TempCelsius(TempTarget + CodesPerDegree)
    ensures temp <= TempTarget ==> !TooWarm(temp)
  {
    TempCelsiusMonotone(TempTarget + CodesPerDegree, temp);
  }

  /** The warm-up loop ends once the die is within the settled band. */
  predicate Settled(temp: int) {
    -SettledBand < temp - TempTarget < SettledBand
  }

  /** The band is 1147..1213 in raw codes, under a tenth of a degree either
      side of the target in Celsius, and the target itself reads just above 40
      degrees. */
  lemma SettledIsATenthOfADegree(temp: int)
    ensures Settled(temp) <==> 1147 <= temp <= 1213
    ensures Settled(temp) ==> -0.1 < TempCelsius(temp) - TempCelsius(TempTarget) < 0.1
    ensures 40.0 < TempCelsius(TempTarget) < 40.001
  {
  }

  /** A settled die is never too warm to fly. */
  lemma SettledIsNotTooWarm(temp: int)
    requires Settled(temp)
    ensures !TooWarm(temp)
  {
  }

  // ---------------------------------------------------------------------------
  // Rate-limited messages
  // ---------------------------------------------------------------------------

  /** One check of a once-a-second message: when more than a second has
      passed since the last mark, report and move the mark on by exactly one
      second. */
  function LogTick(now: real, last: real): (r: (bool, real))
    ensures r.0 <==> now - last > 1.0
    ensures r.0 ==> r.1 == last + 1.0 && r.1 < now
    ensures !r.0 ==> r.1 == last
  {
    if now - last > 1.0 then (true, last + 1.0) else (false, last)
  }

  /** The in-flight check: the message is only considered while the die is
      more than a degree away from the target in either direction. */
  function ExcursionCheck(temp: int, now: real, last: real): (r: (bool, real))
    ensures r.0 ==> temp - TempTarget > CodesPerDegree || TempTarget - temp > CodesPerDegree
    ensures -CodesPerDegree <= temp - TempTarget <= CodesPerDegree ==> r == (false, last)
  {
    if temp - TempTarget > CodesPerDegree || TempTarget - temp > CodesPerDegree then LogTick(now, last)
    else (false, last)
  }

  /** The number of messages issued over a sequence of checks, and the mark
      afterwards. */
  function LogRun(last: real, times: seq<real>): (r: (nat, real))
    decreases |times|
  {
    if |times| == 0 then (0, last)
    else
      var (sent, last') := LogTick(times[0], last);
      var (count, final) := LogRun(last', times[1..]);
      (count + (if sent then 1 else 0), final)
  }

  /** Each message moves the mark by one second and the mark never overtakes
      the latest check time, so no more than one message per elapsed second
      is ever sent. */
  lemma {:induction false} LogRunRateLimited(last: real, times: seq<real>, horizon: real)
    requires last <= horizon
    requires forall k :: 0 <= k < |times| ==> times[k] <= horizon
    ensures LogRun(last, times).1 == last + LogRun(last, times).0 as real
    ensures LogRun(last, times).1 <= horizon
    ensures LogRun(last, times).0 as real <= horizon - last
    decreases |times|
  {
    if |times| > 0 {
      var (sent, last') := LogTick(times[0], last);
      assert last' <= horizon;
      LogRunRateLimited(last', times[1..], horizon);
    }
  }

  // ---------------------------------------------------------------------------
  // Heater loop
  // ---------------------------------------------------------------------------

  /** The temperature PID as created before warm-up. */
  function TempPid(now: real): (s: PidState)
    ensures s.pGain == TempPGain && s.iGain == TempIGain && s.dGain == TempDGain
    ensures s.lastError == 0.0 && s.iError == 0.0 && s.lastTime == now
  {
    Init(TempPGain, TempIGain, TempDGain, now)
  }

  /** One heater update: run the PID on the die temperature against the
      target and send the sum of its terms to the heater. */
  function HeaterStep(s: PidState, temp: int, now: real): (r: (PidState, int))
    requires now != s.lastTime
    ensures HeaterMin <= r.1 <= HeaterMax
    ensures r.0.lastError == (TempTarget - temp) as real && r.0.lastTime == now
  {
    var (s', out) := Compute(s, temp as real, TempTarget as real, now);
    (s', HeaterUpdate(Total(out)))
  }

  /** With non-negative gains, the heater is off once the die is at or above
      the target, provided the error is not rising and the integral the call
      leaves is not positive: every term of the PID is then at most zero. */
  lemma HeaterOffWhenWarm(s: PidState, temp: int, now: real)
    requires now > s.lastTime
    requires s.pGain >= 0.0 && s.iGain >= 0.0 && s.dGain >= 0.0
    requires temp >= TempTarget
    requires (TempTarget - temp) as real <= s.lastError
    requires Compute(s, temp as real, TempTarget as real, now).0.iError <= 0.0
    ensures HeaterStep(s, temp, now).1 == HeaterMin
  {
    var input := temp as real;
    var target := TempTarget as real;
    var dt := now - s.lastTime;
    ComputeTerms(s, input, target, now);
    var (s', out) := Compute(s, input, target, now);
    assert out.p <= 0.0 by {
      NonPositiveProduct(s.pGain, target - input);
    }
    assert out.i <= 0.0 by {
      NonPositiveProduct(s.iGain, s'.iError);
    }
    assert out.d <= 0.0 by {
      NonPositiveProduct(s.dGain, (target - input) - s.lastError);
      NonPositiveFactor(out.d, dt);
    }
    assert Total(out) <= 0.0;
  }

  /** The program's own temperature PID: on its first update with the die
      already at or above the target, the heater stays off. */
  lemma WarmStartHeaterOff(start: real, temp: int, now: real)
    requires now > start
    requires temp >= TempTarget
    ensures HeaterStep(TempPid(start), temp, now).1 == HeaterMin
  {
    var s := TempPid(start);
    var error := (TempTarget - temp) as real;
    assert Compute(s, temp as real, TempTarget as real, now).0.iError == error * (now - start);
    NonPositiveProduct(now - start, error);
    HeaterOffWhenWarm(s, temp, now);
  }

  lemma NonPositiveProduct(x: real, y: real)
    requires x >= 0.0 && y <= 0.0
    ensures x * y <= 0.0
  {
  }

  lemma NonPositiveFactor(a: real, k: real)
    requires k > 0.0 && a * k <= 0.0
    ensures a <= 0.0
  {
  }
}
