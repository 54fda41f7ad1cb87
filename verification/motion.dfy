/** The arithmetic of the main flight loop between reading the sensors and
    driving the motors: integrating readings over the time between reads,
    averaging them once per motion period, the motion-period schedule, the
    complementary filter for pitch and roll, the ramp up to hover speed, the
    velocity estimate and the rounding of the PID outputs for the mixer. */
module Motion {
  import opened Frames
  import opened Actuators
  import Mixer
  import Pid

  // ---------------------------------------------------------------------------
  // Integration between reads, and averaging per motion period
  // ---------------------------------------------------------------------------

  /** The loop clock: the start time and the elapsed time at the last read. */
  datatype Clock = Clock(start: real, elapsed: real)

  /** One read at `now`: the time since the previous read, computed as the
      code does, from the start time and the elapsed time. */
  function Tick(c: Clock, now: real): (r: (Clock, real))
    ensures r.1 == now - (c.start + c.elapsed)
    ensures r.0.start == c.start && r.0.start + r.0.elapsed == now
  {
    var delta := now - c.start - c.elapsed;
    (Clock(c.start, now - c.start), delta)
  }

  /** One reading of one axis and the time it was taken. */
  datatype Sample = Sample(value: real, now: real)

  /** Accumulate readings weighted by the time since the previous read, as
      each of the six per-axis accumulators does. */
  function Integrate(c: Clock, total: real, samples: seq<Sample>): (r: (Clock, real))
    ensures |samples| > 0 ==> r.0.start + r.0.elapsed == samples[|samples| - 1].now
    ensures |samples| == 0 ==> r == (c, total)
    ensures r.0.start == c.start
    decreases |samples|
  {
    if |samples| == 0 then (c, total)
    else
      var n := |samples| - 1;
      var (c', total') := Integrate(c, total, samples[..n]);
      var (c'', delta) := Tick(c', samples[n].now);
      (c'', total' + samples[n].value * delta)
  }

  /** `a * (t1 - t0) + a * (t2 - t1) == a * (t2 - t0)`. */
  lemma SplitProduct(a: real, t0: real, t1: real, t2: real)
    ensures a * (t1 - t0) + a * (t2 - t1) == a * (t2 - t0)
  {
  }

  /** The time steps telescope: a reading held at `v` adds exactly `v` times
      the time from the clock's position to the last read, however the reads
      are spaced. */
  lemma {:induction false} ConstantIntegral(c: Clock, total: real, samples: seq<Sample>, v: real)
    requires forall k :: 0 <= k < |samples| ==> samples[k].value == v
    ensures |samples| > 0 ==>
      Integrate(c, total, samples).1 == total + v * (samples[|samples| - 1].now - (c.start + c.elapsed))
    decreases |samples|
  {
    if |samples| > 0 {
      var n := |samples| - 1;
      var prefix := samples[..n];
      assert forall k :: 0 <= k < n ==> prefix[k].value == v by {
        forall k | 0 <= k < n ensures prefix[k].value == v {
          assert prefix[k] == samples[k];
        }
      }
      ConstantIntegral(c, total, prefix, v);
      var (c', total') := Integrate(c, total, prefix);
      var t0 := c.start + c.elapsed;
      var t1 := c'.start + c'.elapsed;
      var last := samples[n].now;
      assert total' == total + v * (t1 - t0) by {
        if n == 0 {
          assert t1 - t0 == 0.0;
        }
      }
      assert Integrate(c, total, samples).1 == total' + v * (last - t1);
      assert total' + v * (last - t1) == total + v * (last - t0) by {
        SplitProduct(v, t0, t1, last);
      }
    }
  }

  /** At a motion update: divide what was accumulated by the time since the
      previous update, then restart accumulating from zero at `now`. Python
      raises ZeroDivisionError on an empty period, so the period must be
      non-empty. */
  function AverageAndReset(total: real, integrationStart: real, now: real): (r: (real, real, real))
    requires now != integrationStart
    ensures r.0 * (now - integrationStart) == total
    ensures r.1 == 0.0 && r.2 == now
  {
    (total / (now - integrationStart), 0.0, now)
  }

  /** A reading held constant over a motion period averages to itself. */
  lemma {:induction false} ConstantReadingAverage(c: Clock, samples: seq<Sample>, v: real)
    requires |samples| > 0
    requires forall k :: 0 <= k < |samples| ==> samples[k].value == v
    requires samples[|samples| - 1].now != c.start + c.elapsed
    ensures var last := samples[|samples| - 1].now;
      AverageAndReset(Integrate(c, 0.0, samples).1, c.start + c.elapsed, last).0 == v
  {
    ConstantIntegral(c, 0.0, samples, v);
    var last := samples[|samples| - 1].now;
    var period := last - (c.start + c.elapsed);
    var avg := AverageAndReset(Integrate(c, 0.0, samples).1, c.start + c.elapsed, last).0;
    assert avg * period == v * period;
    CancelNonZero(avg, v, period);
  }

  lemma CancelNonZero(a: real, b: real, k: real)
    requires k != 0.0 && a * k == b * k
    ensures a == b
  {
    assert (a - b) * k == 0.0;
  }

  // ---------------------------------------------------------------------------
  // Motion-period schedule
  // ---------------------------------------------------------------------------

  /** A motion update falls due once a full period has passed since the last
      scheduled update; the schedule then moves on by exactly one period, not
      to `now`, so a late update does not shift later ones. */
  function Schedule(now: real, last: real, period: real): (r: (bool, real))
    ensures r.0 <==> now - last >= period
    ensures r.0 ==> r.1 == last + period && r.1 <= now
    ensures !r.0 ==> r.1 == last
  {
    if now - last >= period then (true, last + period) else (false, last)
  }

  /** The number of motion updates over a run of reads, and the schedule mark
      afterwards. */
  function ScheduleRun(last: real, times: seq<real>, period: real): (r: (nat, real))
    decreases |times|
  {
    if |times| == 0 then (0, last)
    else
      var (due, last') := Schedule(times[0], last, period);
      var (count, final) := ScheduleRun(last', times[1..], period);
      (count + (if due then 1 else 0), final)
  }

  /** The mark `n` whole periods after `start`. */
  function GridPoint(start: real, n: nat, period: real): real
    decreases n
  {
    if n == 0 then start else GridPoint(start, n - 1, period) + period
  }

  /** The `n`-th grid point is `start + n * period`. */
  lemma {:induction false} GridPointClosedForm(start: real, n: nat, period: real)
    ensures GridPoint(start, n, period) == start + n as real * period
    decreases n
  {
    if n > 0 {
      GridPointClosedForm(start, n - 1, period);
      assert (n - 1) as real * period + period == n as real * period;
    }
  }

  /** Starting one period later is the same as taking one more period. */
  lemma {:induction false} GridShift(start: real, n: nat, period: real)
    ensures GridPoint(start + period, n, period) == GridPoint(start, n + 1, period)
    decreases n
  {
    if n > 0 {
      GridShift(start, n - 1, period);
    }
  }

  /** The schedule stays on the grid of whole periods from its start and never
      runs ahead of the clock. */
  lemma {:induction false} ScheduleOnGrid(last: real, times: seq<real>, period: real, horizon: real)
    requires last <= horizon
    requires forall k :: 0 <= k < |times| ==> times[k] <= horizon
    ensures var (count, final) := ScheduleRun(last, times, period);
      final == GridPoint(last, count, period) && final <= horizon
    decreases |times|
  {
    if |times| > 0 {
      var (due, last') := Schedule(times[0], last, period);
      ScheduleOnGrid(last', times[1..], period, horizon);
      if due {
        GridShift(last, ScheduleRun(last', times[1..], period).0, period);
      }
    }
  }

  // ---------------------------------------------------------------------------
  // Complementary filter
  // ---------------------------------------------------------------------------

  /** The weight given to the gyro-propagated angle. */
  function TauFraction(tau: real, dt: real): (f: real)
    requires tau > 0.0 && dt > 0.0
    ensures 0.0 < f < 1.0
  {
    tau / (tau + dt)
  }

  /** `pa = f * (pa + epr * dt) + (1 - f) * epa`: mix the previous angle moved
      on by the Euler rate with the angle measured from gravity. */
  function Blend(angle: real, rate: real, measured: real, dt: real, tau: real): (r: real)
    requires tau > 0.0 && dt > 0.0
  {
    Weighted(angle + rate * dt, measured, TauFraction(tau, dt))
  }

  /** The weighted mean `f * g + (1 - f) * m` the filter takes. */
  function Weighted(g: real, m: real, f: real): real {
    f * g + (1.0 - f) * m
  }

  /** The filter moves the measured angle a fraction of the way toward the
      gyro estimate. */
  lemma BlendContracts(angle: real, rate: real, measured: real, dt: real, tau: real)
    requires tau > 0.0 && dt > 0.0
    ensures Blend(angle, rate, measured, dt, tau) - measured
         == TauFraction(tau, dt) * ((angle + rate * dt) - measured)
  {
  }

  lemma ScaleStrict(a: real, x: real, y: real)
    requires a > 0.0 && x < y
    ensures a * x < a * y
  {
  }

  /** `ScaleStrict` for the complementary weight, kept as a lemma of its own:
      the solver does not relate the product of the compound factor
      `1.0 - f` inside a larger proof. */
  lemma ComplementStrict(f: real, x: real, y: real)
    requires f < 1.0 && x < y
    ensures (1.0 - f) * x < (1.0 - f) * y
  {
    assert (1.0 - f) * x < (1.0 - f) * y by { ScaleStrict(1.0 - f, x, y); }
  }

  /** A weighted mean with both weights positive lies strictly between the
      two values it mixes, and equals them when they agree. */
  lemma WeightedBetween(g: real, m: real, f: real)
    requires 0.0 < f < 1.0
    ensures g < m ==> g < Weighted(g, m, f) < m
    ensures m < g ==> m < Weighted(g, m, f) < g
    ensures g == m ==> Weighted(g, m, f) == m
  {
    if g < m {
      ScaleStrict(f, g, m);
      ComplementStrict(f, g, m);
      assert f * m + (1.0 - f) * m == m;
      assert f * g + (1.0 - f) * g == g;
    } else if m < g {
      ScaleStrict(f, m, g);
      ComplementStrict(f, m, g);
      assert f * m + (1.0 - f) * m == m;
      assert f * g + (1.0 - f) * g == g;
    } else {
      assert f * m + (1.0 - f) * m == m;
    }
  }

  /** The new angle lies strictly between the gyro estimate and the measured
      angle, and equals the measured angle when the two agree. */
  lemma {:induction false} BlendBetween(angle: real, rate: real, measured: real, dt: real, tau: real)
    requires tau > 0.0 && dt > 0.0
    ensures var g := angle + rate * dt;
      var r := Blend(angle, rate, measured, dt, tau);
      && (g < measured ==> g < r < measured)
      && (measured < g ==> measured < r < g)
      && (g == measured ==> r == measured)
  {
    WeightedBetween(angle + rate * dt, measured, TauFraction(tau, dt));
  }

  /** Pitch, roll and yaw estimates. */
  datatype Attitude = Attitude(pa: real, ra: real, ya: real)

  /** The attitude update of a motion period: pitch and roll through the
      filter with the Euler rates, yaw by integrating the raw z gyro rate. */
  function AttitudeUpdate(a: Attitude, rates: EulerRates, qgz: real, epa: real, era: real,
                          dt: real, tau: real): (r: Attitude)
    requires tau > 0.0 && dt > 0.0
    ensures r.ya - a.ya == qgz * dt
  {
    Attitude(Blend(a.pa, rates.epr, epa, dt, tau), Blend(a.ra, rates.err, era, dt, tau), a.ya + qgz * dt)
  }

  /** The Euler yaw rate is computed but never used: changing it changes
      nothing. In level flight it equals the z gyro rate the yaw integrates,
      so the two agree there. */
  lemma EulerYawRateUnused(a: Attitude, rates: EulerRates, eyr: real, qgz: real, epa: real, era: real,
                           dt: real, tau: real)
    requires tau > 0.0 && dt > 0.0
    ensures AttitudeUpdate(a, rates.(eyr := eyr), qgz, epa, era, dt, tau)
         == AttitudeUpdate(a, rates, qgz, epa, era, dt, tau)
  {
  }

  lemma LevelYawRatesAgree(qgy: real, qgx: real, qgz: real)
    ensures Body2EulerRates(qgy, qgx, qgz, Zero, Zero).eyr == qgz
  {
    LevelBodyRates(qgy, qgx, qgz);
  }

  // ---------------------------------------------------------------------------
  // Ramp to hover speed
  // ---------------------------------------------------------------------------

  /** The ramp state: the current hover speed and whether it has been
      reached. */
  datatype Ramp = Ramp(hoverSpeed: int, ready: bool)

  const RampStart: Ramp := Ramp(0, false)

  /** The exact share of the hover target one motion period adds. */
  function ExactIncrement(hoverTarget: int, motionPeriod: real, rtfPeriod: real): real
    requires rtfPeriod != 0.0
  {
    hoverTarget as real * motionPeriod / rtfPeriod
  }

  /** The per-period increment, `int(hover_target * motion_period / rtf_period)`. */
  function RampIncrement(hoverTarget: int, motionPeriod: real, rtfPeriod: real): int
    requires rtfPeriod != 0.0
  {
    Truncate(ExactIncrement(hoverTarget, motionPeriod, rtfPeriod))
  }

  /** One motion period of the ramp. Once the speed has reached the target it
      is set to exactly the target, the vehicle is ready, and the flight plan
      starts; until then the speed grows by the increment. */
  function RampStep(r: Ramp, hoverTarget: int, increment: int): (out: (Ramp, bool))
    ensures r.ready ==> out == (r, false)
    ensures out.1 <==> !r.ready && r.hoverSpeed >= hoverTarget
    ensures out.1 ==> out.0 == Ramp(hoverTarget, true)
    ensures !r.ready && r.hoverSpeed < hoverTarget ==> out.0 == Ramp(r.hoverSpeed + increment, false)
  {
    if r.ready then (r, false)
    else if r.hoverSpeed >= hoverTarget then (Ramp(hoverTarget, true), true)
    else (Ramp(r.hoverSpeed + increment, false), false)
  }

  function RampRun(r: Ramp, hoverTarget: int, increment: int, periods: nat): Ramp
    decreases periods
  {
    if periods == 0 then r else RampRun(RampStep(r, hoverTarget, increment).0, hoverTarget, increment, periods - 1)
  }

  /** The number of periods a ramp from `speed` takes to become ready. */
  function PeriodsToHover(speed: int, hoverTarget: int, increment: int): nat
    requires increment > 0
    decreases hoverTarget - speed
  {
    if speed >= hoverTarget then 1 else 1 + PeriodsToHover(speed + increment, hoverTarget, increment)
  }

  /** With a positive increment the ramp becomes ready, at exactly the hover
      target, and stays so. */
  lemma {:induction false} RampReachesHover(r: Ramp, hoverTarget: int, increment: int, extra: nat)
    requires increment > 0 && !r.ready
    ensures RampRun(r, hoverTarget, increment, PeriodsToHover(r.hoverSpeed, hoverTarget, increment) + extra)
         == Ramp(hoverTarget, true)
    decreases hoverTarget - r.hoverSpeed
  {
    var n := PeriodsToHover(r.hoverSpeed, hoverTarget, increment);
    var r' := RampStep(r, hoverTarget, increment).0;
    if r.hoverSpeed >= hoverTarget {
      ReadyStaysPut(r', hoverTarget, increment, extra);
    } else {
      RampReachesHover(r', hoverTarget, increment, extra);
    }
  }

  lemma {:induction false} ReadyStaysPut(r: Ramp, hoverTarget: int, increment: int, periods: nat)
    requires r.ready
    ensures RampRun(r, hoverTarget, increment, periods) == r
    decreases periods
  {
    if periods > 0 {
      ReadyStaysPut(r, hoverTarget, increment, periods - 1);
    }
  }

  /** While ramping, the speed stays below the target plus one increment. */
  lemma {:induction false} RampBounded(r: Ramp, hoverTarget: int, increment: int, periods: nat)
    requires increment >= 0 && r.hoverSpeed < hoverTarget + increment
    requires r.ready ==> r.hoverSpeed == hoverTarget
    ensures var r' := RampRun(r, hoverTarget, increment, periods);
      r'.hoverSpeed < hoverTarget + increment && (r'.ready ==> r'.hoverSpeed == hoverTarget)
    decreases periods
  {
    if periods > 0 {
      RampBounded(RampStep(r, hoverTarget, increment).0, hoverTarget, increment, periods - 1);
    }
  }

  /** A zero increment never gets a ramp below a positive target to hover:
      the flight plan never starts. */
  lemma {:induction false} RampStalls(r: Ramp, hoverTarget: int, periods: nat)
    requires !r.ready && r.hoverSpeed < hoverTarget
    ensures RampRun(r, hoverTarget, 0, periods) == r
    decreases periods
  {
    if periods > 0 {
      RampStalls(r, hoverTarget, periods - 1);
    }
  }

  /** The increment is zero exactly when the hover target is below the
      number of motion periods in the ready-to-fly period; at the default 43
      updates per second and one second to ready, any target below 43 stalls. */
  lemma {:induction false} IncrementZeroBelowPeriods(hoverTarget: int, motionFrequency: int, motionPeriod: real, rtfPeriod: real)
    requires hoverTarget >= 0 && motionFrequency > 0 && rtfPeriod > 0.0
    requires motionPeriod * motionFrequency as real == 1.0
    ensures RampIncrement(hoverTarget, motionPeriod, rtfPeriod) == 0
        <==> (hoverTarget as real) < motionFrequency as real * rtfPeriod
  {
    assert motionPeriod > 0.0 by {
      assert motionPeriod * motionFrequency as real > 0.0;
    }
    IncrementZeroBelowOne(hoverTarget, motionPeriod, rtfPeriod);
    ReciprocalRatio(hoverTarget, motionPeriod, motionFrequency as real, rtfPeriod);
  }

  /** Scaling by the period is dividing by the frequency. */
  lemma ReciprocalRatio(hoverTarget: int, p: real, f: real, r: real)
    requires hoverTarget >= 0 && f > 0.0 && r > 0.0 && p * f == 1.0
    ensures ExactIncrement(hoverTarget, p, r) < 1.0 <==> (hoverTarget as real) < f * r
  {
    var h := hoverTarget as real;
    assert ExactIncrement(hoverTarget, p, r) == h * p / r;
    assert h * p >= 0.0 by {
      assert p > 0.0 by {
        assert p * f > 0.0;
      }
    }
    BelowOne(h * p, r);
    assert h * p < r <==> h < f * r by {
      assert (h * p) * f == h;
      assert r * f == f * r;
    }
  }

  /** The truncated increment is zero exactly when the exact one is below 1. */
  lemma IncrementZeroBelowOne(hoverTarget: int, motionPeriod: real, rtfPeriod: real)
    requires hoverTarget >= 0 && rtfPeriod > 0.0
    requires motionPeriod >= 0.0
    ensures RampIncrement(hoverTarget, motionPeriod, rtfPeriod) == 0
        <==> ExactIncrement(hoverTarget, motionPeriod, rtfPeriod) < 1.0
  {
    assert ExactIncrement(hoverTarget, motionPeriod, rtfPeriod) >= 0.0 by {
      assert hoverTarget as real * motionPeriod >= 0.0;
    }
  }

  lemma BelowOne(a: real, b: real)
    requires a >= 0.0 && b > 0.0
    ensures 0.0 <= a / b
    ensures a / b < 1.0 <==> a < b
  {
    assert a / b * b == a;
    if a / b < 1.0 {
      assert a / b * b < b;
    }
  }

  // ---------------------------------------------------------------------------
  // Velocity estimate
  // ---------------------------------------------------------------------------

  /** Standard gravity in metres per second squared. */
  const GravAccel: real := 9.80665

  /** Integrate the quadcopter-frame acceleration, less gravity as seen in the
      current attitude, into the quadcopter-frame velocity. Accelerations are
      in units of g. */
  function VelocityStep(qv: Vec3, qa: Vec3, ga: Vec3, dt: real): (r: Vec3)
    ensures qa == ga ==> r == qv
    ensures dt > 0.0 ==> (qa.z > ga.z <==> r.z > qv.z)
  {
    Vec3(qv.x + (qa.x - ga.x) * dt * GravAccel,
         qv.y + (qa.y - ga.y) * dt * GravAccel,
         qv.z + (qa.z - ga.z) * dt * GravAccel)
  }

  /** At take-off the measured gravity is turned into the earth frame with
      zero yaw; turned back at the same attitude and zero yaw it is the
      reading again, so a vehicle still in its take-off attitude and reading
      the same acceleration estimates no change of velocity. */
  lemma {:induction false} TakeoffGravityCancels(qv: Vec3, qa: Vec3, pa: Trig, ra: Trig, dt: real)
    requires Unit(pa) && Unit(ra)
    ensures var earthGravity := Q2EFrame(qa, pa, ra, Zero);
      VelocityStep(qv, qa, E2QFrame(earthGravity, pa, ra, Zero), dt) == qv
  {
    assert Unit(Zero);
    FrameRoundTrips(qa, pa, ra, Zero);
  }

  // ---------------------------------------------------------------------------
  // Rounding the PID outputs for the mixer
  // ---------------------------------------------------------------------------

  /** Python 2 `round`: to the nearest integer, halves away from zero. */
  function PyRound(x: real): (n: int)
    ensures -0.5 <= n as real - x <= 0.5
    ensures x >= 0.0 ==> x - 0.5 < n as real
    ensures x <= 0.0 ==> n as real < x + 0.5
  {
    if x >= 0.0 then (x + 0.5).Floor else -((-x + 0.5).Floor)
  }

  /** Rounding is symmetric about zero and leaves whole numbers alone. */
  lemma PyRoundSymmetric(x: real, k: int)
    ensures PyRound(-x) == -PyRound(x)
    ensures PyRound(k as real) == k
  {
  }

  /** Halves go away from zero, not to even. */
  lemma PyRoundHalves()
    ensures PyRound(0.5) == 1 && PyRound(-0.5) == -1
    ensures PyRound(2.5) == 3 && PyRound(-2.5) == -3
  {
  }

  /** `int(round(x / 2))`: a rate PID output halved and rounded. */
  function RateOutput(x: real): (n: int)
    ensures -0.5 <= n as real - x / 2.0 <= 0.5
  {
    PyRound(x / 2.0)
  }

  /** The rate targets taken from the horizontal velocity PIDs: pitch rate
      follows the x output and roll rate the negated y output. */
  function RateTargets(qvxOut: real, qvyOut: real): (r: (real, real))
    ensures r.0 == qvxOut && r.1 + qvyOut == 0.0
  {
    (qvxOut, -qvyOut)
  }

  /** The corrections the rate targets are built for: a forward drift (a
      negative x velocity output) asks for a negative pitch rate and a
      leftward drift (a negative y velocity output) for a positive roll rate.
      With the vehicle not rotating and positive proportional gains, the rate
      PIDs' proportional terms take the same signs. */
  lemma DriftCorrectionTargets(qvxOut: real, qvyOut: real, pitch: Pid.PidState, roll: Pid.PidState, now: real)
    requires now != pitch.lastTime && now != roll.lastTime
    requires pitch.pGain > 0.0 && roll.pGain > 0.0
    ensures var (prTarget, rrTarget) := RateTargets(qvxOut, qvyOut);
      && (prTarget < 0.0 <==> qvxOut < 0.0)
      && (rrTarget > 0.0 <==> qvyOut < 0.0)
      && (Pid.Compute(pitch, 0.0, prTarget, now).1.p < 0.0 <==> qvxOut < 0.0)
      && (Pid.Compute(roll, 0.0, rrTarget, now).1.p > 0.0 <==> qvyOut < 0.0)
  {
  }

  /** The mixer's input for a period: hover speed plus the rounded vertical
      output, and the three rate outputs halved and rounded. */
  function MixerCommand(hoverSpeed: int, qvzOut: real, prOut: real, rrOut: real, yrOut: real): (c: Mixer.Command)
    ensures -0.5 <= (c.vert - hoverSpeed) as real - qvzOut <= 0.5
  {
    Mixer.Command(hoverSpeed + PyRound(qvzOut), RateOutput(prOut), RateOutput(rrOut), RateOutput(yrOut))
  }

  /** Rate outputs under a unit in size round to no rotation demand, so all
      four motors then run at the same pulse. */
  lemma {:induction false} SmallRatesSpinEqually(hoverSpeed: int, qvzOut: real, prOut: real, rrOut: real, yrOut: real)
    requires -1.0 < prOut < 1.0 && -1.0 < rrOut < 1.0 && -1.0 < yrOut < 1.0
    ensures var c := MixerCommand(hoverSpeed, qvzOut, prOut, rrOut, yrOut);
      c.pr == 0 && c.rr == 0 && c.yr == 0 &&
      forall j :: 0 <= j < 4 ==> Mixer.Spins(c)[j] == c.vert
  {
    var c := MixerCommand(hoverSpeed, qvzOut, prOut, rrOut, yrOut);
    Mixer.LevelCommandSpinsEqually(c);
  }

  /** How the rate outputs tilt the frame: the left pair of motors outspins
      the right pair by four times the rounded roll output and the back pair
      outspins the front pair by four times the rounded pitch output, and a
      rate output of at least one in size survives the halving and rounding
      with its sign. So a positive roll rate target, once it drives a positive
      roll output, speeds up the left motors. */
  lemma RateOutputsTiltTheFrame(hoverSpeed: int, qvzOut: real, prOut: real, rrOut: real, yrOut: real)
    ensures var c := MixerCommand(hoverSpeed, qvzOut, prOut, rrOut, yrOut);
      var d := Mixer.Spins(c);
      && (d[0] + d[2]) - (d[1] + d[3]) == 4 * c.rr
      && (d[2] + d[3]) - (d[0] + d[1]) == 4 * c.pr
      && (rrOut >= 1.0 ==> c.rr >= 1) && (rrOut <= -1.0 ==> c.rr <= -1)
      && (prOut >= 1.0 ==> c.pr >= 1) && (prOut <= -1.0 ==> c.pr <= -1)
  {
  }
}
