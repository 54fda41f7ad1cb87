/** The PID unit shared by every control loop: proportional term on the error,
    trapezoidal integral of the error (left unhalved), divided-difference
    derivative. The state is passed in and returned instead of being held in
    an object. */
module Pid {

  datatype PidState = PidState(
    pGain: real, iGain: real, dGain: real,
    lastError: real, lastTime: real, iError: real)

  /** The three raw terms; summing and clamping them is the caller's business. */
  datatype PidOutput = PidOutput(p: real, i: real, d: real)

  function Total(o: PidOutput): real {
    o.p + o.i + o.d
  }

  /** `PID.__init__`: no error yet, no accumulated integral, clock started now. */
  function Init(pGain: real, iGain: real, dGain: real, now: real): (s: PidState)
    ensures s.lastError == 0.0 && s.iError == 0.0 && s.lastTime == now
    ensures s.pGain == pGain && s.iGain == iGain && s.dGain == dGain
  {
    PidState(pGain, iGain, dGain, 0.0, now, 0.0)
  }

  lemma DivThenMul(x: real, k: real, dt: real)
    requires dt != 0.0
    ensures k * (x / dt) * dt == k * x
  {
  }

  /** The integral's increment for errors `e` and `pe` at the ends of the
      interval from `pt` to `t`: the sum of the two errors times the interval,
      twice the trapezoid's area, since the code does not halve it. */
  function Area(e: real, pe: real, t: real, pt: real): real {
    (e + pe) * (t - pt)
  }

  /** The state half of `PID.Compute`: remember this error and time and add
      the increment for this and the previous error to the integral. */
  function Advance(s: PidState, input: real, target: real, now: real): (r: PidState)
    ensures r.lastError == target - input && r.lastTime == now
    ensures r.pGain == s.pGain && r.iGain == s.iGain && r.dGain == s.dGain
  {
    var error := target - input;
    s.(lastError := error, lastTime := now,
       iError := s.iError + Area(error, s.lastError, now, s.lastTime))
  }

  /** `PID.Compute`. Python raises ZeroDivisionError when `now` equals the time
      of the previous call, so callers must let time advance. The three terms
      are stated by `ComputeTerms`. */
  function Compute(s: PidState, input: real, target: real, now: real): (r: (PidState, PidOutput))
    requires now != s.lastTime
    ensures r.0.lastError == target - input && r.0.lastTime == now
    ensures r.0.pGain == s.pGain && r.0.iGain == s.iGain && r.0.dGain == s.dGain
  {
    var s' := Advance(s, input, target, now);
    var error := target - input;
    (s', PidOutput(s.pGain * error, s.iGain * s'.iError,
                   s.dGain * ((error - s.lastError) / (now - s.lastTime))))
  }

  /** The proportional term scales the error, the integral grows by the
      trapezoid of this and the previous error over the elapsed interval, and
      the derivative term times the interval is the change of error. */
  lemma ComputeTerms(s: PidState, input: real, target: real, now: real)
    requires now != s.lastTime
    ensures var (s', o) := Compute(s, input, target, now);
      && o.p == s.pGain * (target - input)
      && s'.iError - s.iError == ((target - input) + s.lastError) * (now - s.lastTime)
      && o.i == s.iGain * s'.iError
      && o.d * (now - s.lastTime) == s.dGain * ((target - input) - s.lastError)
  {
    DivThenMul((target - input) - s.lastError, s.dGain, now - s.lastTime);
  }

  // ---------------------------------------------------------------------------
  // Runs of successive calls
  // ---------------------------------------------------------------------------

  /** The arguments of one `Compute` call. */
  datatype Reading = Reading(input: real, target: real, now: real)

  function ErrorOf(r: Reading): real {
    r.target - r.input
  }

  /** Every call comes strictly later than the start and than every call
      before it. */
  predicate Advancing(t0: real, steps: seq<Reading>) {
    && (forall k :: 0 <= k < |steps| ==> steps[k].now > t0)
    && (forall i, j :: 0 <= i < j < |steps| ==> steps[i].now < steps[j].now)
  }

  /** After the first call, the remaining calls advance from its time. */
  lemma AdvancingTail(t0: real, steps: seq<Reading>)
    requires Advancing(t0, steps) && |steps| > 0
    ensures steps[0].now > t0
    ensures Advancing(steps[0].now, steps[1..])
  {
  }

  /** The controller state after a run of calls: the state half of each
      `Compute` in turn, from the first reading to the last. */
  function Run(s: PidState, steps: seq<Reading>): (r: PidState)
    ensures |steps| == 0 ==> r == s
    ensures |steps| > 0 ==> r.lastTime == steps[|steps| - 1].now
    ensures |steps| > 0 ==> r.lastError == ErrorOf(steps[|steps| - 1])
    ensures r.pGain == s.pGain && r.iGain == s.iGain && r.dGain == s.dGain
    decreases |steps|
  {
    if |steps| == 0 then s
    else Run(Advance(s, steps[0].input, steps[0].target, steps[0].now), steps[1..])
  }

  /** A run whose times advance is a chain of well-defined `Compute` calls:
      the first call is legal, and the rest of the run starts from the state
      it leaves and still advances. */
  lemma RunStep(s: PidState, steps: seq<Reading>)
    requires Advancing(s.lastTime, steps) && |steps| > 0
    ensures s.lastTime != steps[0].now
    ensures var s1 := Compute(s, steps[0].input, steps[0].target, steps[0].now).0;
      && Advancing(s1.lastTime, steps[1..])
      && Run(s, steps) == Run(s1, steps[1..])
  {
    AdvancingTail(s.lastTime, steps);
  }

  /** Reference definition: the sum of the unhalved trapezoids
      (e_k + e_(k-1)) * (t_k - t_(k-1)) over the readings, starting from error
      `e0` at time `t0`. */
  function TrapezoidSum(e0: real, t0: real, steps: seq<Reading>): real
    decreases |steps|
  {
    if |steps| == 0 then 0.0
    else Area(ErrorOf(steps[0]), e0, steps[0].now, t0)
         + TrapezoidSum(ErrorOf(steps[0]), steps[0].now, steps[1..])
  }

  /** The integral after a run is the starting integral plus the sum of the
      trapezoids, not the rectangle sum of e_k * (t_k - t_(k-1)). */
  lemma {:induction false} IntegralIsTrapezoidSum(s: PidState, steps: seq<Reading>)
    ensures Run(s, steps).iError == s.iError + TrapezoidSum(s.lastError, s.lastTime, steps)
    decreases |steps|
  {
    if |steps| > 0 {
      IntegralIsTrapezoidSum(Advance(s, steps[0].input, steps[0].target, steps[0].now), steps[1..]);
    }
  }

  /** `di` is at least (for `e > 0`) or at most (for `e < 0`) the rectangle
      of height `e` and width `dt`. */
  predicate RectBound(e: real, di: real, dt: real) {
    && (e > 0.0 ==> di >= e * dt)
    && (e < 0.0 ==> di <= e * dt)
  }

  /** `x` has the strict sign of `e` (nothing when `e` is zero). */
  predicate SignOf(e: real, x: real) {
    && (e > 0.0 ==> x > 0.0)
    && (e < 0.0 ==> x < 0.0)
  }

  /** A run of calls whose times advance and whose error is held at `e`,
      after a last error that does not oppose `e`. */
  predicate ConstantRun(s: PidState, steps: seq<Reading>, e: real) {
    && Advancing(s.lastTime, steps)
    && (forall k :: 0 <= k < |steps| ==> ErrorOf(steps[k]) == e)
    && (e > 0.0 ==> s.lastError >= 0.0)
    && (e < 0.0 ==> s.lastError <= 0.0)
  }

  /** Held at constant error `e > 0` (after a non-negative error), the integral
      grows by at least `e` per second, so it strictly increases over any
      non-empty run; symmetrically it strictly decreases for `e < 0`. */
  lemma {:induction false} ConstantErrorIntegralGrows(s: PidState, steps: seq<Reading>, e: real)
    requires ConstantRun(s, steps, e)
    ensures s.lastTime <= Run(s, steps).lastTime
    ensures RectBound(e, Run(s, steps).iError - s.iError, Run(s, steps).lastTime - s.lastTime)
    ensures |steps| > 0 ==> SignOf(e, Run(s, steps).iError - s.iError)
    decreases |steps|
  {
    if |steps| > 0 {
      var s1 := Advance(s, steps[0].input, steps[0].target, steps[0].now);
      ConstantRunStep(s, steps, e);
      ConstantErrorIntegralGrows(s1, steps[1..], e);
      var r := Run(s1, steps[1..]);
      GrowStep(e, s.iError, s1.iError, r.iError, s.lastTime, s1.lastTime, r.lastTime);
    }
  }

  /** The first call of a constant-error run adds at least (or at most) the
      rectangle of `e` over its interval, and leaves a constant-error run. */
  lemma ConstantRunStep(s: PidState, steps: seq<Reading>, e: real)
    requires ConstantRun(s, steps, e) && |steps| > 0
    ensures var s1 := Advance(s, steps[0].input, steps[0].target, steps[0].now);
      && ConstantRun(s1, steps[1..], e)
      && Run(s, steps) == Run(s1, steps[1..])
      && s.lastTime < s1.lastTime
      && RectBound(e, s1.iError - s.iError, s1.lastTime - s.lastTime)
      && SignOf(e, s1.iError - s.iError)
  {
    ConstantTail(s.lastTime, steps, e);
    FirstCallBound(s, steps[0].input, steps[0].target, steps[0].now, e);
  }

  /** Dropping the first reading of an advancing constant-error run leaves
      one that advances from the first reading's time. */
  lemma ConstantTail(t0: real, steps: seq<Reading>, e: real)
    requires Advancing(t0, steps) && |steps| > 0
    requires forall k :: 0 <= k < |steps| ==> ErrorOf(steps[k]) == e
    ensures ErrorOf(steps[0]) == e && t0 < steps[0].now
    ensures Advancing(steps[0].now, steps[1..])
    ensures forall k :: 0 <= k < |steps| - 1 ==> ErrorOf(steps[1..][k]) == e
  {
    AdvancingTail(t0, steps);
    forall k | 0 <= k < |steps| - 1 ensures ErrorOf(steps[1..][k]) == e {
      assert steps[1..][k] == steps[k + 1];
    }
  }

  /** One call at error `e`, after an error that does not oppose it, adds at
      least (or at most) the rectangle of `e` over the elapsed interval. */
  lemma FirstCallBound(s: PidState, input: real, target: real, now: real, e: real)
    requires target - input == e && now > s.lastTime
    requires e > 0.0 ==> s.lastError >= 0.0
    requires e < 0.0 ==> s.lastError <= 0.0
    ensures var s1 := Advance(s, input, target, now);
      RectBound(e, s1.iError - s.iError, now - s.lastTime) && SignOf(e, s1.iError - s.iError)
  {
    AreaBound(e, s.lastError, now, s.lastTime);
  }

  /** A first interval with its own strict bound, then a possibly empty second
      one: the bounds add up over the whole. */
  lemma GrowStep(e: real, i0: real, ib: real, i1: real, t0: real, tb: real, t1: real)
    requires t0 < tb <= t1
    requires RectBound(e, ib - i0, tb - t0) && SignOf(e, ib - i0)
    requires RectBound(e, i1 - ib, t1 - tb)
    ensures RectBound(e, i1 - i0, t1 - t0) && SignOf(e, i1 - i0)
  {
    assert e * (t1 - t0) == e * (tb - t0) + e * (t1 - tb);
    if e > 0.0 {
      NonNegProduct(e, t1 - tb);
    } else if e < 0.0 {
      NonNegProduct(-e, t1 - tb);
      assert -e * (t1 - tb) == -(e * (t1 - tb));
    }
  }

  /** One increment whose earlier error does not oppose `e` is at least (for
      `e > 0`) or at most (for `e < 0`) the rectangle `e * (t - pt)`. */
  lemma AreaBound(e: real, pe: real, t: real, pt: real)
    requires t > pt
    requires e > 0.0 ==> pe >= 0.0
    requires e < 0.0 ==> pe <= 0.0
    ensures e > 0.0 ==> Area(e, pe, t, pt) >= e * (t - pt) > 0.0
    ensures e < 0.0 ==> Area(e, pe, t, pt) <= e * (t - pt) < 0.0
  {
    if e > 0.0 {
      NonNegProduct(pe, t - pt);
      PositiveProduct(e, t - pt);
    } else if e < 0.0 {
      NonNegProduct(-pe, t - pt);
      PositiveProduct(-e, t - pt);
    }
  }

  lemma NonNegProduct(x: real, y: real)
    requires x >= 0.0 && y >= 0.0
    ensures x * y >= 0.0
  {
  }

  lemma PositiveProduct(x: real, y: real)
    requires x > 0.0 && y > 0.0
    ensures x * y > 0.0
  {
  }

  /** With the input held exactly at the target after a zero error, the P and D
      terms are zero and the integral does not move: the I term holds the
      correction the loop had already accumulated. */
  lemma HeldAtSetpoint(s: PidState, x: real, now: real)
    requires now != s.lastTime && s.lastError == 0.0
    ensures var (s', o) := Compute(s, x, x, now);
      o.p == 0.0 && o.d == 0.0 && s'.iError == s.iError && o.i == s.iGain * s.iError
  {
  }
}
