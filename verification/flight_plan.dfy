/** The fixed flight plan: a list of steps, each with an earth-frame velocity
    target and a duration. The active step is the first whose cumulative end
    time lies beyond the time elapsed since the plan started; past the last
    step the plan asks the main loop to stop. */
module FlightPlan {

  /** An earth-frame velocity target in metres per second. */
  datatype Velocity = Velocity(evx: real, evy: real, evz: real)

  const StepCount: nat := 5

  /** Targets and durations of the steps: ready-to-fly, ascent, hover,
      descent, stop. */
  const Targets: seq<Velocity> := [
    Velocity(0.0, 0.0, 0.0),
    Velocity(0.0, 0.0, 0.5),
    Velocity(0.0, 0.0, 0.0),
    Velocity(0.0, 0.0, -0.5),
    Velocity(0.0, 0.0, 0.0)
  ]
  const Durations: seq<real> := [0.0, 2.0, 5.0, 2.0, 0.0]

  /** The end time of step `n - 1`: the sum of the first `n` durations. */
  function Cumulative(n: nat): real
    requires n <= StepCount
  {
    if n == 0 then 0.0 else Cumulative(n - 1) + Durations[n - 1]
  }

  /** The time at which step `j` ends. */
  function EndTime(j: nat): real
    requires j < StepCount
  {
    Cumulative(j + 1)
  }

  /** Step `i` is active at `elapsed`: it ends after `elapsed` and every
      earlier step has ended by then. */
  predicate IsActive(elapsed: real, i: nat)
    requires i < StepCount
  {
    && elapsed < EndTime(i)
    && forall j :: 0 <= j < i ==> elapsed >= EndTime(j)
  }

  /** The plan is over once every step has ended. */
  predicate Finished(elapsed: real) {
    elapsed >= Cumulative(StepCount)
  }

  /** The plan's state: the step last reported and the start time. */
  datatype Plan = Plan(prevIndex: nat, startTime: real)

  /** `FlightPlan.__init__`. */
  function Start(now: real): (p: Plan)
    ensures p.prevIndex == 0 && p.startTime == now
  {
    Plan(0, now)
  }

  /** `FlightPlan.getTargets`: walk the steps accumulating durations and stop
      at the first step still running; if none is, fall off the end with the
      last step selected and ask the main loop to stop. */
  method GetTargets(p: Plan, now: real) returns (p': Plan, v: Velocity, stop: bool)
    ensures var elapsed := now - p.startTime;
      && p'.prevIndex < StepCount
      && (stop <==> Finished(elapsed))
      && (!stop ==> IsActive(elapsed, p'.prevIndex))
      && (stop ==> p'.prevIndex == StepCount - 1)
      && v == Targets[p'.prevIndex]
      && p'.startTime == p.startTime
  {
    var elapsed := now - p.startTime;
    var total := 0.0;
    var index := 0;
    var k := 0;
    var found := false;
    while k < StepCount && !found
      invariant 0 <= k <= StepCount
      invariant !found ==> total == Cumulative(k) && index == (if k == 0 then 0 else k - 1)
      invariant found ==> 0 < k && index == k - 1 && IsActive(elapsed, index)
      invariant forall j :: 0 <= j < (if found then k - 1 else k) ==> elapsed >= EndTime(j)
      decreases StepCount - k, !found
    {
      index := k;
      total := total + Durations[k];
      if elapsed < total {
        found := true;
      }
      k := k + 1;
    }
    stop := !found;
    if !found {
      assert elapsed >= EndTime(StepCount - 1);
    }
    v := Targets[index];
    p' := p.(prevIndex := index);
  }

  /** Cumulative end times never decrease, since no duration is negative. */
  lemma {:induction false} CumulativeMonotone(m: nat, n: nat)
    requires m <= n <= StepCount
    ensures Cumulative(m) <= Cumulative(n)
    decreases n - m
  {
    if m < n {
      CumulativeMonotone(m, n - 1);
      assert Durations[n - 1] >= 0.0;
    }
  }

  /** At most one step is active at any time. */
  lemma ActiveStepUnique(elapsed: real, i: nat, k: nat)
    requires i < StepCount && k < StepCount
    requires IsActive(elapsed, i) && IsActive(elapsed, k)
    ensures i == k
  {
  }

  /** The selected step never goes back as time runs on. */
  lemma ActiveStepMonotone(e1: real, i1: nat, e2: real, i2: nat)
    requires i1 < StepCount && i2 < StepCount
    requires e1 <= e2 && IsActive(e1, i1) && IsActive(e2, i2)
    ensures i1 <= i2
  {
  }

  /** Once finished, a plan stays finished, and while a step is active the
      plan is not finished. */
  lemma FinishedIsFinal(e1: real, e2: real, i: nat)
    requires i < StepCount
    ensures Finished(e1) && e1 <= e2 ==> Finished(e2)
    ensures IsActive(e1, i) ==> !Finished(e1)
  {
    CumulativeMonotone(i + 1, StepCount);
  }

  /** The standard plan: two seconds of ascent at 0.5 m/s, five of hover, two
      of descent at 0.5 m/s, then stop; before the start only the zero-length
      ready-to-fly step is active. */
  lemma {:induction false} StandardSchedule(elapsed: real)
    ensures elapsed < 0.0 ==> IsActive(elapsed, 0) && Targets[0] == Velocity(0.0, 0.0, 0.0)
    ensures 0.0 <= elapsed < 2.0 ==> IsActive(elapsed, 1) && Targets[1] == Velocity(0.0, 0.0, 0.5)
    ensures 2.0 <= elapsed < 7.0 ==> IsActive(elapsed, 2) && Targets[2] == Velocity(0.0, 0.0, 0.0)
    ensures 7.0 <= elapsed < 9.0 ==> IsActive(elapsed, 3) && Targets[3] == Velocity(0.0, 0.0, -0.5)
    ensures 9.0 <= elapsed <==> Finished(elapsed)
    ensures Targets[StepCount - 1] == Velocity(0.0, 0.0, 0.0)
  {
    assert Cumulative(1) == 0.0;
    assert Cumulative(2) == 2.0;
    assert Cumulative(3) == 7.0;
    assert Cumulative(4) == 9.0;
    assert Cumulative(5) == 9.0;
  }
}
