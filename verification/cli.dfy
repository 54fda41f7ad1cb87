/** The decision `CheckCLI` takes once the command line has been parsed: fly,
    calibrate gravity, or run test case 1, or exit with status 2. */
module Cli {

  /** The parsed options the decision reads. */
  datatype Options = Options(
    calibrate: bool,       // -g
    fly: bool,             // -f
    testCase: int,         // --tc, 0 when absent
    hoverTarget: int,      // -h
    hoverDefaulted: bool,  // no -h given
    dlpf: int)             // --dlpf

  /** Why the program exits; each reason is one branch of the decision. */
  datatype ExitReason =
    | NoMode                // none of -f, -g, --tc
    | HoverOutOfRange       // hover target outside [0, 1000]
    | NeedFlyOrCalibrate    // no test case, yet neither -f nor -g
    | TestCaseWithMode      // a test case together with -f or -g
    | UnknownTestCase       // a test case other than 1
    | HoverNotChosen        // test case without an explicit -h

  datatype Decision =
    | Accept(dlpf: int)
    | Exit(reason: ExitReason)

  const HoverMax: int := 1000
  /** The digital low pass filter setting gravity calibration runs with. */
  const CalibrationDlpf: int := 6

  /** The branches in the order the program tests them. */
  function Decide(o: Options): Decision {
    if !o.calibrate && !o.fly && o.testCase == 0 then Exit(NoMode)
    else if !o.calibrate && (o.hoverTarget < 0 || o.hoverTarget > HoverMax) then Exit(HoverOutOfRange)
    else if o.testCase == 0 && o.fly then Accept(o.dlpf)
    else if o.testCase == 0 && o.calibrate then Accept(CalibrationDlpf)
    else if o.testCase == 0 then Exit(NeedFlyOrCalibrate)
    else if o.fly || o.calibrate then Exit(TestCaseWithMode)
    else if o.testCase != 1 then Exit(UnknownTestCase)
    else if o.hoverDefaulted then Exit(HoverNotChosen)
    else Accept(o.dlpf)
  }

  /** The combinations the program runs with, stated per mode: gravity
      calibration (with or without -f) needs no hover target; flight needs one
      in range; test case 1 needs one in range, chosen explicitly, and neither
      -f nor -g. */
  predicate Runnable(o: Options) {
    var hoverOk := 0 <= o.hoverTarget <= HoverMax;
    || (o.testCase == 0 && o.calibrate)
    || (o.testCase == 0 && o.fly && hoverOk)
    || (o.testCase == 1 && !o.fly && !o.calibrate && !o.hoverDefaulted && hoverOk)
  }

  /** The program carries on exactly for the runnable combinations. */
  lemma AcceptsExactlyRunnable(o: Options)
    ensures Decide(o).Accept? <==> Runnable(o)
  {
  }

  /** Gravity calibration alone forces the low pass filter to setting 6; every
      other accepted run keeps the filter setting it was given, including
      -g together with -f, which takes the flight branch. */
  lemma AcceptedDlpf(o: Options)
    requires Decide(o).Accept?
    ensures o.calibrate && !o.fly ==> Decide(o).dlpf == CalibrationDlpf
    ensures !(o.calibrate && !o.fly) ==> Decide(o).dlpf == o.dlpf
  {
  }

  /** The branch complaining that neither -f nor -g was given, although no
      test case was either, can never be taken: the first branch already
      catches that case. */
  lemma NeedFlyOrCalibrateUnreachable(o: Options)
    ensures Decide(o) != Exit(NeedFlyOrCalibrate)
  {
  }

  /** Every refusal names the first requirement the options break. */
  lemma ExitReasons(o: Options)
    requires Decide(o).Exit?
    ensures Decide(o).reason == NoMode <==> !o.calibrate && !o.fly && o.testCase == 0
    ensures Decide(o).reason == TestCaseWithMode ==> o.testCase != 0 && (o.fly || o.calibrate)
    ensures Decide(o).reason == UnknownTestCase ==> o.testCase != 0 && o.testCase != 1
    ensures Decide(o).reason == HoverNotChosen ==> o.testCase == 1 && o.hoverDefaulted
    ensures Decide(o).reason == HoverOutOfRange ==> !o.calibrate && !(0 <= o.hoverTarget <= HoverMax)
  {
  }
}
