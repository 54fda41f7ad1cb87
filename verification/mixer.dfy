/** The motor mixer at the end of every motion period: the rounded vertical,
    pitch, roll and yaw outputs are blended into one spin per motor according
    to where the motor sits on the frame and which way it turns. */
module Mixer {
  import opened Actuators

  /** Location bits; a motor's location is the OR of one end and one side. */
  const Front: bv8 := 0x01
  const Back: bv8 := 0x02
  const Left: bv8 := 0x04
  const Right: bv8 := 0x08

  /** Propeller rotation codes. */
  const Clockwise: int := 1
  const Anticlockwise: int := 2

  datatype Esc = Esc(location: bv8, rotation: int)

  /** The four ESCs in the order they are driven: front left, front right, back
      left, back right. The front-left/back-right diagonal turns anticlockwise,
      the other diagonal clockwise. */
  const Escs: seq<Esc> := [
    Esc(Front | Left, Anticlockwise),
    Esc(Front | Right, Clockwise),
    Esc(Back | Left, Clockwise),
    Esc(Back | Right, Anticlockwise)
  ]

  /** The rounded controller outputs fed to the mixer. */
  datatype Command = Command(vert: int, pr: int, rr: int, yr: int)

  /** The spin of one ESC, built exactly as the loop body does: start from the
      vertical output, subtract roll on the right and add it elsewhere, add
      pitch at the back and subtract it elsewhere, add yaw on clockwise motors
      and subtract it elsewhere. */
  function DeltaSpin(esc: Esc, c: Command): int {
    var afterRoll := if esc.location & Right != 0 then c.vert - c.rr else c.vert + c.rr;
    var afterPitch := if esc.location & Back != 0 then afterRoll + c.pr else afterRoll - c.pr;
    if esc.rotation == Clockwise then afterPitch + c.yr else afterPitch - c.yr
  }

  /** The spin of each motor, read off the frame layout: left motors gain roll,
      back motors gain pitch, clockwise motors gain yaw. */
  lemma {:induction false} SignTable(c: Command)
    ensures DeltaSpin(Escs[0], c) == c.vert + c.rr - c.pr - c.yr
    ensures DeltaSpin(Escs[1], c) == c.vert - c.rr - c.pr + c.yr
    ensures DeltaSpin(Escs[2], c) == c.vert + c.rr + c.pr + c.yr
    ensures DeltaSpin(Escs[3], c) == c.vert - c.rr + c.pr - c.yr
  {
    assert (Front | Left) & Right == 0 && (Front | Left) & Back == 0;
    assert (Front | Right) & Right != 0 && (Front | Right) & Back == 0;
    assert (Back | Left) & Right == 0 && (Back | Left) & Back != 0;
    assert (Back | Right) & Right != 0 && (Back | Right) & Back != 0;
  }

  /** The loop over the ESCs: one pulse width per motor, in ESC order. */
  method Mix(c: Command) returns (pulses: seq<int>)
    ensures |pulses| == 4
    ensures pulses[0] == EscUpdate(c.vert + c.rr - c.pr - c.yr)
    ensures pulses[1] == EscUpdate(c.vert - c.rr - c.pr + c.yr)
    ensures pulses[2] == EscUpdate(c.vert + c.rr + c.pr + c.yr)
    ensures pulses[3] == EscUpdate(c.vert - c.rr + c.pr - c.yr)
    ensures forall j :: 0 <= j < 4 ==> EscMin <= pulses[j] <= EscMax
  {
    SignTable(c);
    pulses := [];
    var i := 0;
    while i < |Escs|
      invariant 0 <= i <= |Escs|
      invariant |pulses| == i
      invariant forall j :: 0 <= j < i ==> pulses[j] == EscUpdate(DeltaSpin(Escs[j], c))
    {
      pulses := pulses + [EscUpdate(DeltaSpin(Escs[i], c))];
      i := i + 1;
    }
  }

  /** The spins of the four motors, in ESC order. */
  function Spins(c: Command): (d: seq<int>)
    ensures |d| == 4
    ensures forall j :: 0 <= j < 4 ==> d[j] == DeltaSpin(Escs[j], c)
  {
    [DeltaSpin(Escs[0], c), DeltaSpin(Escs[1], c), DeltaSpin(Escs[2], c), DeltaSpin(Escs[3], c)]
  }

  /** With no pitch, roll or yaw demand every motor gets the same pulse. */
  lemma {:induction false} LevelCommandSpinsEqually(c: Command)
    requires c.pr == 0 && c.rr == 0 && c.yr == 0
    ensures forall j :: 0 <= j < 4 ==> Spins(c)[j] == c.vert
  {
    SignTable(c);
  }

  /** Recover the four commands from four spins: thrust is the mean, roll is
      left minus right, pitch is back minus front and yaw is clockwise minus
      anticlockwise, each over four motors. */
  function Unmix(d: seq<int>): (c: Command)
    requires |d| == 4
  {
    Command((d[0] + d[1] + d[2] + d[3]) / 4,
            (d[2] + d[3] - d[0] - d[1]) / 4,
            (d[0] + d[2] - d[1] - d[3]) / 4,
            (d[1] + d[2] - d[0] - d[3]) / 4)
  }

  /** The axes are decoupled: the spins determine the command, so a roll demand
      never leaks into pitch, yaw or thrust, and the same holds for each axis. */
  lemma {:induction false} UnmixSpins(c: Command)
    ensures Unmix(Spins(c)) == c
  {
    SignTable(c);
    var d := Spins(c);
    assert d[0] + d[1] + d[2] + d[3] == 4 * c.vert;
    assert d[2] + d[3] - d[0] - d[1] == 4 * c.pr;
    assert d[0] + d[2] - d[1] - d[3] == 4 * c.rr;
    assert d[1] + d[2] - d[0] - d[3] == 4 * c.yr;
  }

  /** When no motor saturates, the pulses written to the ESCs carry the whole
      command: subtracting the minimum width and unmixing gives it back. */
  lemma {:induction false} PulsesDetermineCommand(c: Command, pulses: seq<int>)
    requires |pulses| == 4
    requires forall j :: 0 <= j < 4 ==> pulses[j] == EscUpdate(Spins(c)[j])
    requires forall j :: 0 <= j < 4 ==> 0 <= Spins(c)[j] <= EscMax - EscMin
    ensures Unmix([pulses[0] - EscMin, pulses[1] - EscMin, pulses[2] - EscMin, pulses[3] - EscMin]) == c
  {
    var d := Spins(c);
    assert [pulses[0] - EscMin, pulses[1] - EscMin, pulses[2] - EscMin, pulses[3] - EscMin] == d;
    UnmixSpins(c);
  }
}
