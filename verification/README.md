# Quadcopter flight controller — a Dafny model of its arithmetic core

`Quadcopter.py` flies a Raspberry Pi quadcopter. It has three layers:

- **Hardware.** An MPU-6050 inertial sensor on the I2C bus, a heater that keeps the sensor die warm, and four ESCs (electronic speed controllers) driven by PWM pulses.
- **Nested PID loops.** A velocity loop in the earth frame feeds a rate loop in the quadcopter frame.
- **A flight plan.** The plan makes the vehicle ascend, hover, descend and stop.

This project models the deterministic rules under the hardware calls. Each rule is written as a pure function over `int` and `real`, or as a short method with loop invariants. Each comes with the property the code is built to keep.

| file | module | what it models |
|---|---|---|
| `registers.dfy` | `Registers` | `readS8`/`readU16`/`readS16`, the 14-byte burst parse of `readSensorsRaw`, `reverseByteOrder` |
| `sensor.dfy` | `Sensor` | the calibration profile, `rawCorrection`, `calibrateGyros`, `calibrateGravity`, the raw to Celsius temperature conversion |
| `pid.dfy` | `Pid` | `PID.__init__` and `PID.Compute` as a state-in/state-out step, and runs of successive calls |
| `actuators.dfy` | `Actuators` | `ESC.update` and `HEATER.update`: conversion to an integer pulse width, then the clamp |
| `mixer.dfy` | `Mixer` | the motor layout bitmasks and the per-ESC spin loop at the end of each motion period |
| `frames.dfy` | `Frames` | `E2QFrame`, `Q2EFrame` and `Body2EulerRates`, with sine and cosine values as parameters |
| `flight_plan.dfy` | `FlightPlan` | `FlightPlan.__init__` and `getTargets` |
| `cli.dfy` | `Cli` | the accept/reject decision `CheckCLI` takes once the options are parsed |
| `thermal.dfy` | `Thermal` | the too-warm gate, the warm-up exit, the rate-limited temperature messages, the heater loop |
| `motion.dfy` | `Motion` | the arithmetic of one pass of the main loop (see below) |

The `Motion` module covers these steps of one pass:

- integration of the readings between reads;
- averaging and reset once per motion period;
- the motion-period schedule;
- the complementary filter;
- the ramp to hover speed;
- the gravity-compensated velocity estimate;
- the rounding of the PID outputs before mixing.

Trigonometric values are not computed. A `Trig(s, c)` pair stands for the sine and cosine of one angle, and lemmas that need it require `s*s + c*c == 1`. Time is a parameter: each step takes the `now` that the sensor read would have stamped. Python 2 semantics are written out where they matter:

- `/` is true division, because the file imports `division` from `__future__`;
- `int()` on a float truncates toward zero (`Actuators.Truncate`);
- `round` sends halves away from zero (`Motion.PyRound`).

## Model

| member | source | states |
|---|---|---|
| `Registers.ReadS8` | Quadcopter.py:92-102 | a register byte read as a signed byte lies in -128..127 and is congruent to the byte modulo 256 |
| `Registers.ReadS8RoundTrip` | Quadcopter.py:92-102 | signed-byte decoding and encoding are mutually inverse on bytes and on -128..127 |
| `Registers.ReadU16` | Quadcopter.py:104-112 | the unsigned word lies in 0..65535 and its high and low bytes are the two registers read |
| `Registers.ReadS16` | Quadcopter.py:114-124 | the signed word lies in -32768..32767; it is hi*256+lo when hi <= 127 and hi*256+lo-65536 otherwise; it agrees with the unsigned word modulo 65536 |
| `Registers.ReadS16RoundTrip` | Quadcopter.py:114-124 | every 16-bit value survives storage in a high/low register pair, and every byte pair survives decoding and re-encoding |
| `Registers.ParseFrame` | Quadcopter.py:423-432 | the burst parse yields word k from bytes 2k (high, sign-extended) and 2k+1 (low), in the order ax, ay, az, temp, gx, gy, gz, each in 16-bit range |
| `Registers.FrameRoundTrip` | Quadcopter.py:423-432 | any in-range frame laid out in the register map is parsed back unchanged, so no quantity lands in another's slot |
| `Registers.ReverseByteOrder` | Quadcopter.py:53-63 | the loop builds the value whose bytes are the input's significant bytes in reverse order, and the result fits in that many bytes |
| `Registers.ByteCountIsSignificantBytes` | Quadcopter.py:56-57 | the byte count taken from half the length of the hex string is the number of significant bytes of the value (at least one) |
| `Registers.ReverseByteOrderInvolution` | Quadcopter.py:53-63 | reversing twice gives the value back when its lowest byte is non-zero |
| `Registers.ReverseDropsLeadingZero` | Quadcopter.py:53-63 | a zero lowest byte becomes a leading zero and is lost: 0x0100 reverses to 0x01, which reverses to 0x01 |
| `Sensor.GyroZeroAtBias` | Quadcopter.py:442-444 | a corrected gyro axis is zero exactly at its bias and positive exactly above it |
| `Sensor.CorrectionRoundTrip` | Quadcopter.py:436-446 | with non-zero accelerometer gains the correction is invertible: uncorrecting a corrected sample gives the raw one, and the other way round |
| `Sensor.CorrectionIsAffine` | Quadcopter.py:436-446 | the correction is affine on every axis: it preserves sums of the form r1 + r2 - z |
| `Sensor.AccelSign` | Quadcopter.py:438-440 | with positive gains an accelerometer axis reads positive exactly when the raw value lies above minus its offset |
| `Sensor.MeanBounds` | Quadcopter.py:454-463 | the mean of a run of samples lies between any lower and upper bound of its readings |
| `Sensor.CalibrateGyros` | Quadcopter.py:449-463 | each gyro bias becomes the mean of that axis over the 50 samples; the accelerometer constants are unchanged; the mean sample then corrects to zero rotation |
| `Sensor.TempCelsiusMonotone` | Quadcopter.py:489-489 | the raw to Celsius conversion is strictly increasing and its inverse recovers the raw code |
| `Sensor.CalibrateGravity` | Quadcopter.py:467-489 | gravity calibration first resets the accelerometer correction to the identity and keeps the gyro biases; it records the mean of each accelerometer axis over the samples and the last sample's temperature, in raw code and in degrees Celsius; the recorded z mean corrects to the scaled mean of the z samples |
| `Pid.Init` | Quadcopter.py:525-533 | a new controller holds the gains given, no error, no integral, and its clock at now |
| `Pid.Compute` | Quadcopter.py:536-580 | after a call the controller remembers this error and time and keeps its gains |
| `Pid.ComputeTerms` | Quadcopter.py:536-580 | p = Kp*error; the integral grows by (error + last error)*dt; i = Ki*integral; d*dt = Kd*(error - last error) |
| `Pid.RunStep` | Quadcopter.py:536-580 | in a run whose call times advance every call is well defined, and the run continues from the state the first call leaves |
| `Pid.IntegralIsTrapezoidSum` | Quadcopter.py:554-555 | after any run the integral equals its start plus an independent sum of unhalved trapezoids over the run's errors and times |
| `Pid.ConstantErrorIntegralGrows` | Quadcopter.py:554-555 | with the error held at e > 0 (after a non-negative error) the integral gains at least e per second and strictly grows over any non-empty run; symmetrically for e < 0 |
| `Pid.HeldAtSetpoint` | Quadcopter.py:536-580 | at the setpoint after a zero error, P and D are zero and the integral does not move |
| `Actuators.Clamp` | Quadcopter.py:622-625 | the result lies in the range, equals the value when it is already inside, and equals the violated bound otherwise |
| `Actuators.ClampMonotone` | Quadcopter.py:622-625 | clamping preserves order |
| `Actuators.ClampIdempotent` | Quadcopter.py:622-625 | clamping twice is clamping once |
| `Actuators.Truncate` | Quadcopter.py:661-661 | `int()` on a float keeps the integer part: within one below a non-negative value and within one above a negative one |
| `Actuators.TruncateTowardZero` | Quadcopter.py:661-661 | truncation keeps the sign and is odd: int(-x) == -int(x) |
| `Actuators.EscUpdate` | Quadcopter.py:619-625 | the ESC pulse always lies in [1000, 2000], is 1000 + spin when that is in range, and saturates at the bound crossed |
| `Actuators.EscMonotone` | Quadcopter.py:619-625 | more spin never gives a shorter pulse |
| `Actuators.HeaterUpdate` | Quadcopter.py:660-666 | the heater pulse always lies in [0, 2999], is the integer part of the demand inside that range, and is 0 for a demand below one |
| `Actuators.HeaterMonotone` | Quadcopter.py:660-666 | more heat demanded never gives a shorter heater pulse |
| `Actuators.ShutdownOutputs` | Quadcopter.py:1128-1134 | the shutdown calls update(0): motors idle at 1000 and the heater is off at 0 |
| `Mixer.SignTable` | Quadcopter.py:1375-1385 | by the location bits and rotations: front left gets +roll -pitch -yaw, front right -roll -pitch +yaw, back left +roll +pitch +yaw, back right -roll +pitch -yaw |
| `Mixer.Mix` | Quadcopter.py:1916-1957 | one pulse per ESC in driving order, each the ESC update of that motor's signed combination of the four outputs, each in [1000, 2000] |
| `Mixer.LevelCommandSpinsEqually` | Quadcopter.py:1916-1957 | with no pitch, roll or yaw output every motor gets the vertical output |
| `Mixer.UnmixSpins` | Quadcopter.py:1916-1957 | the four spins determine the command (an explicit inverse recovers it), so the axes are decoupled |
| `Mixer.PulsesDetermineCommand` | Quadcopter.py:1916-1957 | when no motor saturates, the command can be recovered from the pulses written to the ESCs |
| `Frames.E2QIsMatrixProduct` | Quadcopter.py:724-745 | `E2QFrame` multiplies by the rotation matrix drawn in its comment |
| `Frames.Q2EIsTransposeProduct` | Quadcopter.py:755-842 | `Q2EFrame` multiplies by the transpose of that matrix |
| `Frames.E2QIsComposition` | Quadcopter.py:743-745 | earth to quadcopter is yaw about z, then pitch about y, then roll about x |
| `Frames.Q2EIsComposition` | Quadcopter.py:838-840 | quadcopter to earth undoes roll, then pitch, then yaw |
| `Frames.FrameRoundTrips` | Quadcopter.py:757-829 | on the unit circle each transform undoes the other, for any attitude |
| `Frames.FramesAtZeroAngles` | Quadcopter.py:724-842 | at zero pitch, roll and yaw both transforms are the identity |
| `Frames.BodyRatesRoundTrip` | Quadcopter.py:695-715 | with pitch cosine non-zero, body rates taken to Euler rates and back through the body-rate equations come back unchanged |
| `Frames.EulerRatesRoundTrip` | Quadcopter.py:695-715 | Euler rates taken to body rates and back through `Body2EulerRates` come back unchanged |
| `Frames.LevelBodyRates` | Quadcopter.py:711-715 | when level, the Euler rates are the y, x and z body rates in the swapped order the function returns |
| `FlightPlan.Start` | Quadcopter.py:1203-1207 | a new plan starts at now with step 0 reported |
| `FlightPlan.GetTargets` | Quadcopter.py:1210-1231 | the step chosen is the unique one active at the elapsed time and its velocity target is returned; past the last step the plan asks to stop and returns the STOP target; the chosen step is recorded |
| `FlightPlan.ActiveStepUnique` | Quadcopter.py:1215-1219 | at most one step is active at any time |
| `FlightPlan.ActiveStepMonotone` | Quadcopter.py:1215-1219 | the active step never goes back as time runs on |
| `FlightPlan.FinishedIsFinal` | Quadcopter.py:1216-1221 | a finished plan stays finished, and no step is active once it is |
| `FlightPlan.StandardSchedule` | Quadcopter.py:1196-1201 | elapsed in [0,2) climbs at 0.5 m/s, [2,7) hovers, [7,9) descends at 0.5 m/s, from 9 on the plan stops at zero velocity |
| `Cli.AcceptsExactlyRunnable` | Quadcopter.py:1075-1108 | the program carries on exactly for gravity calibration, for flight with a hover target in [0,1000], and for test case 1 alone with an explicit in-range hover target |
| `Cli.AcceptedDlpf` | Quadcopter.py:1084-1089 | gravity calibration without -f forces filter setting 6; every other accepted run keeps the setting given |
| `Cli.NeedFlyOrCalibrateUnreachable` | Quadcopter.py:1091-1093 | the "specify -f or -g" branch can never be reached |
| `Cli.ExitReasons` | Quadcopter.py:1075-1108 | each refusal names the requirement broken: no mode, hover out of range, test case with -f/-g, unknown test case, hover not chosen |
| `Thermal.TooWarmIsOneSided` | Quadcopter.py:1443-1445 | flight is refused exactly above raw 1520, one degree over the target; a die at or below the target is never refused |
| `Thermal.SettledIsATenthOfADegree` | Quadcopter.py:1463-1464 | warm-up ends exactly for raw 1147..1213, within a tenth of a degree of a target just above 40 degrees Celsius |
| `Thermal.SettledIsNotTooWarm` | Quadcopter.py:1443-1464 | a settled die is never too warm to fly |
| `Thermal.LogTick` | Quadcopter.py:1842-1844 | a message is due exactly when more than a second has passed since the mark, which then moves on by one second and stays behind now |
| `Thermal.ExcursionCheck` | Quadcopter.py:1841-1844 | a message can only be issued while the die is more than a degree from the target, and inside that band nothing changes |
| `Thermal.LogRunRateLimited` | Quadcopter.py:1841-1844 | over any run of checks the mark advances one second per message and never passes the latest check, so messages never outnumber elapsed seconds |
| `Thermal.TempPid` | Quadcopter.py:1432-1436 | the temperature PID starts with gains 0.75, 0.01, 0.001 and an empty history |
| `Thermal.HeaterStep` | Quadcopter.py:1846-1849 | each heater update sends a pulse in [0, 2999] and the PID remembers the error against target 1180 |
| `Thermal.HeaterOffWhenWarm` | Quadcopter.py:1846-1849 | with non-negative gains, a die at or above the target, an error that is not rising and an integral left at or below zero, the heater pulse is 0 |
| `Thermal.WarmStartHeaterOff` | Quadcopter.py:1432-1455 | with the program's temperature PID (gains 0.75, 0.01, 0.001), the first heater update on a die already at or above the target leaves the heater off |
| `Motion.Tick` | Quadcopter.py:1726-1727 | the time since the previous read is now minus the last read's time, and the clock then stands at now |
| `Motion.ConstantIntegral` | Quadcopter.py:1738-1747 | the time steps telescope: a reading held at v adds v times the span from the previous read to the last one, however the reads are spaced |
| `Motion.AverageAndReset` | Quadcopter.py:1758-1779 | the average times the integration period is the accumulated total; the accumulator restarts at zero from now |
| `Motion.ConstantReadingAverage` | Quadcopter.py:1738-1769 | a reading held constant over a motion period averages to itself |
| `Motion.Schedule` | Quadcopter.py:1752-1753 | an update is due exactly when a full period has passed since the mark; the mark then moves by exactly one period and stays behind now |
| `Motion.GridPointClosedForm` | Quadcopter.py:1752-1753 | n period steps from a mark reach mark + n*period |
| `Motion.ScheduleOnGrid` | Quadcopter.py:1752-1753 | over any run of reads the mark stays on the grid start + count*period and never passes the latest read, so late updates do not shift later ones |
| `Motion.TauFraction` | Quadcopter.py:1795-1795 | the filter weight lies strictly between 0 and 1 for positive tau and period |
| `Motion.BlendContracts` | Quadcopter.py:1796-1797 | the new angle's offset from the measured angle is the weight times the gyro estimate's offset |
| `Motion.BlendBetween` | Quadcopter.py:1795-1797 | the new pitch or roll lies strictly between the gyro estimate and the gravity angle, and equals the gravity angle when they agree |
| `Motion.AttitudeUpdate` | Quadcopter.py:1795-1799 | yaw moves by exactly the z gyro rate times the period |
| `Motion.EulerYawRateUnused` | Quadcopter.py:1790-1799 | the Euler yaw rate does not affect the attitude update at all |
| `Motion.LevelYawRatesAgree` | Quadcopter.py:1790-1790 | when level, the unused Euler yaw rate equals the z gyro rate that the yaw update integrates |
| `Motion.RampStep` | Quadcopter.py:1804-1818 | once the speed reaches the target it is set to exactly the target and the flight plan starts (only then); before that it grows by the increment; afterwards nothing changes |
| `Motion.RampReachesHover` | Quadcopter.py:1804-1815 | with a positive increment the ramp is ready at exactly the hover target after a bounded number of periods, and stays so |
| `Motion.ReadyStaysPut` | Quadcopter.py:1804-1818 | a ready ramp never changes again |
| `Motion.RampBounded` | Quadcopter.py:1804-1815 | the speed never reaches the target plus one increment, and a ready ramp sits at exactly the target |
| `Motion.RampStalls` | Quadcopter.py:1815-1815 | with a zero increment a ramp below its target never moves, so the flight plan never starts |
| `Motion.IncrementZeroBelowPeriods` | Quadcopter.py:1815-1815 | the truncated increment is zero exactly when the hover target is below the motion frequency times the ready-to-fly period |
| `Motion.VelocityStep` | Quadcopter.py:1834-1836 | measured acceleration equal to gravity leaves the velocity alone; for a positive period, z velocity rises exactly when the z acceleration exceeds gravity's z component |
| `Motion.TakeoffGravityCancels` | Quadcopter.py:1828-1836 | gravity turned into the earth frame at take-off (line 1543, zero yaw) and back at the same attitude is the same reading, so the velocity estimate does not change |
| `Motion.PyRound` | Quadcopter.py:1884-1884 | rounding lands within a half of the value, with halves going away from zero |
| `Motion.PyRoundSymmetric` | Quadcopter.py:1907-1909 | rounding is symmetric about zero and fixes whole numbers |
| `Motion.PyRoundHalves` | Quadcopter.py:1907-1909 | 0.5 rounds to 1, -0.5 to -1, 2.5 to 3, -2.5 to -3 |
| `Motion.RateOutput` | Quadcopter.py:1907-1909 | a rate output after halving and rounding is within a half of half the PID output |
| `Motion.DriftCorrectionTargets` | Quadcopter.py:1866-1879 | a forward drift (negative x velocity output) gives a negative pitch rate target and a leftward drift (negative y output) a positive roll rate target, and only then; with no rotation and positive gains, the rate PIDs' proportional terms have those signs |
| `Motion.MixerCommand` | Quadcopter.py:1884-1909 | the vertical command is within a half of hover speed plus the z velocity output |
| `Motion.SmallRatesSpinEqually` | Quadcopter.py:1907-1957 | rate outputs under one in size round to zero, so all four motors spin alike |
| `Motion.RateOutputsTiltTheFrame` | Quadcopter.py:1907-1942 | the left pair outspins the right pair by four times the roll output and the back pair the front pair by four times the pitch output; a rate output of at least one in size keeps its sign through halving and rounding |

## Left out

- The I2C transactions and their retry-forever loops, the register programming in `MPU6050.__init__`, the interrupt wait and the timestamps. They are bus and clock I/O. The decoders take the bytes read and the step functions take the time.
- The RPIO/PWM channel writes, `RpioSetup`/`RpioCleanup` and `mlockall`. These are hardware and foreign calls. The model stops at the pulse width.
- `CleanShutdown` beyond its `update(0)` calls, `SignalHandler` and the asynchronous `keep_looping` abort, the video subprocess, logging and diagnostic strings. These are process control and I/O.
- The CSV append in `calibrateGravity` and the hostname lookup that picks the vehicle profile. These are file and system I/O. The per-vehicle constants are kept as data.
- `getopt` parsing itself (a library). Only the decision taken on its results is modelled.
- `GetEulerAngles` and every evaluation of sin, cos, tan, atan2 and pow. These are transcendental floating-point functions. Trigonometric values are parameters constrained to the unit circle.
- Floating-point rounding error in general. Real arithmetic is exact.
- `FlightPlan.fp_index`: the field is set once and never read or updated, so it carries no state.
- Registers.ReverseByteOrder: takes a natural number. For a negative input `hex` prints a minus sign and the code's byte count is no longer the number of bytes.
- Pid.Run: models the state half of each call; the outputs of a run are given per call by `Pid.ComputeTerms`.
- Pid.Compute: requires the call time to differ from the previous one. With zero elapsed time the code divides by zero and Python raises ZeroDivisionError; that crash is not modelled.
- Thermal.HeaterStep: inherits the same requirement from `Pid.Compute`. The crash on a repeated time stamp is not modelled.
- Motion.AverageAndReset: requires a non-empty integration period. The code divides the accumulators by the period, and a zero period raises ZeroDivisionError; that crash is not modelled.
- Frames.Body2EulerRates: requires a non-zero pitch cosine. The code divides by it, and a vertical pitch is outside what the model describes.
- Motion.TauFraction: requires a positive tau and a positive integration period. The code accepts any tau from the command line and only fails when tau plus the period is zero.
- Motion.IncrementZeroBelowPeriods: assumes `motion_period * motion_frequency == 1` exactly. The code computes `1 / motion_frequency` in floating point.

## Notes on the code as written

- **Y gyro is not negated.** The mixer comment (Quadcopter.py:1933-1934) says the y gyro is negated when the sensors are read. The parse (Quadcopter.py:423-434) does not negate it, and `Registers.ParseFrame` follows the parse.
- **Unused Euler yaw rate.** `Body2EulerRates` computes `eyr`, but the yaw estimate integrates the raw `qgz` (Quadcopter.py:1799). `Motion.EulerYawRateUnused` states that `eyr` has no effect.
- **Swapped argument and return order.** `Body2EulerRates` takes the y rate before the x rate and returns pitch, roll, yaw rates. The model keeps that order.
- **Pitch is added at the back.** The mixer comment (Quadcopter.py:1935-1938) says a positive pitch output is added to the front motors and subtracted from the back. The code adds it at the back (Quadcopter.py:1939-1942), and `Mixer.SignTable` follows the code.
- **`-f` with `-g` keeps the filter setting.** Because of branch order, `-f` together with `-g` takes the flight branch, and the filter setting is not forced to 6 (`Cli.AcceptedDlpf`).
- **The ramp can stall.** When `int(hover_target * motion_period / rtf_period)` is zero, for example a hover target below 43 at the default 43 Hz and one second, the ramp never reaches hover and the flight plan never starts (`Motion.RampStalls`, `Motion.IncrementZeroBelowPeriods`).
- **The integral is not halved.** The PID integral adds `(error + last_error) * dt` without the halving of the trapezoid rule (`Pid.IntegralIsTrapezoidSum`).
