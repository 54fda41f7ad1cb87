/** The MPU-6050 as a calibrated sensor: per-axis correction of raw readings
    into g and rad/s, gyro-bias calibration by averaging stationary samples,
    gravity calibration, and the die-temperature conversion. */
module Sensor {
  import opened Registers

  /** `math.pi` as Python prints it. */
  const Pi: real := 3.141592653589793

  /** +/-250 degrees per second over the 16-bit range, in radians. */
  const ScaleGyro: real := 500.0 * Pi / (65536.0 * 180.0)

  /** +/-2 g over the 16-bit range. */
  const ScaleAccel: real := 4.0 / 65536.0

  /** Number of stationary samples averaged by each calibration. */
  const CalibrationIterations: nat := 50

  /** One value per measured axis: accelerometer x, y, z then gyro x, y, z. */
  datatype Axes = Axes(ax: real, ay: real, az: real, gx: real, gy: real, gz: real)

  function Add(a: Axes, b: Axes): Axes {
    Axes(a.ax + b.ax, a.ay + b.ay, a.az + b.az, a.gx + b.gx, a.gy + b.gy, a.gz + b.gz)
  }

  function Sub(a: Axes, b: Axes): Axes {
    Axes(a.ax - b.ax, a.ay - b.ay, a.az - b.az, a.gx - b.gx, a.gy - b.gy, a.gz - b.gz)
  }

  function Scale(k: real, a: Axes): Axes {
    Axes(k * a.ax, k * a.ay, k * a.az, k * a.gx, k * a.gy, k * a.gz)
  }

  /** The raw readings of a burst read as reals. */
  function AxesOfFrame(f: RawFrame): Axes {
    Axes(f.ax as real, f.ay as real, f.az as real, f.gx as real, f.gy as real, f.gz as real)
  }

  /** Accelerometer offset and gain per axis, and the gyro bias per axis. */
  datatype Profile = Profile(
    axOffset: real, axGain: real,
    ayOffset: real, ayGain: real,
    azOffset: real, azGain: real,
    gxOffset: real, gyOffset: real, gzOffset: real)

  /** The profile `MPU6050.__init__` starts from: no accelerometer correction and
      no gyro bias; the hostname decides whether a vehicle's own accelerometer
      constants replace it. */
  const Uncalibrated: Profile := Profile(0.0, 1.0, 0.0, 1.0, 0.0, 1.0, 0.0, 0.0, 0.0)

  /** Accelerometer constants of the vehicle named phoebe. */
  const PhoebeProfile: Profile :=
    Profile(46.28, 0.99328514, 78.58, 0.991557479, -87.04, 1.00327485, 0.0, 0.0, 0.0)

  /** Accelerometer constants of the vehicle named chloe. */
  const ChloeProfile: Profile :=
    Profile(-75.64, 0.997474655, -335.08, 1.001905479, -1181.88, 0.986795348, 0.0, 0.0, 0.0)

  predicate GainsNonZero(p: Profile) {
    p.axGain != 0.0 && p.ayGain != 0.0 && p.azGain != 0.0
  }

  predicate GainsPositive(p: Profile) {
    p.axGain > 0.0 && p.ayGain > 0.0 && p.azGain > 0.0
  }

  /** One accelerometer axis of `rawCorrection`, in g. */
  function AccelAxis(raw: real, offset: real, gain: real): real {
    (raw + offset) * gain * ScaleAccel
  }

  /** One gyro axis of `rawCorrection`, in radians per second. */
  function GyroAxis(raw: real, bias: real): real {
    (raw - bias) * ScaleGyro
  }

  /** `rawCorrection`: accelerometer `(raw + offset) * gain * scale`, gyro
      `(raw - bias) * scale`. */
  function RawCorrection(p: Profile, raw: Axes): Axes {
    Axes(AccelAxis(raw.ax, p.axOffset, p.axGain),
         AccelAxis(raw.ay, p.ayOffset, p.ayGain),
         AccelAxis(raw.az, p.azOffset, p.azGain),
         GyroAxis(raw.gx, p.gxOffset),
         GyroAxis(raw.gy, p.gyOffset),
         GyroAxis(raw.gz, p.gzOffset))
  }

  /** A gyro axis reads zero exactly at its bias, and its sign follows the
      reading's side of the bias. */
  lemma GyroZeroAtBias(p: Profile, raw: Axes)
    ensures RawCorrection(p, raw).gx == 0.0 <==> raw.gx == p.gxOffset
    ensures RawCorrection(p, raw).gy == 0.0 <==> raw.gy == p.gyOffset
    ensures RawCorrection(p, raw).gz == 0.0 <==> raw.gz == p.gzOffset
    ensures RawCorrection(p, raw).gx > 0.0 <==> raw.gx > p.gxOffset
    ensures RawCorrection(p, raw).gy > 0.0 <==> raw.gy > p.gyOffset
    ensures RawCorrection(p, raw).gz > 0.0 <==> raw.gz > p.gzOffset
  {
  }

  /** The raw reading an accelerometer axis value came from. */
  function AccelAxisInverse(q: real, offset: real, gain: real): real
    requires gain != 0.0
  {
    q / (gain * ScaleAccel) - offset
  }

  /** The raw reading a gyro axis value came from. */
  function GyroAxisInverse(q: real, bias: real): real {
    q / ScaleGyro + bias
  }

  /** The raw readings that a corrected sample came from. */
  function Uncorrect(p: Profile, q: Axes): Axes
    requires GainsNonZero(p)
  {
    Axes(AccelAxisInverse(q.ax, p.axOffset, p.axGain),
         AccelAxisInverse(q.ay, p.ayOffset, p.ayGain),
         AccelAxisInverse(q.az, p.azOffset, p.azGain),
         GyroAxisInverse(q.gx, p.gxOffset),
         GyroAxisInverse(q.gy, p.gyOffset),
         GyroAxisInverse(q.gz, p.gzOffset))
  }

  lemma DivMul(x: real, k: real)
    requires k != 0.0
    ensures (x / k) * k == x && (x * k) / k == x
  {
  }

  lemma AccelAxisRoundTrip(raw: real, q: real, offset: real, gain: real)
    requires gain != 0.0
    ensures AccelAxisInverse(AccelAxis(raw, offset, gain), offset, gain) == raw
    ensures AccelAxis(AccelAxisInverse(q, offset, gain), offset, gain) == q
  {
    var k := gain * ScaleAccel;
    assert (raw + offset) * gain * ScaleAccel == (raw + offset) * k;
    DivMul(raw + offset, k);
    assert (q / k - offset + offset) * gain * ScaleAccel == (q / k) * k;
    DivMul(q, k);
  }

  lemma GyroAxisRoundTrip(raw: real, q: real, bias: real)
    ensures GyroAxisInverse(GyroAxis(raw, bias), bias) == raw
    ensures GyroAxis(GyroAxisInverse(q, bias), bias) == q
  {
    DivMul(raw - bias, ScaleGyro);
    DivMul(q, ScaleGyro);
  }

  /** With non-zero gains the correction is a bijection: no two raw readings
      give the same corrected sample. */
  lemma CorrectionRoundTrip(p: Profile, raw: Axes, q: Axes)
    requires GainsNonZero(p)
    ensures Uncorrect(p, RawCorrection(p, raw)) == raw
    ensures RawCorrection(p, Uncorrect(p, q)) == q
  {
    AccelAxisRoundTrip(raw.ax, q.ax, p.axOffset, p.axGain);
    AccelAxisRoundTrip(raw.ay, q.ay, p.ayOffset, p.ayGain);
    AccelAxisRoundTrip(raw.az, q.az, p.azOffset, p.azGain);
    GyroAxisRoundTrip(raw.gx, q.gx, p.gxOffset);
    GyroAxisRoundTrip(raw.gy, q.gy, p.gyOffset);
    GyroAxisRoundTrip(raw.gz, q.gz, p.gzOffset);
  }

  /** The correction is affine on every axis:
      correct(r1) + correct(r2) - correct(z) == correct(r1 + r2 - z). */
  lemma CorrectionIsAffine(p: Profile, r1: Axes, r2: Axes, z: Axes)
    ensures Sub(Add(RawCorrection(p, r1), RawCorrection(p, r2)), RawCorrection(p, z))
         == RawCorrection(p, Sub(Add(r1, r2), z))
  {
  }

  /** With a positive gain an accelerometer axis reads positive exactly when
      the raw reading lies above minus its offset. */
  lemma AccelAxisSign(raw: real, offset: real, gain: real)
    requires gain > 0.0
    ensures AccelAxis(raw, offset, gain) > 0.0 <==> raw > -offset
  {
    assert (raw + offset) * gain * ScaleAccel == (raw + offset) * (gain * ScaleAccel);
    PositiveProduct(raw + offset, gain * ScaleAccel);
    PositiveProduct(-(raw + offset), gain * ScaleAccel);
  }

  /** With positive gains each accelerometer axis reads positive exactly when
      the raw reading lies above minus its offset. */
  lemma AccelSign(p: Profile, raw: Axes)
    requires GainsPositive(p)
    ensures RawCorrection(p, raw).ax > 0.0 <==> raw.ax > -p.axOffset
    ensures RawCorrection(p, raw).ay > 0.0 <==> raw.ay > -p.ayOffset
    ensures RawCorrection(p, raw).az > 0.0 <==> raw.az > -p.azOffset
  {
    AccelAxisSign(raw.ax, p.axOffset, p.axGain);
    AccelAxisSign(raw.ay, p.ayOffset, p.ayGain);
    AccelAxisSign(raw.az, p.azOffset, p.azGain);
  }


  lemma PositiveProduct(x: real, k: real)
    requires k > 0.0
    ensures x * k > 0.0 <==> x > 0.0
  {
  }

  // ---------------------------------------------------------------------------
  // Averaging calibration samples
  // ---------------------------------------------------------------------------

  /** One quantity of a burst read. */
  datatype Axis = AX | AY | AZ | TEMP | GX | GY | GZ

  function Field(f: RawFrame, a: Axis): int {
    match a
    case AX => f.ax
    case AY => f.ay
    case AZ => f.az
    case TEMP => f.temp
    case GX => f.gx
    case GY => f.gy
    case GZ => f.gz
  }

  /** Sum of one quantity over a run of samples. */
  function Sum(fs: seq<RawFrame>, a: Axis): int {
    if |fs| == 0 then 0 else Sum(fs[..|fs| - 1], a) + Field(fs[|fs| - 1], a)
  }

  /** Mean of one quantity over a non-empty run of samples. */
  function Mean(fs: seq<RawFrame>, a: Axis): real
    requires |fs| > 0
  {
    Sum(fs, a) as real / |fs| as real
  }

  /** The mean raw readings of a run, as the six measured axes. */
  function MeanAxes(fs: seq<RawFrame>): Axes
    requires |fs| > 0
  {
    Axes(Mean(fs, AX), Mean(fs, AY), Mean(fs, AZ), Mean(fs, GX), Mean(fs, GY), Mean(fs, GZ))
  }

  predicate WithinBounds(fs: seq<RawFrame>, a: Axis, lo: int, hi: int) {
    forall i :: 0 <= i < |fs| ==> lo <= Field(fs[i], a) <= hi
  }

  lemma {:induction false} SumBounds(fs: seq<RawFrame>, a: Axis, lo: int, hi: int)
    requires WithinBounds(fs, a, lo, hi)
    ensures lo * |fs| <= Sum(fs, a) <= hi * |fs|
  {
    if |fs| > 0 {
      var init := fs[..|fs| - 1];
      assert WithinBounds(init, a, lo, hi) by {
        forall i | 0 <= i < |init|
          ensures lo <= Field(init[i], a) <= hi
        {
          assert init[i] == fs[i];
        }
      }
      SumBounds(init, a, lo, hi);
      assert lo * |fs| == lo * |init| + lo;
      assert hi * |fs| == hi * |init| + hi;
    }
  }

  /** The mean lies between the smallest and largest reading; in particular a
      constant run averages to that constant. */
  lemma MeanBounds(fs: seq<RawFrame>, a: Axis, lo: int, hi: int)
    requires |fs| > 0
    requires WithinBounds(fs, a, lo, hi)
    ensures lo as real <= Mean(fs, a) <= hi as real
  {
    SumBounds(fs, a, lo, hi);
    MeanOfBoundedSum(Sum(fs, a), |fs|, lo, hi);
  }

  lemma MeanOfBoundedSum(total: int, n: nat, lo: int, hi: int)
    requires n > 0
    requires lo * n <= total <= hi * n
    ensures lo as real <= total as real / n as real <= hi as real
  {
    assert (lo * n) as real == lo as real * n as real;
    assert (hi * n) as real == hi as real * n as real;
    DivBounds(total as real, lo as real, hi as real, n as real);
  }

  lemma NonNegFactor(a: real, n: real)
    requires n > 0.0 && a * n >= 0.0
    ensures a >= 0.0
  {
  }

  lemma DivBounds(s: real, lo: real, hi: real, n: real)
    requires n > 0.0
    requires lo * n <= s <= hi * n
    ensures lo <= s / n <= hi
  {
    var q := s / n;
    assert q * n == s;
    NonNegFactor(q - lo, n);
    NonNegFactor(hi - q, n);
  }

  /** `calibrateGyros`: the gyro bias of each axis becomes the mean of that axis
      over the stationary samples; the accelerometer constants are kept. Once
      calibrated, the mean sample itself corrects to zero rotation. */
  method CalibrateGyros(p: Profile, samples: seq<RawFrame>) returns (p': Profile)
    requires |samples| == CalibrationIterations
    ensures p'.gxOffset == Mean(samples, GX)
    ensures p'.gyOffset == Mean(samples, GY)
    ensures p'.gzOffset == Mean(samples, GZ)
    ensures p'.axOffset == p.axOffset && p'.axGain == p.axGain
    ensures p'.ayOffset == p.ayOffset && p'.ayGain == p.ayGain
    ensures p'.azOffset == p.azOffset && p'.azGain == p.azGain
    ensures var q := RawCorrection(p', MeanAxes(samples)); q.gx == 0.0 && q.gy == 0.0 && q.gz == 0.0
  {
    var gxSum := 0.0;
    var gySum := 0.0;
    var gzSum := 0.0;
    var i := 0;
    while i < CalibrationIterations
      invariant 0 <= i <= CalibrationIterations
      invariant gxSum == Sum(samples[..i], GX) as real
      invariant gySum == Sum(samples[..i], GY) as real
      invariant gzSum == Sum(samples[..i], GZ) as real
    {
      assert samples[..i + 1][..i] == samples[..i];
      gxSum := gxSum + samples[i].gx as real;
      gySum := gySum + samples[i].gy as real;
      gzSum := gzSum + samples[i].gz as real;
      i := i + 1;
    }
    assert samples[..i] == samples;
    var n := CalibrationIterations as real;
    p' := p.(gxOffset := gxSum / n, gyOffset := gySum / n, gzOffset := gzSum / n);
  }

  // ---------------------------------------------------------------------------
  // Gravity calibration and temperature
  // ---------------------------------------------------------------------------

  /** `temp_now / 340 + 36.53`: die temperature in degrees Celsius. */
  function TempCelsius(raw: int): real {
    raw as real / 340.0 + 36.53
  }

  /** The raw code for a temperature in degrees Celsius. */
  function TempRaw(celsius: real): real {
    (celsius - 36.53) * 340.0
  }

  /** The conversion is strictly increasing, and inverting it recovers the raw
      code. */
  lemma TempCelsiusMonotone(r1: int, r2: int)
    ensures r1 < r2 <==> TempCelsius(r1) < TempCelsius(r2)
    ensures TempRaw(TempCelsius(r1)) == r1 as real
  {
  }

  /** What `calibrateGravity` records: the last sample's raw temperature, its
      Celsius value and the mean raw accelerometer readings. */
  datatype GravityRecord = GravityRecord(tempRaw: int, tempC: real, gravityX: real, gravityY: real, gravityZ: real)

  /** `calibrateGravity` without the file append: it first resets the
      accelerometer constants to no correction, then averages the samples. */
  function CalibrateGravity(p: Profile, samples: seq<RawFrame>): (r: (Profile, GravityRecord))
    requires |samples| == CalibrationIterations
    ensures r.0.axGain == 1.0 && r.0.ayGain == 1.0 && r.0.azGain == 1.0
    ensures r.0.axOffset == 0.0 && r.0.ayOffset == 0.0 && r.0.azOffset == 0.0
    ensures r.0.gxOffset == p.gxOffset && r.0.gyOffset == p.gyOffset && r.0.gzOffset == p.gzOffset
    ensures r.1.tempRaw == samples[CalibrationIterations - 1].temp
    ensures TempRaw(r.1.tempC) == r.1.tempRaw as real
    ensures r.1.gravityX == Mean(samples, AX) && r.1.gravityY == Mean(samples, AY)
    ensures r.1.gravityZ == Mean(samples, AZ)
    ensures RawCorrection(r.0, Axes(r.1.gravityX, r.1.gravityY, r.1.gravityZ, 0.0, 0.0, 0.0)).az
         == ScaleAccel * Mean(samples, AZ)
  {
    TempCelsiusMonotone(samples[|samples| - 1].temp, 0);
    var p' := p.(axOffset := 0.0, axGain := 1.0, ayOffset := 0.0, ayGain := 1.0, azOffset := 0.0, azGain := 1.0);
    var t := samples[|samples| - 1].temp;
    (p', GravityRecord(t, TempCelsius(t), Mean(samples, AX), Mean(samples, AY), Mean(samples, AZ)))
  }
}
