/** Frame changes between the earth frame and the quadcopter frame, and from
    body gyro rates to Euler angle rates. Every sine, cosine and tangent is a
    real parameter: an angle enters as its `Trig` pair, which the caller
    promises lies on the unit circle wherever a proof needs it. */
module Frames {

  /** The sine and cosine of one angle. */
  datatype Trig = Trig(s: real, c: real)

  predicate Unit(t: Trig) {
    t.s * t.s + t.c * t.c == 1.0
  }

  /** The sine and cosine of angle zero. */
  const Zero: Trig := Trig(0.0, 1.0)

  datatype Vec3 = Vec3(x: real, y: real, z: real)

  // ---------------------------------------------------------------------------
  // The two frame changes, with the coefficients exactly as written
  // ---------------------------------------------------------------------------

  /** `E2QFrame`: an earth-frame vector in quadcopter-frame coordinates. */
  function E2QFrame(e: Vec3, pa: Trig, ra: Trig, ya: Trig): Vec3 {
    Vec3(e.x * pa.c * ya.c + e.y * pa.c * ya.s - e.z * pa.s,
         e.x * (ra.s * pa.s * ya.c - ra.c * ya.s) + e.y * (ra.s * pa.s * ya.s + ra.c * ya.c) + e.z * ra.s * pa.c,
         e.x * (ra.c * pa.s * ya.c + ra.s * ya.s) + e.y * (ra.c * pa.s * ya.s - ra.s * ya.c) + e.z * pa.c * ra.c)
  }

  /** `Q2EFrame`: a quadcopter-frame vector in earth-frame coordinates. */
  function Q2EFrame(q: Vec3, pa: Trig, ra: Trig, ya: Trig): Vec3 {
    Vec3(q.x * pa.c * ya.c + q.y * (ra.s * pa.s * ya.c - ra.c * ya.s) + q.z * (ra.c * pa.s * ya.c + ra.s * ya.s),
         q.x * pa.c * ya.s + q.y * (ra.s * pa.s * ya.s + ra.c * ya.c) + q.z * (ra.c * pa.s * ya.s - ra.s * ya.c),
         -q.x * pa.s + q.y * ra.s * pa.c + q.z * pa.c * ra.c)
  }

  // ---------------------------------------------------------------------------
  // Coefficient matrices
  // ---------------------------------------------------------------------------

  /** A 3x3 matrix by rows. */
  datatype Mat3 = Mat3(r0: Vec3, r1: Vec3, r2: Vec3)

  function Dot(a: Vec3, b: Vec3): real {
    a.x * b.x + a.y * b.y + a.z * b.z
  }

  function Apply(m: Mat3, v: Vec3): Vec3 {
    Vec3(Dot(m.r0, v), Dot(m.r1, v), Dot(m.r2, v))
  }

  function Transpose(m: Mat3): (t: Mat3)
    ensures t.r0.y == m.r1.x && t.r1.x == m.r0.y
    ensures t.r0.z == m.r2.x && t.r2.x == m.r0.z
    ensures t.r1.z == m.r2.y && t.r2.y == m.r1.z
    ensures t.r0.x == m.r0.x && t.r1.y == m.r1.y && t.r2.z == m.r2.z
  {
    Mat3(Vec3(m.r0.x, m.r1.x, m.r2.x),
         Vec3(m.r0.y, m.r1.y, m.r2.y),
         Vec3(m.r0.z, m.r1.z, m.r2.z))
  }

  /** The earth-to-quadcopter matrix drawn in the comment above `E2QFrame`. */
  function E2QMatrix(pa: Trig, ra: Trig, ya: Trig): Mat3 {
    Mat3(Vec3(pa.c * ya.c, pa.c * ya.s, -pa.s),
         Vec3(ra.s * pa.s * ya.c - ra.c * ya.s, ra.s * pa.s * ya.s + ra.c * ya.c, ra.s * pa.c),
         Vec3(ra.c * pa.s * ya.c + ra.s * ya.s, ra.c * pa.s * ya.s - ra.s * ya.c, pa.c * ra.c))
  }

  /** `E2QFrame` multiplies by the drawn matrix. */
  lemma E2QIsMatrixProduct(v: Vec3, pa: Trig, ra: Trig, ya: Trig)
    ensures E2QFrame(v, pa, ra, ya) == Apply(E2QMatrix(pa, ra, ya), v)
  {
    var m := E2QMatrix(pa, ra, ya);
    var e := E2QFrame(v, pa, ra, ya);
    assert e.x == Dot(m.r0, v);
    assert e.y == Dot(m.r1, v);
    assert e.z == Dot(m.r2, v);
  }

  /** `Q2EFrame` multiplies by the transpose of the same matrix. */
  lemma Q2EIsTransposeProduct(v: Vec3, pa: Trig, ra: Trig, ya: Trig)
    ensures Q2EFrame(v, pa, ra, ya) == Apply(Transpose(E2QMatrix(pa, ra, ya)), v)
  {
    var t := Transpose(E2QMatrix(pa, ra, ya));
    var q := Q2EFrame(v, pa, ra, ya);
    assert q.x == Dot(t.r0, v);
    assert q.y == Dot(t.r1, v);
    assert q.z == Dot(t.r2, v);
  }

  // ---------------------------------------------------------------------------
  // The elementary rotations the matrix is built from
  // ---------------------------------------------------------------------------

  /** Yaw: rotate about z. */
  function RotZ(t: Trig, v: Vec3): Vec3 {
    Vec3(t.c * v.x + t.s * v.y, t.c * v.y - t.s * v.x, v.z)
  }

  function RotZBack(t: Trig, v: Vec3): Vec3 {
    Vec3(t.c * v.x - t.s * v.y, t.c * v.y + t.s * v.x, v.z)
  }

  /** Pitch: rotate about y. */
  function RotY(t: Trig, v: Vec3): Vec3 {
    Vec3(t.c * v.x - t.s * v.z, v.y, t.s * v.x + t.c * v.z)
  }

  function RotYBack(t: Trig, v: Vec3): Vec3 {
    Vec3(t.c * v.x + t.s * v.z, v.y, t.c * v.z - t.s * v.x)
  }

  /** Roll: rotate about x. */
  function RotX(t: Trig, v: Vec3): Vec3 {
    Vec3(v.x, t.c * v.y + t.s * v.z, t.c * v.z - t.s * v.y)
  }

  function RotXBack(t: Trig, v: Vec3): Vec3 {
    Vec3(v.x, t.c * v.y - t.s * v.z, t.c * v.z + t.s * v.y)
  }

  /** `c*(c*a + s*b) - s*(c*b - s*a) == a` on the unit circle: the algebra
      shared by every elementary round trip. */
  lemma UnitTurnBack(t: Trig, a: real, b: real)
    requires Unit(t)
    ensures t.c * (t.c * a + t.s * b) - t.s * (t.c * b - t.s * a) == a
    ensures t.c * (t.c * b - t.s * a) + t.s * (t.c * a + t.s * b) == b
    ensures t.c * (t.c * a - t.s * b) + t.s * (t.c * b + t.s * a) == a
    ensures t.c * (t.c * b + t.s * a) - t.s * (t.c * a - t.s * b) == b
  {
    assert t.c * (t.c * a + t.s * b) - t.s * (t.c * b - t.s * a) == (t.c * t.c + t.s * t.s) * a;
    assert t.c * (t.c * b - t.s * a) + t.s * (t.c * a + t.s * b) == (t.c * t.c + t.s * t.s) * b;
    assert t.c * (t.c * a - t.s * b) + t.s * (t.c * b + t.s * a) == (t.c * t.c + t.s * t.s) * a;
    assert t.c * (t.c * b + t.s * a) - t.s * (t.c * a - t.s * b) == (t.c * t.c + t.s * t.s) * b;
  }

  /** Each elementary rotation is undone by its `Back` partner, in either
      order. */
  lemma RotZRoundTrips(t: Trig, v: Vec3)
    requires Unit(t)
    ensures RotZBack(t, RotZ(t, v)) == v && RotZ(t, RotZBack(t, v)) == v
  {
    UnitTurnBack(t, v.x, v.y);
  }

  lemma RotYRoundTrips(t: Trig, v: Vec3)
    requires Unit(t)
    ensures RotYBack(t, RotY(t, v)) == v && RotY(t, RotYBack(t, v)) == v
  {
    UnitTurnBack(t, v.x, v.z);
  }

  lemma RotXRoundTrips(t: Trig, v: Vec3)
    requires Unit(t)
    ensures RotXBack(t, RotX(t, v)) == v && RotX(t, RotXBack(t, v)) == v
  {
    UnitTurnBack(t, v.y, v.z);
  }

  /** Earth to quadcopter is yaw, then pitch, then roll. */
  lemma E2QIsComposition(v: Vec3, pa: Trig, ra: Trig, ya: Trig)
    ensures E2QFrame(v, pa, ra, ya) == RotX(ra, RotY(pa, RotZ(ya, v)))
  {
  }

  /** Quadcopter to earth undoes roll, then pitch, then yaw. */
  lemma Q2EIsComposition(v: Vec3, pa: Trig, ra: Trig, ya: Trig)
    ensures Q2EFrame(v, pa, ra, ya) == RotZBack(ya, RotYBack(pa, RotXBack(ra, v)))
  {
  }

  /** `Q2EFrame` undoes `E2QFrame` and the other way round, for any angles. */
  lemma {:induction false} FrameRoundTrips(v: Vec3, pa: Trig, ra: Trig, ya: Trig)
    requires Unit(pa) && Unit(ra) && Unit(ya)
    ensures Q2EFrame(E2QFrame(v, pa, ra, ya), pa, ra, ya) == v
    ensures E2QFrame(Q2EFrame(v, pa, ra, ya), pa, ra, ya) == v
  {
    var z := RotZ(ya, v);
    var y := RotY(pa, z);
    E2QIsComposition(v, pa, ra, ya);
    Q2EIsComposition(RotX(ra, y), pa, ra, ya);
    RotXRoundTrips(ra, y);
    RotYRoundTrips(pa, z);
    RotZRoundTrips(ya, v);

    var x' := RotXBack(ra, v);
    var y' := RotYBack(pa, x');
    Q2EIsComposition(v, pa, ra, ya);
    E2QIsComposition(RotZBack(ya, y'), pa, ra, ya);
    RotZRoundTrips(ya, y');
    RotYRoundTrips(pa, x');
    RotXRoundTrips(ra, v);
  }

  /** A level, north-facing frame changes nothing. */
  lemma FramesAtZeroAngles(v: Vec3)
    ensures E2QFrame(v, Zero, Zero, Zero) == v
    ensures Q2EFrame(v, Zero, Zero, Zero) == v
  {
  }

  // ---------------------------------------------------------------------------
  // Body rates to Euler rates
  // ---------------------------------------------------------------------------

  /** The Euler angle rates, in the order `Body2EulerRates` returns them. */
  datatype EulerRates = EulerRates(epr: real, err: real, eyr: real)

  /** `Body2EulerRates`: takes the y gyro rate first and the x rate second, and
      returns pitch rate, roll rate, yaw rate. The tangent of pitch is its sine
      over its cosine, so a vertical pitch (cosine zero) is outside the domain,
      where Python would divide by zero. */
  function Body2EulerRates(qgy: real, qgx: real, qgz: real, pa: Trig, ra: Trig): EulerRates
    requires pa.c != 0.0
  {
    var tpa := pa.s / pa.c;
    EulerRates(qgy * ra.c - qgz * ra.s,
               qgx + qgy * ra.s * tpa + qgz * ra.c * tpa,
               qgy * ra.s / pa.c + qgz * ra.c / pa.c)
  }

  /** Body rates in the order x, y, z. */
  function EulerToBodyRates(r: EulerRates, pa: Trig, ra: Trig): Vec3 {
    Vec3(r.err - pa.s * r.eyr,
         ra.c * r.epr + ra.s * (pa.c * r.eyr),
         ra.c * (pa.c * r.eyr) - ra.s * r.epr)
  }

  /** The pieces of `Body2EulerRates` after the tangent is written out: the yaw
      rate is `k / c` and the roll rate `qgx + s * k / c` for one `k`. */
  lemma EulerRatesByK(qgy: real, qgx: real, qgz: real, pa: Trig, ra: Trig)
    requires pa.c != 0.0
    ensures var k := qgy * ra.s + qgz * ra.c;
      && Body2EulerRates(qgy, qgx, qgz, pa, ra).eyr == k / pa.c
      && Body2EulerRates(qgy, qgx, qgz, pa, ra).err == qgx + pa.s * (k / pa.c)
  {
    var k := qgy * ra.s + qgz * ra.c;
    var tpa := pa.s / pa.c;
    assert qgy * ra.s * tpa + qgz * ra.c * tpa == k * tpa;
    assert k * tpa == pa.s * (k / pa.c);
    assert qgy * ra.s / pa.c + qgz * ra.c / pa.c == k / pa.c;
  }

  lemma MulDiv(c: real, k: real)
    requires c != 0.0
    ensures c * (k / c) == k
    ensures (c * k) / c == k
  {
  }

  /** Rolling `(y, z)` by an angle and back again, in the two groupings the
      rate conversions use. */
  lemma RollBack(t: Trig, y: real, z: real)
    requires Unit(t)
    ensures t.c * (y * t.c - z * t.s) + t.s * (y * t.s + z * t.c) == y
    ensures t.c * (y * t.s + z * t.c) - t.s * (y * t.c - z * t.s) == z
    ensures (t.c * y + t.s * z) * t.c - (t.c * z - t.s * y) * t.s == y
    ensures (t.c * y + t.s * z) * t.s + (t.c * z - t.s * y) * t.c == z
  {
    UnitTurnBack(t, y, z);
    UnitTurnBack(t, y, -z);
    assert (t.c * y + t.s * z) * t.c - (t.c * z - t.s * y) * t.s == (t.c * t.c + t.s * t.s) * y;
    assert (t.c * y + t.s * z) * t.s + (t.c * z - t.s * y) * t.c == (t.c * t.c + t.s * t.s) * z;
  }

  /** Body rates go to Euler rates and back unchanged. */
  lemma {:induction false} BodyRatesRoundTrip(qgy: real, qgx: real, qgz: real, pa: Trig, ra: Trig)
    requires Unit(ra) && pa.c != 0.0
    ensures EulerToBodyRates(Body2EulerRates(qgy, qgx, qgz, pa, ra), pa, ra) == Vec3(qgx, qgy, qgz)
  {
    BackToRollGyro(qgy, qgx, qgz, pa, ra);
    BackToPitchAndYawGyros(qgy, qgx, qgz, pa, ra);
  }

  lemma BackToRollGyro(qgy: real, qgx: real, qgz: real, pa: Trig, ra: Trig)
    requires pa.c != 0.0
    ensures EulerToBodyRates(Body2EulerRates(qgy, qgx, qgz, pa, ra), pa, ra).x == qgx
  {
    EulerRatesByK(qgy, qgx, qgz, pa, ra);
  }

  lemma BackToPitchAndYawGyros(qgy: real, qgx: real, qgz: real, pa: Trig, ra: Trig)
    requires Unit(ra) && pa.c != 0.0
    ensures var b := EulerToBodyRates(Body2EulerRates(qgy, qgx, qgz, pa, ra), pa, ra);
      b.y == qgy && b.z == qgz
  {
    var r := Body2EulerRates(qgy, qgx, qgz, pa, ra);
    var k := qgy * ra.s + qgz * ra.c;
    EulerRatesByK(qgy, qgx, qgz, pa, ra);
    MulDiv(pa.c, k);
    assert pa.c * r.eyr == k;
    RollBack(ra, qgy, qgz);
  }

  /** Euler rates go to body rates and back unchanged. */
  lemma {:induction false} EulerRatesRoundTrip(r: EulerRates, pa: Trig, ra: Trig)
    requires Unit(ra) && pa.c != 0.0
    ensures var b := EulerToBodyRates(r, pa, ra);
      Body2EulerRates(b.y, b.x, b.z, pa, ra) == r
  {
    var b := EulerToBodyRates(r, pa, ra);
    BackToPitchRate(r, pa, ra);
    BackToYawAndRollRates(r, pa, ra);
  }

  /** The pitch rate, and the combination `k` the other two rates share,
      come back from the body rates. */
  lemma BackToPitchRate(r: EulerRates, pa: Trig, ra: Trig)
    requires Unit(ra) && pa.c != 0.0
    ensures var b := EulerToBodyRates(r, pa, ra);
      && Body2EulerRates(b.y, b.x, b.z, pa, ra).epr == r.epr
      && b.y * ra.s + b.z * ra.c == pa.c * r.eyr
  {
    RollBack(ra, r.epr, pa.c * r.eyr);
  }

  lemma BackToYawAndRollRates(r: EulerRates, pa: Trig, ra: Trig)
    requires Unit(ra) && pa.c != 0.0
    ensures var b := EulerToBodyRates(r, pa, ra);
      && Body2EulerRates(b.y, b.x, b.z, pa, ra).eyr == r.eyr
      && Body2EulerRates(b.y, b.x, b.z, pa, ra).err == r.err
  {
    var b := EulerToBodyRates(r, pa, ra);
    BackToPitchRate(r, pa, ra);
    EulerRatesByK(b.y, b.x, b.z, pa, ra);
    MulDiv(pa.c, r.eyr);
  }

  /** Level flight: Euler rates are the body rates, reordered. */
  lemma LevelBodyRates(qgy: real, qgx: real, qgz: real)
    ensures Body2EulerRates(qgy, qgx, qgz, Zero, Zero) == EulerRates(qgy, qgx, qgz)
  {
  }
}
