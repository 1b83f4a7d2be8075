/**
 * `Rocket.sense()` (rockets.py): the four noisy sensors, and the scaling of
 * their readings into the controller's feature space.  The Gaussian noise is
 * a parameter; log and sqrt come from an `Elementary` record.
 */
module Sensors {
  import opened RealMath
  import opened Dynamics

  const SCALER_ALTITUDE_SENSOR: real := 500.0
  const SCALER_SPEED_SENSOR: real := 225.0
  const SCALER_ANGULAR_POSITION_SENSOR: real := 2.0 * PI
  const SCALER_ANGULAR_VELOCITY_SENSOR: real := 3.0 * PI

  /** The divisor of the angle wrap-around, 2*pi. */
  const TWO_PI: real := 2.0 * PI

  /** One sample of each sensor's additive Gaussian noise. */
  datatype Noise = Noise(altitude: real, speed: real, angularPosition: real, angularVelocity: real)

  /** The scaled readings, in the order `sense()` returns them. */
  datatype Readings = Readings(altitude: real, speed: real, angularPosition: real, angularVelocity: real)

  /** `sqrt(vx**2 + vy**2)`. */
  function TrueSpeed(mo: Motion, m: Elementary): real {
    m.sqrt(Square(mo.velocityX) + Square(mo.velocityY))
  }

  /** Readings above 1 are compressed to 1 + log(x); readings up to 1 pass unchanged. */
  function Compress(x: real, m: Elementary): real {
    if x > 1.0 then 1.0 + m.log(x) else x
  }

  /** Up to the scaler (500 m) the altitude reading is linear. */
  function ScaleAltitude(raw: real, m: Elementary): (r: real)
    ensures raw <= SCALER_ALTITUDE_SENSOR ==> r == raw / SCALER_ALTITUDE_SENSOR
  {
    Compress(raw / SCALER_ALTITUDE_SENSOR, m)
  }

  /** Up to the scaler (225 m/s) the speed reading is linear. */
  function ScaleSpeed(raw: real, m: Elementary): (r: real)
    ensures raw <= SCALER_SPEED_SENSOR ==> r == raw / SCALER_SPEED_SENSOR
  {
    Compress(raw / SCALER_SPEED_SENSOR, m)
  }

  /** `((x - pi) % (2*pi)) / (2*pi)`: the angle wrapped into one turn, as a fraction of a turn. */
  function ScaleAngularPosition(raw: real): (r: real)
    ensures 0.0 <= r < 1.0
  {
    FloorMod(raw - PI, TWO_PI) / SCALER_ANGULAR_POSITION_SENSOR
  }

  /** `(x + 3*pi) / (2 * 3*pi)`: [-3pi, 3pi] mapped linearly onto [0, 1]. */
  function ScaleAngularVelocity(raw: real): real {
    (raw + SCALER_ANGULAR_VELOCITY_SENSOR) / (2.0 * SCALER_ANGULAR_VELOCITY_SENSOR)
  }

  /** `sense()`: each sensor's true value plus its noise sample, scaled. */
  function Sense(mo: Motion, noise: Noise, m: Elementary): (r: Readings)
    ensures 0.0 <= r.angularPosition < 1.0
  {
    Readings(
      ScaleAltitude(mo.positionY + noise.altitude, m),
      ScaleSpeed(TrueSpeed(mo, m) + noise.speed, m),
      ScaleAngularPosition(mo.angularPosition + noise.angularPosition),
      ScaleAngularVelocity(mo.angularVelocity + noise.angularVelocity))
  }

  // ---------------------------------------------------------------------------
  // Compression of altitude and speed

  /** Up to 1 nothing is compressed. */
  lemma CompressionKeepsSmallReadings(x: real, m: Elementary)
    requires x <= 1.0
    ensures Compress(x, m) == x
  {
  }

  /** Compression keeps the order of readings: a larger reading never scales to less. */
  lemma CompressionIsMonotone(x: real, y: real, m: Elementary)
    requires LogIsIncreasing(m)
    requires x <= y
    ensures Compress(x, m) <= Compress(y, m)
  {
    if y > 1.0 {
      assert m.log(1.0) == 0.0;
      if x > 1.0 {
        if x < y {
          assert m.log(x) < m.log(y);
        }
      } else {
        assert m.log(1.0) < m.log(y);
      }
    }
  }

  /** A scaled reading exceeds 1 exactly when the unscaled one does. */
  lemma CompressionExceedsOneIff(x: real, m: Elementary)
    requires LogIsIncreasing(m)
    ensures Compress(x, m) > 1.0 <==> x > 1.0
  {
    if x > 1.0 {
      assert m.log(1.0) < m.log(x);
    }
  }

  /** An altitude of 1000 m (twice the scaler) reads as 1 + log 2. */
  lemma AltitudeOfTwiceTheScaler(m: Elementary)
    ensures ScaleAltitude(1000.0, m) == 1.0 + m.log(2.0)
  {
  }

  // ---------------------------------------------------------------------------
  // Wrap-around of the angular position

  /** The multiple of 2*pi below `x` that the floored remainder subtracts. */
  lemma WrapStrip(x: real)
    ensures var k := (x / TWO_PI).Floor as real; TWO_PI * k <= x < TWO_PI * k + TWO_PI
  {
    var k := (x / TWO_PI).Floor as real;
    var q := x / TWO_PI;
    assert k <= q < k + 1.0;
    assert x == TWO_PI * q;
  }

  /** On the strip [2*pi*k, 2*pi*(k+1)) the remainder is x - 2*pi*k. */
  lemma WrapOnStrip(x: real, k: int)
    requires TWO_PI * k as real <= x < TWO_PI * k as real + TWO_PI
    ensures FloorMod(x, TWO_PI) == x - TWO_PI * k as real
  {
    var j := (x / TWO_PI).Floor;
    WrapStrip(x);
    assert j == k;
  }

  /** Turning a full circle does not change the reading. */
  lemma AngularPositionIsPeriodic(x: real)
    ensures ScaleAngularPosition(x + TWO_PI) == ScaleAngularPosition(x)
  {
    var y := x - PI;
    var k := (y / TWO_PI).Floor;
    WrapStrip(y);
    WrapOnStrip(y, k);
    WrapOnStrip(y + TWO_PI, k + 1);
    assert x + TWO_PI - PI == y + TWO_PI;
  }

  /** On [-pi, pi) the reading is the linear map (x + pi) / (2*pi). */
  lemma AngularPositionOnPrincipalRange(x: real)
    requires -PI <= x < PI
    ensures ScaleAngularPosition(x) == (x + PI) / TWO_PI
  {
    WrapOnStrip(x - PI, -1);
  }

  /**
   * The landmarks of the feature space: 0 rad reads 0.5 and -pi reads 0; pi
   * reads 0 as well, since the remainder wraps it onto -pi.
   */
  lemma AngularPositionLandmarks()
    ensures ScaleAngularPosition(0.0) == 0.5
    ensures ScaleAngularPosition(-PI) == 0.0
    ensures ScaleAngularPosition(PI) == 0.0
  {
    AngularPositionOnPrincipalRange(0.0);
    AngularPositionOnPrincipalRange(-PI);
    WrapOnStrip(0.0, 0);
  }

  // ---------------------------------------------------------------------------
  // Angular velocity

  /** 0 rad/s reads 0.5; the map is increasing; [-3pi, 3pi] is exactly what lands in [0, 1]. */
  lemma AngularVelocityScale(x: real, y: real)
    ensures ScaleAngularVelocity(0.0) == 0.5
    ensures x < y ==> ScaleAngularVelocity(x) < ScaleAngularVelocity(y)
    ensures 0.0 <= ScaleAngularVelocity(x) <= 1.0 <==> -3.0 * PI <= x <= 3.0 * PI
  {
  }
}
