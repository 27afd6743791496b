/** Unit conversions applied at the capability boundary of the NMEA0183
    decoders, over the reals. */
module Units {

  /** π as the float64 constant the unit library scales degrees by. */
  const Pi: real := 3.141592653589793

  /** Metres per second in one kilometre per hour (1000 m / 3600 s). */
  const MetresPerSecondPerKph: real := 1000.0 / 3600.0

  /** Metres per second in one knot (1852 m / 3600 s). */
  const MetresPerSecondPerKnot: real := 1852.0 / 3600.0

  function DegreesToRadians(degrees: real): (radians: real)
    ensures radians * 180.0 == degrees * Pi
  {
    degrees * Pi / 180.0
  }

  function RadiansToDegrees(radians: real): (degrees: real)
    ensures degrees * Pi == radians * 180.0
  {
    radians * 180.0 / Pi
  }

  lemma DegreesRoundTrip(degrees: real)
    ensures RadiansToDegrees(DegreesToRadians(degrees)) == degrees
  {
  }

  function KphToMetresPerSecond(kph: real): (ms: real)
    ensures ms * 3.6 == kph
  {
    kph * MetresPerSecondPerKph
  }

  function KnotsToMetresPerSecond(knots: real): (ms: real)
    ensures ms * 3600.0 == knots * 1852.0
  {
    knots * MetresPerSecondPerKnot
  }
}
