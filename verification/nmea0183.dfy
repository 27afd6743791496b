/** The direction capabilities of the NMEA0183 mapper's own sentence
    types (HDT, THS, RMC, VTG, VHW). Unlike the SignalK decoders, these
    sentences carry plain numbers: an unset field is 0, and the error
    gates are the sentence's own flags. Angles are reported in radians. */
module Nmea0183 {
  import opened Wrappers
  import opened Units

  const ValidRMC: string := "A"
  const AutonomousTHS: string := "A"
  const EstimatedTHS: string := "E"

  /** Heading, with the flag that says whether it is a true heading. */
  datatype HDT = HDT(heading: real, isTrue: bool)

  /** True heading with its status. */
  datatype THS = THS(heading: real, status: string)

  datatype RMC = RMC(validity: string, course: real, variation: real)

  datatype VTG = VTG(trueTrack: real, magneticTrack: real)

  datatype VHW = VHW(trueHeading: real, magneticHeading: real)

  /** A successful angle reading in radians. */
  function Angle(degrees: real): (r: Returned<real>)
    ensures !r.Failed() && RadiansToDegrees(r.value) == degrees
  {
    Returned(DegreesToRadians(degrees), None)
  }

  /** A failed reading: an error next to the value 0. */
  function Unavailable(reason: string): (r: Returned<real>)
    ensures r.Failed() && r.value == 0.0
  {
    Returned(0.0, Some(reason))
  }

  // ---------------------------------------------------------------------------
  // HDT

  /** An HDT heading is magnetic only when the true flag is clear. */
  function HdtMagneticHeading(s: HDT): (r: Returned<real>)
    ensures r.Failed() <==> s.isTrue
    ensures r.Failed() ==> r.value == 0.0
    ensures !r.Failed() ==> r.value * 180.0 == s.heading * Pi
  {
    if s.isTrue then Unavailable("the heading is a true heading") else Angle(s.heading)
  }

  /** An HDT heading is true only when the true flag is set. */
  function HdtTrueHeading(s: HDT): (r: Returned<real>)
    ensures r.Failed() <==> !s.isTrue
    ensures r.Failed() ==> r.value == 0.0
    ensures !r.Failed() ==> r.value * 180.0 == s.heading * Pi
  {
    if s.isTrue then Angle(s.heading) else Unavailable("the heading is a magnetic heading")
  }

  /** Exactly one of an HDT sentence's two headings is available, and it
      is the same angle whichever it is. */
  lemma HdtExactlyOneHeading(s: HDT)
    ensures HdtMagneticHeading(s).Failed() != HdtTrueHeading(s).Failed()
    ensures HdtMagneticHeading(s).value + HdtTrueHeading(s).value == DegreesToRadians(s.heading)
  {
  }

  // ---------------------------------------------------------------------------
  // THS

  /** A THS heading counts only when its status is autonomous. */
  function ThsTrueHeading(s: THS): (r: Returned<real>)
    ensures r.Failed() <==> s.status != AutonomousTHS
    ensures r.Failed() ==> r.value == 0.0
    ensures !r.Failed() ==> r.value * 180.0 == s.heading * Pi
  {
    if s.status == AutonomousTHS then Angle(s.heading) else Unavailable("the status is not autonomous")
  }

  // ---------------------------------------------------------------------------
  // RMC

  function RmcMagneticVariation(s: RMC): (r: Returned<real>)
    ensures r.Failed() <==> s.validity != ValidRMC
    ensures r.Failed() ==> r.value == 0.0
    ensures !r.Failed() ==> r.value * 180.0 == s.variation * Pi
  {
    if s.validity == ValidRMC then Angle(s.variation) else Unavailable("the invalid flag is set")
  }

  function RmcTrueCourseOverGround(s: RMC): (r: Returned<real>)
    ensures r.Failed() <==> s.validity != ValidRMC
    ensures r.Failed() ==> r.value == 0.0
    ensures !r.Failed() ==> r.value * 180.0 == s.course * Pi
  {
    if s.validity == ValidRMC then Angle(s.course) else Unavailable("the invalid flag is set")
  }

  // ---------------------------------------------------------------------------
  // VTG and VHW

  function VtgMagneticCourseOverGround(s: VTG): (r: Returned<real>)
    ensures !r.Failed() && r.value * 180.0 == s.magneticTrack * Pi
  {
    Angle(s.magneticTrack)
  }

  function VtgTrueCourseOverGround(s: VTG): (r: Returned<real>)
    ensures !r.Failed() && r.value * 180.0 == s.trueTrack * Pi
  {
    Angle(s.trueTrack)
  }

  function VhwMagneticHeading(s: VHW): (r: Returned<real>)
    ensures !r.Failed() && r.value * 180.0 == s.magneticHeading * Pi
  {
    Angle(s.magneticHeading)
  }

  function VhwTrueHeading(s: VHW): (r: Returned<real>)
    ensures !r.Failed() && r.value * 180.0 == s.trueHeading * Pi
  {
    Angle(s.trueHeading)
  }

  /** Each VTG and VHW reading depends on its own field only. */
  lemma OwnFieldOnly(s: VTG, t: VTG, u: VHW, w: VHW)
    ensures s.magneticTrack == t.magneticTrack ==> VtgMagneticCourseOverGround(s) == VtgMagneticCourseOverGround(t)
    ensures s.trueTrack == t.trueTrack ==> VtgTrueCourseOverGround(s) == VtgTrueCourseOverGround(t)
    ensures u.magneticHeading == w.magneticHeading ==> VhwMagneticHeading(u) == VhwMagneticHeading(w)
    ensures u.trueHeading == w.trueHeading ==> VhwTrueHeading(u) == VhwTrueHeading(w)
  {
  }

  /** The sentence families agree: a magnetic HDT, a VHW and a VTG
      carrying the same angle report the same magnetic direction, and a
      true HDT, an autonomous THS, a VHW, a VTG and a valid RMC report the
      same true direction. */
  lemma FamiliesAgree(degrees: real, other: real)
    ensures HdtMagneticHeading(HDT(degrees, false)) == VhwMagneticHeading(VHW(other, degrees))
    ensures VhwMagneticHeading(VHW(other, degrees)) == VtgMagneticCourseOverGround(VTG(other, degrees))
    ensures HdtTrueHeading(HDT(degrees, true)) == ThsTrueHeading(THS(degrees, AutonomousTHS))
    ensures ThsTrueHeading(THS(degrees, AutonomousTHS)) == VhwTrueHeading(VHW(degrees, other))
    ensures VhwTrueHeading(VHW(degrees, other)) == VtgTrueCourseOverGround(VTG(degrees, other))
    ensures VtgTrueCourseOverGround(VTG(degrees, other)) == RmcTrueCourseOverGround(RMC(ValidRMC, degrees, other))
  {
  }

  /** A failed reading whose value is the zero the source returns with
      its error. */
  predicate FailedWithZero(r: Returned<real>) {
    r.Failed() && r.value == 0.0
  }

  /** Expected readings of the direction tests: 180 degrees is π, 270
      degrees is 1.5π, and the gated readings fail with 0. */
  lemma DirectionVectors()
    // magnetic course over ground
    ensures VtgMagneticCourseOverGround(VTG(0.0, 0.0)) == Returned(0.0, None)
    ensures VtgMagneticCourseOverGround(VTG(0.0, 270.0)) == Returned(1.5 * Pi, None)
    ensures VtgMagneticCourseOverGround(VTG(180.0, 0.0)) == Returned(0.0, None)
    ensures VtgMagneticCourseOverGround(VTG(180.0, 270.0)) == Returned(1.5 * Pi, None)
    // magnetic heading
    ensures HdtMagneticHeading(HDT(0.0, false)) == Returned(0.0, None)
    ensures FailedWithZero(HdtMagneticHeading(HDT(0.0, true)))
    ensures HdtMagneticHeading(HDT(180.0, false)) == Returned(Pi, None)
    ensures HdtMagneticHeading(HDT(270.0, false)) == Returned(1.5 * Pi, None)
    ensures FailedWithZero(HdtMagneticHeading(HDT(180.0, true)))
    ensures VhwMagneticHeading(VHW(0.0, 0.0)) == Returned(0.0, None)
    ensures VhwMagneticHeading(VHW(0.0, 270.0)) == Returned(1.5 * Pi, None)
    ensures VhwMagneticHeading(VHW(180.0, 0.0)) == Returned(0.0, None)
    ensures VhwMagneticHeading(VHW(180.0, 270.0)) == Returned(1.5 * Pi, None)
    // magnetic variation
    ensures FailedWithZero(RmcMagneticVariation(RMC("", 0.0, 0.0)))
    ensures FailedWithZero(RmcMagneticVariation(RMC("", 0.0, 180.0)))
    ensures RmcMagneticVariation(RMC(ValidRMC, 0.0, 270.0)) == Returned(1.5 * Pi, None)
    // true course over ground
    ensures FailedWithZero(RmcTrueCourseOverGround(RMC("", 0.0, 0.0)))
    ensures FailedWithZero(RmcTrueCourseOverGround(RMC("", 180.0, 0.0)))
    ensures RmcTrueCourseOverGround(RMC(ValidRMC, 180.0, 0.0)) == Returned(Pi, None)
    ensures VtgTrueCourseOverGround(VTG(0.0, 0.0)) == Returned(0.0, None)
    ensures VtgTrueCourseOverGround(VTG(0.0, 270.0)) == Returned(0.0, None)
    ensures VtgTrueCourseOverGround(VTG(180.0, 0.0)) == Returned(Pi, None)
    ensures VtgTrueCourseOverGround(VTG(180.0, 270.0)) == Returned(Pi, None)
    // true heading
    ensures FailedWithZero(HdtTrueHeading(HDT(0.0, false)))
    ensures HdtTrueHeading(HDT(0.0, true)) == Returned(0.0, None)
    ensures FailedWithZero(HdtTrueHeading(HDT(180.0, false)))
    ensures HdtTrueHeading(HDT(180.0, true)) == Returned(Pi, None)
    ensures VhwTrueHeading(VHW(0.0, 0.0)) == Returned(0.0, None)
    ensures VhwTrueHeading(VHW(0.0, 270.0)) == Returned(0.0, None)
    ensures VhwTrueHeading(VHW(180.0, 0.0)) == Returned(Pi, None)
    ensures FailedWithZero(ThsTrueHeading(THS(0.0, "")))
    ensures FailedWithZero(ThsTrueHeading(THS(180.0, "")))
    ensures ThsTrueHeading(THS(180.0, AutonomousTHS)) == Returned(Pi, None)
    ensures FailedWithZero(ThsTrueHeading(THS(180.0, EstimatedTHS)))
  {
  }
}
