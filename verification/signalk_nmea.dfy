/** The NMEA0183 sentence capabilities of the SignalK mapper: 2D and 3D
    positions behind each sentence's validity gate, and the VHW and VTG
    sentences whose numeric fields may be absent. Sentence parsing is the
    go-nmea library's work except for the VHW and VTG field handling,
    which is modelled with the float parser as a parameter. */
module SignalkNmea {
  import opened Wrappers
  import opened Units

  // Status values of the go-nmea library.
  const ValidGLL: string := "A"
  const ValidRMC: string := "A"
  const FixGPS: string := "1"
  const FixDGPS: string := "2"
  const AutonomousGNS: string := "A"
  const DifferentialGNS: string := "D"
  const PreciseGNS: string := "P"
  const RealTimeKinematicGNS: string := "R"
  const FloatRTKGNS: string := "F"

  // ---------------------------------------------------------------------------
  // Positions

  datatype GLL = GLL(latitude: real, longitude: real, validity: string)
  datatype RMC = RMC(latitude: real, longitude: real, validity: string)
  datatype GGA = GGA(latitude: real, longitude: real, altitude: real, fixQuality: string)
  datatype GNS = GNS(latitude: real, longitude: real, altitude: real, mode: seq<string>)

  /** A 2D position, longitude first, with the MMSI of an AIS report (0
      for every other sentence). */
  datatype Position2D = Position2D(longitude: real, latitude: real, mmsi: nat)

  datatype Position3D = Position3D(longitude: real, latitude: real, altitude: real, mmsi: nat)

  const NoPosition2D := Position2D(0.0, 0.0, 0)
  const NoPosition3D := Position3D(0.0, 0.0, 0.0, 0)

  function GllPosition2D(s: GLL): (r: Returned<Position2D>)
    ensures r.Failed() <==> s.validity != ValidGLL
    ensures r.Failed() ==> r.value == NoPosition2D
    ensures !r.Failed() ==> r.value.longitude == s.longitude && r.value.latitude == s.latitude && r.value.mmsi == 0
  {
    if s.validity != ValidGLL then Returned(NoPosition2D, Some("the invalid flag is set"))
    else Returned(Position2D(s.longitude, s.latitude, 0), None)
  }

  function RmcPosition2D(s: RMC): (r: Returned<Position2D>)
    ensures r.Failed() <==> s.validity != ValidRMC
    ensures r.Failed() ==> r.value == NoPosition2D
    ensures !r.Failed() ==> r.value.longitude == s.longitude && r.value.latitude == s.latitude && r.value.mmsi == 0
  {
    if s.validity != ValidRMC then Returned(NoPosition2D, Some("the invalid flag is set"))
    else Returned(Position2D(s.longitude, s.latitude, 0), None)
  }

  function GgaPosition3D(s: GGA): (r: Returned<Position3D>)
    ensures r.Failed() <==> s.fixQuality != FixGPS && s.fixQuality != FixDGPS
    ensures r.Failed() ==> r.value == NoPosition3D
    ensures !r.Failed() ==> r.value == Position3D(s.longitude, s.latitude, s.altitude, 0)
  {
    if s.fixQuality != FixGPS && s.fixQuality != FixDGPS then Returned(NoPosition3D, Some("the fix quality is not acceptable"))
    else Returned(Position3D(s.longitude, s.latitude, s.altitude, 0), None)
  }

  predicate AcceptableMode(m: string) {
    m == AutonomousGNS || m == DifferentialGNS || m == PreciseGNS || m == RealTimeKinematicGNS || m == FloatRTKGNS
  }

  /** Whether any mode entry is acceptable, scanning in order. */
  function AnyAcceptableMode(modes: seq<string>): (b: bool)
    ensures b <==> exists i :: 0 <= i < |modes| && AcceptableMode(modes[i])
    decreases |modes|
  {
    if |modes| == 0 then false
    else if AcceptableMode(modes[0]) then true
    else
      assert forall i :: 1 <= i < |modes| ==> modes[i] == modes[1..][i - 1];
      AnyAcceptableMode(modes[1..])
  }

  function GnsPosition3D(s: GNS): (r: Returned<Position3D>)
    ensures r.Failed() <==> forall i :: 0 <= i < |s.mode| ==> !AcceptableMode(s.mode[i])
    ensures |s.mode| == 0 ==> r.Failed()
    ensures r.Failed() ==> r.value == NoPosition3D
    ensures !r.Failed() ==> r.value == Position3D(s.longitude, s.latitude, s.altitude, 0)
  {
    if AnyAcceptableMode(s.mode) then Returned(Position3D(s.longitude, s.latitude, s.altitude, 0), None)
    else Returned(NoPosition3D, Some("no acceptable mode"))
  }

  /** Sentences that carry the same fix report the same 2D position, and a
      3D fix projects onto it. */
  lemma PositionsAgree(lat: real, lon: real, alt: real)
    ensures GllPosition2D(GLL(lat, lon, ValidGLL)).value == RmcPosition2D(RMC(lat, lon, ValidRMC)).value
    ensures var p3 := GgaPosition3D(GGA(lat, lon, alt, FixGPS)).value;
            var p2 := RmcPosition2D(RMC(lat, lon, ValidRMC)).value;
            p3.longitude == p2.longitude && p3.latitude == p2.latitude
  {
  }

  // ---------------------------------------------------------------------------
  // Optional fields: VHW and VTG

  /** A float field that may be absent (the source's nil-able Float64). */
  datatype OptFloat = Nil | Val(v: real)

  /** Why a VHW or VTG sentence did not parse. Fewer than 7 fields is an
      index-out-of-range panic in the source. */
  datatype FieldError = TooFewFields | BadField(index: nat)

  /** The parser's float read of one field: an empty field reads as 0,
      anything else goes through the float parser. */
  function FieldFloat(parseFloat: string -> Option<real>, s: string): (r: Option<real>)
    ensures s == "" ==> r == Some(0.0)
    ensures s != "" ==> r == parseFloat(s)
  {
    if s == "" then Some(0.0) else parseFloat(s)
  }

  /** A field that is present iff field `presence` is non-empty, with its
      value read from field `from`. */
  function OptionalField(fields: seq<string>, parseFloat: string -> Option<real>, presence: nat, from: nat): (r: Result<OptFloat, FieldError>)
    requires presence < |fields| && from < |fields|
    ensures fields[presence] == "" ==> r == Ok(Nil)
    ensures fields[presence] != "" ==>
              (r.Ok? <==> FieldFloat(parseFloat, fields[from]).Some?)
              && (r.Ok? ==> r.value == Val(FieldFloat(parseFloat, fields[from]).value))
              && (r.Err? ==> r.error == BadField(from))
  {
    if fields[presence] == "" then Ok(Nil)
    else
      match FieldFloat(parseFloat, fields[from])
      case None => Err(BadField(from))
      case Some(v) => Ok(Val(v))
  }

  /** A field present iff its own raw field is non-empty, with that value. */
  predicate ReadsField(fields: seq<string>, parseFloat: string -> Option<real>, f: OptFloat, i: nat)
    requires i < |fields|
  {
    && (f.Val? <==> fields[i] != "")
    && (f.Val? ==> parseFloat(fields[i]) == Some(f.v))
  }

  datatype VHW = VHW(trueHeading: OptFloat, magneticHeading: OptFloat, speedKnots: OptFloat, speedKph: OptFloat)

  /** The VHW parser: true heading, magnetic heading, knots and km/h from
      fields 0, 2, 4 and 6, each absent when its field is empty. */
  function ParseVhw(fields: seq<string>, parseFloat: string -> Option<real>): (r: Result<VHW, FieldError>)
    ensures |fields| < 7 ==> r == Err(TooFewFields)
    ensures r.Ok? <==> |fields| >= 7 && forall i :: i in {0, 2, 4, 6} && fields[i] != "" ==> parseFloat(fields[i]).Some?
    ensures r.Ok? ==> && ReadsField(fields, parseFloat, r.value.trueHeading, 0)
                      && ReadsField(fields, parseFloat, r.value.magneticHeading, 2)
                      && ReadsField(fields, parseFloat, r.value.speedKnots, 4)
                      && ReadsField(fields, parseFloat, r.value.speedKph, 6)
  {
    if |fields| < 7 then Err(TooFewFields)
    else
      var t :- OptionalField(fields, parseFloat, 0, 0);
      var m :- OptionalField(fields, parseFloat, 2, 2);
      var kn :- OptionalField(fields, parseFloat, 4, 4);
      var kph :- OptionalField(fields, parseFloat, 6, 6);
      Ok(VHW(t, m, kn, kph))
  }

  function VhwMagneticHeading(s: VHW): (r: Returned<real>)
    ensures r.Failed() <==> s.magneticHeading.Nil?
    ensures r.Failed() ==> r.value == 0.0
    ensures !r.Failed() ==> RadiansToDegrees(r.value) == s.magneticHeading.v
  {
    match s.magneticHeading
    case Val(d) => Returned(DegreesToRadians(d), None)
    case Nil => Returned(0.0, Some("value is unavailable"))
  }

  /** The true heading; it is never derived from the magnetic heading. */
  function VhwTrueHeading(s: VHW): (r: Returned<real>)
    ensures r.Failed() <==> s.trueHeading.Nil?
    ensures r.Failed() ==> r.value == 0.0
    ensures !r.Failed() ==> RadiansToDegrees(r.value) == s.trueHeading.v
  {
    match s.trueHeading
    case Val(d) => Returned(DegreesToRadians(d), None)
    case Nil => Returned(0.0, Some("value is unavailable"))
  }

  /** Speed through water in m/s: from km/h whenever present, else from
      knots, else unavailable. */
  function VhwSpeedThroughWater(s: VHW): (r: Returned<real>)
    ensures r.Failed() <==> s.speedKph.Nil? && s.speedKnots.Nil?
    ensures r.Failed() ==> r.value == 0.0
    ensures s.speedKph.Val? ==> r.value * 3.6 == s.speedKph.v
    ensures s.speedKph.Nil? && s.speedKnots.Val? ==> r.value * 3600.0 == s.speedKnots.v * 1852.0
  {
    if s.speedKph.Val? then Returned(KphToMetresPerSecond(s.speedKph.v), None)
    else if s.speedKnots.Val? then Returned(KnotsToMetresPerSecond(s.speedKnots.v), None)
    else Returned(0.0, Some("value is unavailable"))
  }

  /** A heading capability reads only its own field: changing the other
      heading, or the speeds, leaves it unchanged. */
  lemma VhwHeadingsIndependent(s: VHW, t: VHW)
    ensures s.trueHeading == t.trueHeading ==> VhwTrueHeading(s) == VhwTrueHeading(t)
    ensures s.magneticHeading == t.magneticHeading ==> VhwMagneticHeading(s) == VhwMagneticHeading(t)
  {
  }

  datatype VTG = VTG(trueTrack: OptFloat, magneticTrack: OptFloat, groundSpeedKnots: OptFloat, groundSpeedKph: OptFloat)

  /** The VTG parser as written: the knots speed is present iff field 4 is
      non-empty, but its value is read from field 2. */
  function ParseVtg(fields: seq<string>, parseFloat: string -> Option<real>): (r: Result<VTG, FieldError>)
    ensures |fields| < 7 ==> r == Err(TooFewFields)
    ensures r.Ok? <==> |fields| >= 7 && forall i :: i in {0, 2, 6} && fields[i] != "" ==> parseFloat(fields[i]).Some?
    ensures r.Ok? ==> && ReadsField(fields, parseFloat, r.value.trueTrack, 0)
                      && ReadsField(fields, parseFloat, r.value.magneticTrack, 2)
                      && ReadsField(fields, parseFloat, r.value.groundSpeedKph, 6)
                      && (r.value.groundSpeedKnots.Val? <==> fields[4] != "")
                      && (r.value.groundSpeedKnots.Val? ==> Some(r.value.groundSpeedKnots.v) == FieldFloat(parseFloat, fields[2]))
  {
    if |fields| < 7 then Err(TooFewFields)
    else
      var t :- OptionalField(fields, parseFloat, 0, 0);
      var m :- OptionalField(fields, parseFloat, 2, 2);
      var kn :- OptionalField(fields, parseFloat, 4, 2);
      var kph :- OptionalField(fields, parseFloat, 6, 6);
      Ok(VTG(t, m, kn, kph))
  }

  /** The VTG parser with the knots speed read from its own field 4. */
  function ParseVtgCorrected(fields: seq<string>, parseFloat: string -> Option<real>): (r: Result<VTG, FieldError>)
    ensures |fields| < 7 ==> r == Err(TooFewFields)
    ensures r.Ok? <==> |fields| >= 7 && forall i :: i in {0, 2, 4, 6} && fields[i] != "" ==> parseFloat(fields[i]).Some?
    ensures r.Ok? ==> && ReadsField(fields, parseFloat, r.value.trueTrack, 0)
                      && ReadsField(fields, parseFloat, r.value.magneticTrack, 2)
                      && ReadsField(fields, parseFloat, r.value.groundSpeedKnots, 4)
                      && ReadsField(fields, parseFloat, r.value.groundSpeedKph, 6)
  {
    if |fields| < 7 then Err(TooFewFields)
    else
      var t :- OptionalField(fields, parseFloat, 0, 0);
      var m :- OptionalField(fields, parseFloat, 2, 2);
      var kn :- OptionalField(fields, parseFloat, 4, 4);
      var kph :- OptionalField(fields, parseFloat, 6, 6);
      Ok(VTG(t, m, kn, kph))
  }

  /** A VTG sentence with only the knots speed, 5.5 kn, and no magnetic
      track: as written the speed reads 0 from the empty field 2, while the
      corrected parser reads 5.5. */
  lemma VtgKnotsReadFromWrongField(parseFloat: string -> Option<real>)
    requires parseFloat("5.5") == Some(5.5)
    ensures var fields := ["", "T", "", "M", "5.5", "N", "", "K"];
            && ParseVtg(fields, parseFloat) == Ok(VTG(Nil, Nil, Val(0.0), Nil))
            && ParseVtgCorrected(fields, parseFloat) == Ok(VTG(Nil, Nil, Val(5.5), Nil))
  {
    var fields := ["", "T", "", "M", "5.5", "N", "", "K"];
    assert fields[0] == "" && fields[2] == "" && fields[4] == "5.5" && fields[6] == "";
  }

  function VtgTrueCourseOverGround(s: VTG): (r: Returned<real>)
    ensures r.Failed() <==> s.trueTrack.Nil?
    ensures r.Failed() ==> r.value == 0.0
    ensures !r.Failed() ==> RadiansToDegrees(r.value) == s.trueTrack.v
  {
    match s.trueTrack
    case Val(d) => Returned(DegreesToRadians(d), None)
    case Nil => Returned(0.0, Some("value is unavailable"))
  }

  function VtgMagneticCourseOverGround(s: VTG): (r: Returned<real>)
    ensures r.Failed() <==> s.magneticTrack.Nil?
    ensures r.Failed() ==> r.value == 0.0
    ensures !r.Failed() ==> RadiansToDegrees(r.value) == s.magneticTrack.v
  {
    match s.magneticTrack
    case Val(d) => Returned(DegreesToRadians(d), None)
    case Nil => Returned(0.0, Some("value is unavailable"))
  }

  /** Speed over ground in m/s: from km/h whenever present, else from
      knots, else unavailable. */
  function VtgSpeedOverGround(s: VTG): (r: Returned<real>)
    ensures r.Failed() <==> s.groundSpeedKph.Nil? && s.groundSpeedKnots.Nil?
    ensures r.Failed() ==> r.value == 0.0
    ensures s.groundSpeedKph.Val? ==> r.value * 3.6 == s.groundSpeedKph.v
    ensures s.groundSpeedKph.Nil? && s.groundSpeedKnots.Val? ==> r.value * 3600.0 == s.groundSpeedKnots.v * 1852.0
  {
    if s.groundSpeedKph.Val? then Returned(KphToMetresPerSecond(s.groundSpeedKph.v), None)
    else if s.groundSpeedKnots.Val? then Returned(KnotsToMetresPerSecond(s.groundSpeedKnots.v), None)
    else Returned(0.0, Some("value is unavailable"))
  }

  /** Through the as-written parser, a VTG sentence whose km/h field is
      empty reports its speed over ground from field 2 (the magnetic
      track's field) whenever field 4 is non-empty. */
  lemma VtgSpeedFromMagneticField(fields: seq<string>, parseFloat: string -> Option<real>)
    requires ParseVtg(fields, parseFloat).Ok?
    requires fields[6] == "" && fields[4] != "" && fields[2] != ""
    ensures VtgSpeedOverGround(ParseVtg(fields, parseFloat).value).value * 3600.0
            == parseFloat(fields[2]).value * 1852.0
  {
  }
}
