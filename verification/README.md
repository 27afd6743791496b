# gosk mapping layer in Dafny

This project models the mapping layer of gosk. That layer turns raw marine bus traffic into SignalK-style deltas. A delta (`Mapped`) has a context, an origin and a list of updates; each update has a source, a timestamp and path/value pairs. The modelled parts are:

- **Expressions** (`expressions.dfy`). These are the built-ins that mapping expressions may call:
  - `currentToRatio`, `pressureToHeight` and `heightToVolume`, with its table validation and piecewise-linear lookup;
  - the conversion of dynamically typed lists to floats;
  - the merge of expression environments;
  - the run of one rule's expression;
  - the swap of `.` and `,` in a string.
- **CAN bus mapper** (`canbus.dfy`). This covers:
  - bit-exact signal extraction from a frame by a DBC signal definition, on 64-bit words with Go's shift semantics;
  - the `(message name, signal name)` table of configured mappings;
  - the per-frame `DoMap`.
- **NMEA2000 mapper** (`nmea2000.dfy`). This covers:
  - the packet step, which resolves the one PGN (130824) that has both a single-frame and a fast-packet variant and hands fast packets to the multi-frame builder;
  - running a completed packet's decoders in order;
  - `DoMap`.
- **SignalK NMEA0183 decoders** (`signalk_nmea.dfy`). These are the position capabilities of GLL, RMC, GGA and GNS, behind each sentence's validity gate. They also include the VHW and VTG parsers, whose fields may be absent, with their heading, course and speed capabilities.
- **NMEA0183 mapper direction capabilities** (`nmea0183.dfy`). These are the HDT, THS, RMC, VTG and VHW types of the mapper's own NMEA0183 package, as its direction tests pin them down.
- **Aggregate mapper** (`aggregate.dfy`). This post-stage remembers the latest value at every member path of its rules. It appends one "signalk" update of derived values to a delta that touches a rule whose members all have values.
- Shared modules:
  - `wrappers.dfy` holds `Option`, `Result` and `Returned`. `Returned` is Go's `(value, error)` pair, used where the value returned next to an error matters.
  - `message.dfy` holds the delta data model.
  - `units.dfy` holds the degree/radian and km/h/knot to m/s conversions.

Floats are modelled as `real`, and integers are unbounded except where the source works on `uint64`. The CAN window arithmetic is done on `bv64`, where Go's shift by 64 or more yields 0 and must be written out.

The libraries the source calls are parameters of the model:
- the expression compiler and VM (`Program`);
- the CAN frame parsers;
- the DBC reader's outcome;
- the n2k packet constructor, multi-frame builder and PGN decoders (`Library`);
- go-nmea's float parser.

## Model

| member | source | states |
|---|---|---|
| Expressions.CurrentToRatio | mapper/expressions.go:24-29 | The ratio r satisfies 16000·r + 4000 = current, so 4000 µA maps to 0 and 20000 µA to 1 |
| Expressions.CurrentToRatioCalibration | mapper/expressions.go:24-26 | The documented calibration points hold: 4000, 8000, 12000, 16000 and 20000 µA give 0, 0.25, 0.5, 0.75 and 1 |
| Expressions.CurrentToRatioMonotone | mapper/expressions.go:27-29 | A larger current never gives a smaller ratio |
| Expressions.PressureToHeight | mapper/expressions.go:31-38 | A height is defined iff the density is non-zero; the height h then satisfies h·(density·9.8) = pressure |
| Expressions.ListToFloats | mapper/expressions.go:86-120 | Succeeds iff every element is one of the twelve Go numeric kinds. On success the result is element-wise the float value of each element. On failure it reports the first non-numeric position, and every earlier element is numeric |
| Expressions.CheckIncreasing | mapper/expressions.go:61-70 | The validation loop passes iff both columns strictly increase from the given position. Otherwise it reports the first bad position; at that position the height is checked before the volume |
| Expressions.HeightToVolume | mapper/expressions.go:46-84 | The error order is length mismatch, then heights not convertible, then volumes not convertible. The result is Ok iff both lists convert and form a valid table. A not-increasing error names the first bad position and says which column failed. An Ok result is the lookup loop over the converted table |
| Expressions.HeightToVolumeOnTable | mapper/expressions.go:46-84 | For any element lists that convert to a valid table, every check passes and the result is the lookup loop over that table, from 0 |
| Expressions.Float64sConvertBack | mapper/expressions.go:113-114 | A list of float64 elements converts back to the same numbers |
| Expressions.Float64sTable | mapper/expressions.go:46-84 | A table given as plain float64 elements is looked up as its numbers |
| Expressions.HeightToVolumeBelowRange | mapper/expressions.go:72-76 | For lists that convert to a valid table: below the first tabulated height, or with an empty table, the result is 0 |
| Expressions.HeightToVolumeInSegment | mapper/expressions.go:72-80 | For lists that convert to a valid table: when hs[i-1] ≤ height+offset < hs[i], the result is the linear interpolation on segment i and lies in [vs[i-1], vs[i]) |
| Expressions.HeightToVolumeAboveRange | mapper/expressions.go:72-83 | For lists that convert to a valid table: at or above the last tabulated height the result is the last volume |
| Expressions.LerpBounds | mapper/expressions.go:77-78 | The interpolation at a height inside a segment stays between the segment's two volumes |
| Expressions.LerpMonotone | mapper/expressions.go:77-78 | On one segment, interpolation is non-decreasing in the height |
| Expressions.ScanInSegment | mapper/expressions.go:72-80 | The lookup loop, from any position up to i, stops at segment i for a height inside it |
| Expressions.ScanAboveRange | mapper/expressions.go:72-83 | The lookup loop ends with the last volume for a height at or above the last tabulated height |
| Expressions.ScanMonotone | mapper/expressions.go:72-83 | From the first tabulated height upwards, the lookup is non-decreasing |
| Expressions.HeightToVolumeMonotone | mapper/expressions.go:72-83 | For lists that convert to a valid table and heights from the first tabulated height upwards, a higher reading never gives a smaller volume |
| Expressions.SegmentOf | mapper/expressions.go:72-73 | The first segment a height at or above the first table height falls in: hs[i-1] ≤ x < hs[i] with every earlier height ≤ x, or |hs| when x is at or above the last height |
| Expressions.SegmentUnique | mapper/expressions.go:72-80 | In a strictly increasing table no other segment holds the height, so the loop's stopping segment is unique |
| Expressions.MergeEnvironments | mapper/expressions.go:166-178 | The merge fails iff the two environments share a key, and the error carries the set of shared keys, from which the source names one. Otherwise the result is the union and keeps every binding of both sides |
| Expressions.MergeEnvironmentsSymmetric | mapper/expressions.go:166-178 | Whether a merge succeeds does not depend on the order of the two sides, and successful merges agree |
| Expressions.RunExpr | mapper/expressions.go:122-154 | A key clash with the rule's constants is an error before the program runs. Otherwise the outcome is the program's outcome on the merged environment |
| Expressions.SwapPointAndComma | mapper/expressions.go:180-191 | For a string of Unicode code points (valid UTF-8): same length in code points; at every position '.' becomes ',' and ',' becomes '.', and every other character is kept |
| Expressions.SwapPointAndCommaInvolution | mapper/expressions.go:180-191 | For a string of Unicode code points (valid UTF-8), swapping twice gives back the input |
| CanBus.Pad8 | mapper/canbus.go:112-113 | The 8-byte buffer holds the first data bytes, at most 8, followed by zeros |
| CanBus.BigEndianWord | mapper/canbus.go:122 | Byte k of the padded buffer is bits 56-8k to 63-8k of the word: byte 0 is the most significant |
| CanBus.WordBytes | mapper/canbus.go:122 | The big-endian word of a word's 8 bytes is the word itself |
| CanBus.Shl | mapper/canbus.go:123 | A left shift by 64 or more yields 0 |
| CanBus.Shr | mapper/canbus.go:124 | A right shift by 64 or more yields 0 |
| CanBus.AdjustedStart | mapper/canbus.go:114-115 | A big-endian signal's start bit is moved down by 7 with uint64 wrap-around; any other start bit is unchanged |
| CanBus.RawBits | mapper/canbus.go:110-124 | A zero-size signal, and one whose adjusted start is 64 or more, has raw bits 0 |
| CanBus.Int64Of | mapper/canbus.go:129 | The int64 reading of a uint64 lies in [-2^63, 2^63). Below 2^63 it keeps its value, and at or above 2^63 it becomes negative |
| CanBus.Int64OfCongruent | mapper/canbus.go:129 | The int64 reading is congruent to the uint64 modulo 2^64: the same 64 bits |
| CanBus.RawNumberAsWritten | mapper/canbus.go:127-132 | The source's reading: an unsigned signal, and any signal narrower than 64 bits, is its raw bits; a signed signal of 64 bits or more is its window as an int64. A negative reading needs a signed signal of 64 bits or more |
| CanBus.SignExtend | mapper/canbus.go:127-132 | The two's-complement reading of a size-bit field: it lies in [-2^(size-1), 2^(size-1)), equals the low bits or the low bits less 2^size, and is negative iff the top bit is set |
| CanBus.RawNumber | mapper/canbus.go:127-132 | An unsigned signal is its raw bits. A signed signal of 64 bits or of size 0 matches the source. A narrower signed signal is its sign-extended width |
| CanBus.ExtractSignal | mapper/canbus.go:107-138 | The source's value: the signal keeps its origin and name. An unsigned signal, and any signal narrower than 64 bits, scales its unsigned raw bits by factor and offset. A signed signal of 64 bits or more scales its window read as an int64 |
| CanBus.ExtractSignalCorrected | mapper/canbus.go:107-138 | The corrected value: an unsigned signal scales its raw bits, and a signed signal narrower than 64 bits scales its two's-complement reading of its own width. Any other signed signal gives the source's value |
| CanBus.ExtractSignalsAgree | mapper/canbus.go:107-138 | The corrected and the source value agree for every unsigned signal, and for a narrow signed signal whose top bit is clear |
| CanBus.SignedByteSignals | mapper/canbus.go:127-137 | A signed 8-bit signal over byte 0xFF has value 255 as written and -1 corrected |
| CanBus.WindowBound | mapper/canbus.go:123-124 | A window of size < 64 bits is below 2^size, and a zero-size window is 0 |
| CanBus.RawBitsBound | mapper/canbus.go:110-124 | A signal's raw bits are below 2^size when the size is below 64 |
| CanBus.BigEndianLowStartIsOffset | mapper/canbus.go:114-124 | A big-endian signal with start bit below 7 wraps its start past 63, so its raw bits are 0 and its value is the offset |
| CanBus.KnownVectors | mapper/canbus.go:107-132 | Known vectors: byte 0x34 is read by an 8-bit little-endian signal at start 8 and by an 8-bit big-endian signal at start 15. A signed 64-bit all-ones frame reads -1 |
| CanBus.WordByte | mapper/canbus.go:122-124 | In the big-endian word, byte k occupies bits 8k to 8k+7 counted from the most significant bit |
| CanBus.ByteAlignedSignal | mapper/canbus.go:110-124 | An 8-bit signal at start bit 8k reads data byte k. For big-endian, the start bit is 8k+7 |
| CanBus.ByteAlignedSignalValue | mapper/canbus.go:107-137 | The value of a whole-byte signal is that data byte, scaled by factor and offset, whether the signal is signed or not |
| CanBus.RawNumberAgreesWhenTopBitClear | mapper/canbus.go:127-132 | For a narrow signed signal whose top bit is clear, the corrected and the source reading agree |
| CanBus.SignedByteNotSignExtended | mapper/canbus.go:127-132 | A signed 8-bit signal over byte 0xFF reads 255 as written and -1 when corrected |
| CanBus.LastIndex | mapper/canbus.go:34-39 | Gives the last configured position of a key, or -1 exactly when the key is not configured |
| CanBus.BuildMappings | mapper/canbus.go:33-40 | A (origin, name) key is in the table iff some configured entry has it, and it holds the last such entry |
| CanBus.BuildMappingsLastWins | mapper/canbus.go:34-39 | A later entry with the same key replaces the earlier one, and every other key is unchanged |
| CanBus.NewCanBusMapper | mapper/canbus.go:26-42 | Fails iff reading the DBC fails. Otherwise every configured key is present, holding its last configured entry |
| CanBus.SignalEnvironment | mapper/canbus.go:72-73 | A signal's environment is the built-ins plus `value`, bound to the signal value |
| CanBus.MapSignal | mapper/canbus.go:68-84 | An unmapped signal contributes nothing. A mapped one contributes one value at the mapping's path iff its expression succeeds, and that value is the expression's output |
| CanBus.MapSignals | mapper/canbus.go:67-85 | At most one value per signal, and every value sits at some configured mapping's path |
| CanBus.MapSignalsAppend | mapper/canbus.go:67-85 | Signals map independently: the values for a concatenation are the concatenated values of the parts |
| CanBus.MapSignalsIsFlatMap | mapper/canbus.go:67-85 | The signal loop maps every signal on its own and concatenates the results in signal order |
| CanBus.UnmappedSignalSkipped | mapper/canbus.go:69-71 | An unmapped signal contributes nothing, wherever it stands |
| CanBus.DoMap | mapper/canbus.go:48-95 | Errors iff the frame does not parse. Otherwise there is one delta with context and origin equal to the mapper's context and exactly one update, sourced from the connector, protocol and uuid, at the raw timestamp. Its values are empty for an unknown frame id and otherwise are the mapped signals in order |
| Nmea2000.SlowVariantMatches | mapper/nmea2000.go:105-115 | The candidate scan selects the single-frame variant iff a non-fast candidate with the packet's manufacturer id comes before any fast candidate |
| Nmea2000.HandlePgn130824 | mapper/nmea2000.go:100-116 | The manufacturer code is read from the data. The packet is single-frame and complete iff the slow variant matches, and fast and incomplete otherwise. Nothing else changes |
| Nmea2000.Process | mapper/nmea2000.go:68-89 | A packet with parse errors is handed on unchanged. Otherwise, after PGN 130824 resolution, a non-fast packet is completed, given its decoders and handed on. A fast packet goes to the builder and is handed on, with decoders, only if the builder completes it |
| Nmea2000.SingleFramePacketCompletes | mapper/nmea2000.go:78-86 | A non-fast packet of any other PGN is completed at once, given its decoders and handed on, without touching the builder |
| Nmea2000.Pgn130824Routing | mapper/nmea2000.go:75-86 | PGN 130824 bypasses the builder iff the slow variant matches; otherwise the builder's outcome decides |
| Nmea2000.RunDecoders | mapper/nmea2000.go:46-58 | Decoders are tried in order and the first success stops the run. The recorded errors are exactly the failures before it, or all of them if none succeeds |
| Nmea2000.DecodePacket | mapper/nmea2000.go:46-62 | Only the parse errors change: the decoders' errors are appended, or "no matching decoder" when the packet has none |
| Nmea2000.DoMap | mapper/nmea2000.go:31-65 | An unparsable frame is an error and leaves the state unchanged. Any other frame steps the packet state, decodes a handed-on packet, and yields no delta |
| SignalkNmea.GllPosition2D | signalk/mapper/nmea/position.go:22-27 | Fails iff the validity is not "A", with zeros. Otherwise gives the longitude and latitude with MMSI 0 |
| SignalkNmea.RmcPosition2D | signalk/mapper/nmea/position.go:30-35 | Fails iff the validity is not "A", with zeros. Otherwise gives the longitude and latitude with MMSI 0 |
| SignalkNmea.GgaPosition3D | signalk/mapper/nmea/position.go:49-55 | Fails iff the fix quality is neither GPS nor DGPS, with zeros. Otherwise gives the 3D position |
| SignalkNmea.AnyAcceptableMode | signalk/mapper/nmea/position.go:59-63 | The mode scan succeeds iff some mode entry is one of A, D, P, R, F |
| SignalkNmea.GnsPosition3D | signalk/mapper/nmea/position.go:58-65 | Fails iff no mode entry is acceptable (so always for an empty mode list), with zeros. Otherwise gives the 3D position |
| SignalkNmea.PositionsAgree | signalk/mapper/nmea/position.go:22-55 | Valid GLL and RMC fixes give the same 2D position, and a GGA fix projects onto it |
| SignalkNmea.FieldFloat | signalk/mapper/nmea/vhw.go:24-26 | An empty field reads as 0, and any other field goes through the float parser |
| SignalkNmea.OptionalField | signalk/mapper/nmea/vhw.go:24-28 | A field is absent iff its presence field is empty; otherwise it holds the parsed value or reports its field index |
| SignalkNmea.ParseVhw | signalk/mapper/nmea/vhw.go:18-46 | Fewer than 7 fields fail. The parse succeeds iff every non-empty field 0, 2, 4 and 6 parses. Each value is present iff its own field is non-empty, and then holds that field's value |
| SignalkNmea.VhwMagneticHeading | signalk/mapper/nmea/vhw.go:49-54 | Fails iff the magnetic heading is absent, with 0. Otherwise the radians convert back to the field's degrees |
| SignalkNmea.VhwTrueHeading | signalk/mapper/nmea/vhw.go:57-62 | Fails iff the true heading is absent, with 0. Otherwise the radians convert back to the field's degrees |
| SignalkNmea.VhwSpeedThroughWater | signalk/mapper/nmea/vhw.go:65-73 | km/h is used whenever it is present (m/s·3.6 = km/h), else knots (m/s·3600 = kn·1852). Fails iff both are absent |
| SignalkNmea.VhwHeadingsIndependent | signalk/mapper/nmea/vhw.go:49-62 | Each heading capability reads only its own field |
| SignalkNmea.ParseVtg | signalk/mapper/nmea/vtg.go:18-46 | As written: fewer than 7 fields fail; fields 0, 2 and 6 are read as their own values. The knots speed is present iff field 4 is non-empty, but its value is field 2's |
| SignalkNmea.ParseVtgCorrected | signalk/mapper/nmea/vtg.go:18-46 | With the knots value read from field 4, every value is present iff its own field is non-empty, and then holds that field's value |
| SignalkNmea.VtgKnotsReadFromWrongField | signalk/mapper/nmea/vtg.go:34-38 | A sentence with only "5.5" knots reads 0 knots as written and 5.5 corrected |
| SignalkNmea.VtgSpeedFromMagneticField | signalk/mapper/nmea/vtg.go:34-38 | As written, with no km/h field, the speed over ground is computed from field 2, the magnetic track |
| SignalkNmea.VtgTrueCourseOverGround | signalk/mapper/nmea/vtg.go:49-54 | Fails iff the true track is absent, with 0. Otherwise the radians convert back to the field's degrees |
| SignalkNmea.VtgMagneticCourseOverGround | signalk/mapper/nmea/vtg.go:57-62 | Fails iff the magnetic track is absent, with 0. Otherwise the radians convert back to the field's degrees |
| SignalkNmea.VtgSpeedOverGround | signalk/mapper/nmea/vtg.go:65-73 | km/h is used whenever it is present, else knots, each converted to m/s. Fails iff both are absent |
| Units.DegreesToRadians | signalk/mapper/nmea/vhw.go:51 | The radians r satisfy r·180 = degrees·π |
| Units.RadiansToDegrees | signalk/mapper/nmea/vhw.go:51 | The inverse conversion: degrees·π = r·180 |
| Units.DegreesRoundTrip | signalk/mapper/nmea/vhw.go:51 | Converting degrees to radians and back gives the degrees |
| Units.KphToMetresPerSecond | signalk/mapper/nmea/vhw.go:67 | m/s · 3.6 = km/h |
| Units.KnotsToMetresPerSecond | signalk/mapper/nmea/vhw.go:70 | m/s · 3600 = knots · 1852 |
| Nmea0183.Angle | mapper/nmea0183/direction_test.go:46-47 | A successful reading whose radians convert back to the given degrees |
| Nmea0183.Unavailable | mapper/nmea0183/direction_test.go:45 | A failed reading carries the value 0 |
| Nmea0183.HdtMagneticHeading | mapper/nmea0183/direction_test.go:43-48 | Errors iff the true flag is set, with 0. Otherwise gives heading·π/180 |
| Nmea0183.HdtTrueHeading | mapper/nmea0183/direction_test.go:129-133 | Errors iff the true flag is clear, with 0. Otherwise gives heading·π/180 |
| Nmea0183.HdtExactlyOneHeading | mapper/nmea0183/direction_test.go:43-48 | Exactly one of an HDT's two headings is available, and it is the heading in radians |
| Nmea0183.ThsTrueHeading | mapper/nmea0183/direction_test.go:137-140 | Succeeds iff the status is autonomous, giving heading·π/180; otherwise it fails with 0 |
| Nmea0183.RmcMagneticVariation | mapper/nmea0183/direction_test.go:75-77 | Succeeds iff the validity is "A", giving variation·π/180; otherwise it fails with 0 |
| Nmea0183.RmcTrueCourseOverGround | mapper/nmea0183/direction_test.go:100-102 | Succeeds iff the validity is "A", giving course·π/180; otherwise it fails with 0 |
| Nmea0183.VtgMagneticCourseOverGround | mapper/nmea0183/direction_test.go:17-20 | Never fails, and gives the magnetic track in radians |
| Nmea0183.VtgTrueCourseOverGround | mapper/nmea0183/direction_test.go:103-106 | Never fails, and gives the true track in radians |
| Nmea0183.VhwMagneticHeading | mapper/nmea0183/direction_test.go:49-52 | Never fails, and gives the magnetic heading in radians |
| Nmea0183.VhwTrueHeading | mapper/nmea0183/direction_test.go:134-136 | Never fails, and gives the true heading in radians |
| Nmea0183.OwnFieldOnly | mapper/nmea0183/direction_test.go:17-20 | Each VTG and VHW reading depends on its own field only |
| Nmea0183.FamiliesAgree | mapper/nmea0183/direction_test.go:43-52 | HDT, THS, RMC, VTG and VHW carrying the same angle report the same magnetic direction, and the same true direction |
| Nmea0183.DirectionVectors | mapper/nmea0183/direction_test.go:10-154 | Every expected reading and error of the direction tests, with the zero value returned next to each error |
| Aggregate.LastAt | mapper/aggegrate_test.go:117-146 | Gives the last position of a path among the values, or -1 exactly when the path is absent |
| Aggregate.Remember | mapper/aggegrate_test.go:117-146 | The memory gains exactly the member paths the values carry, each holding its last value. Every other entry is kept |
| Aggregate.RememberIdempotent | mapper/aggegrate_test.go:117-146 | Remembering the same values twice changes nothing |
| Aggregate.DeriveOne | mapper/aggegrate_test.go:53-116 | A rule derives a value iff the delta touches one of its members, every member has a remembered value and the expression succeeds. The value is the expression's output at the rule's target path |
| Aggregate.Derive | mapper/aggegrate_test.go:53-116 | The derived values are exactly the rules' derived values; none iff no rule derives |
| Aggregate.LastTrigger | mapper/aggegrate_test.go:72-79 | Gives the last update carrying a member path, or -1 exactly when none does |
| Aggregate.TouchedHasTrigger | mapper/aggegrate_test.go:53-82 | A delta that touches a rule has an update carrying a member path |
| Aggregate.DoMap | mapper/aggegrate_test.go:31-146 | The memory is updated from the delta's values, and context, origin and input updates are kept. The delta is unchanged iff nothing is derived; otherwise exactly one update is appended, from source "signalk" of type SignalK with the nil uuid, at the last triggering update's time, holding the derived values |
| Aggregate.DoMapAppendsDerived | mapper/aggegrate_test.go:53-116 | When something is derived, the result is the remembered memory plus the input delta with exactly one derived update appended, at the last trigger's time |
| Aggregate.DerivedHasTrigger | mapper/aggegrate_test.go:53-116 | A derived value implies some update carries a member path, so the derived update has a timestamp to take |
| Aggregate.PlusFiveDerives | mapper/aggegrate_test.go:53-82 | With only port power remembered and touched, only the plusfive rule derives, giving port + 5 |
| Aggregate.OnlyCombinedTouched | mapper/aggegrate_test.go:83-146 | A delta carrying port2 power and never port power touches the combined rule and not the plusfive rule |
| Aggregate.NoMemberPathPassesThrough | mapper/aggegrate_test.go:31-52 | A delta with no member path comes back unchanged, and the memory is unchanged |
| Aggregate.NoMemberValues | mapper/aggegrate_test.go:31-52 | If no update carries a member path, neither does any flattened value |
| Aggregate.DoMapRepeatable | mapper/aggegrate_test.go:117-146 | Mapping the same delta again from the resulting memory gives the same delta |
| Aggregate.CombinedDerives | mapper/aggegrate_test.go:83-116 | The combined rule, touched and complete, derives the sum of port2 and starboard2 |
| Aggregate.ExampleScenario | mapper/aggegrate_test.go:31-146 | The four test deltas in order: 8409.6 passes through; port 5.6 derives plusfive 10.6; port2 and starboard2 at 5.6 derive combined 11.2; port2 7.6 then derives combined 13.2 from the remembered starboard2 |

## Left out

- Bus I/O (`Map`, the `process` receive/publish loop), logging and metrics are left out. They are transport and glue, not mapping logic.
- `readDBC` (mapper/canbus.go:147-172) opens and reads the DBC file and parses it with the DBC library. The file read, the parse and the table it builds are abstracted: their outcome enters as the `readDbc` parameter. The CAN-frame string parser is library code and enters as `parseFrame`.
- Expression compilation, its caching on the configuration record, and the VM are library code. They enter as the `Program` parameter. The secondary `message.Decode` pass over map-valued outputs is not modelled.
- The n2k packet constructor, `GetManCode`, `AddDecoders`, the multi-frame builder and the PGN decoders are library code. They enter as the functions of `Nmea2000.Library`. The builder's sequence handling is therefore not modelled.
- The catalog invariant (exactly one dual-variant PGN) is checked when canboat.json is imported. That import is not part of this model.
- The AIS (VDMVDO) 2D position is left out. It calls the go-ais decoder.
- The source of the aggregate mapper is not part of this model. Its behaviour is modelled from its test. The rule set (plusfive = port + 5, combined = port2 + starboard2) is reconstructed from the test's expected deltas.
- Float64 rounding is not modelled: arithmetic is over the reals, and converting an int64 above 2^53 to float64 does not round.
- Expressions.PressureToHeight: a zero density gives `None`, where Go gives an infinity or NaN.
- CanBus.RawBitsBound: the bound raw < 2^size is stated on 64-bit words. It is not carried into the integer reading. `SignExtend` is therefore defined modulo 2^size and does not depend on the bound.
- Expressions.MergeEnvironments: Go reports one colliding key, whichever its randomised map iteration meets first. The model reports the set of colliding keys and does not say which one the source names.
- Expressions.SwapPointAndComma: strings are modelled as sequences of Unicode code points, so Go's replacement of each invalid UTF-8 byte by U+FFFD in the `[]rune` round trip is not modelled. For such input Go changes the byte length and other bytes, and swapping twice does not give back the input; the model's promises, and `SwapPointAndCommaInvolution`, hold for valid UTF-8 only.
- SignalkNmea.ParseVhw: fewer than 7 fields makes the source panic on a field index. The model returns `TooFewFields`.
- SignalkNmea.ParseVtg: same as `ParseVhw` for fewer than 7 fields.
- The big-endian bit numbering follows the code: `start - 7` with no per-byte bit reversal. The reversal is commented out in the source.

## Findings

| source | as written | input that shows it | evidently intended | confidence | as-written member | corrected member |
|---|---|---|---|---|---|---|
| signalk/mapper/nmea/vtg.go:34-38 | The knots ground speed is present iff field 4 is non-empty, but its value is read from field 2 (the magnetic track) | Fields `["", "T", "", "M", "5.5", "N", "", "K"]`: the speed reads 0 knots instead of 5.5 (`VtgKnotsReadFromWrongField`) | Read the knots value from field 4 | high, not executed | SignalkNmea.ParseVtg | SignalkNmea.ParseVtgCorrected |
| mapper/canbus.go:127-132 | A signed signal is the 64-bit window cast to int64, so a signed signal narrower than 64 bits is never negative | A signed 8-bit signal over byte 0xFF has value 255 instead of -1 (`SignedByteSignals`) | Sign-extend from the signal's own width, two's complement | medium, not executed | CanBus.ExtractSignal | CanBus.ExtractSignalCorrected |

Other notes where the model follows the code rather than the documentation:
- `HeightToVolume` returns 0, not the first volume, below the first tabulated height. It is therefore monotone only from the first tabulated height upwards.
- The aggregate mapper keeps values across deltas, as its test's last entry requires. It does not match each delta on its own.
- `ExtractSignal`, and so the CAN `DoMap`, follow the source as written: a signed signal narrower than 64 bits is not sign-extended. `ExtractSignalCorrected` is the corrected reading; `ExtractSignalsAgree` proves the two equal wherever the top bit of such a signal is clear.
