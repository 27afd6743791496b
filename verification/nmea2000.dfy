/** The NMEA2000 mapper's packet step: selecting the single-frame or
    fast-packet variant of PGN 130824, handing fast packets to the
    multi-frame builder, and running a completed packet's decoders in
    priority order. The CAN frame parser, the packet constructor, the
    multi-frame builder and the PGN decoders are library code and enter
    as the functions of a `Library`. */
module Nmea2000 {
  import opened Wrappers
  import opened Message

  /** The one PGN that has both a single-frame and a fast-packet variant. */
  const DualVariantPgn: nat := 130824

  /** The parse error recorded when a completed packet has no decoder. */
  const NoMatchingDecoder: string := "no matching decoder"

  /** A catalog definition the packet may be an instance of. */
  datatype PgnInfo = PgnInfo(fast: bool, manId: int)

  /** The frame header facts a packet carries. */
  datatype PacketInfo = PacketInfo(pgn: nat, sourceId: nat, priority: nat)

  /** A PGN decoder, as an index into the decoder catalog. */
  type DecoderId = nat

  /** A packet being assembled: whether it is fast-packet, whether it is
      complete, the errors recorded so far, its candidate definitions, the
      manufacturer code read from it, and the decoders to try. */
  datatype Packet = Packet(
    info: PacketInfo,
    data: seq<Byte>,
    fast: bool,
    complete: bool,
    parseErrors: seq<string>,
    candidates: seq<PgnInfo>,
    manufacturer: int,
    decoders: seq<DecoderId>)

  /** A frame as the CAN library parses it. */
  datatype CanFrame = CanFrame(id: bv32, data: seq<Byte>)

  /** The library functions the mapper calls, with `B` the multi-frame
      builder's state. `multiAdd` adds a packet to the builder, which may
      complete it; `decode` runs one decoder on a packet's data. */
  datatype Library<!B> = Library(
    unmarshal: seq<Byte> -> Option<CanFrame>,
    newPacket: CanFrame -> Packet,
    manCode: seq<Byte> -> int,
    multiAdd: (B, Packet) -> (B, Packet),
    addDecoders: Packet -> seq<DecoderId>,
    decode: (DecoderId, PacketInfo, seq<Byte>) -> Result<string, string>)

  // ---------------------------------------------------------------------------
  // PGN 130824

  /** Whether the candidate scan selects the single-frame variant: a
      non-fast candidate with the packet's manufacturer id is met before
      the first fast candidate. */
  function SlowVariantMatches(cands: seq<PgnInfo>, manufacturer: int): (r: bool)
    ensures r <==> exists i :: 0 <= i < |cands| && !cands[i].fast && cands[i].manId == manufacturer
                                && forall j :: 0 <= j < i ==> !cands[j].fast
    decreases |cands|
  {
    if |cands| == 0 then false
    else if cands[0].fast then false
    else if cands[0].manId == manufacturer then true
    else
      var r := SlowVariantMatches(cands[1..], manufacturer);
      assert r ==> exists i :: 0 <= i < |cands| && !cands[i].fast && cands[i].manId == manufacturer
                                && forall j :: 0 <= j < i ==> !cands[j].fast by {
        if r {
          var i :| 0 <= i < |cands[1..]| && !cands[1..][i].fast && cands[1..][i].manId == manufacturer
                   && forall j :: 0 <= j < i ==> !cands[1..][j].fast;
          assert forall j :: 0 <= j < i + 1 ==> !cands[j].fast by {
            forall j | 0 <= j < i + 1 ensures !cands[j].fast {
              if j > 0 {
                assert cands[j] == cands[1..][j - 1];
              }
            }
          }
        }
      }
      assert (exists i :: 0 <= i < |cands| && !cands[i].fast && cands[i].manId == manufacturer
                           && forall j :: 0 <= j < i ==> !cands[j].fast) ==> r by {
        if exists i :: 0 <= i < |cands| && !cands[i].fast && cands[i].manId == manufacturer
                       && forall j :: 0 <= j < i ==> !cands[j].fast {
          var i :| 0 <= i < |cands| && !cands[i].fast && cands[i].manId == manufacturer
                   && forall j :: 0 <= j < i ==> !cands[j].fast;
          assert i > 0;
          assert cands[1..][i - 1] == cands[i];
        }
      }
      r
  }

  /** Resolves PGN 130824's variant: the packet is first marked fast and
      incomplete with its manufacturer code read; only a matching slow
      candidate ahead of any fast one makes it single-frame and complete. */
  function HandlePgn130824(manCode: seq<Byte> -> int, p: Packet): (q: Packet)
    ensures q.manufacturer == manCode(p.data)
    ensures q.fast != q.complete
    ensures !q.fast <==> SlowVariantMatches(p.candidates, manCode(p.data))
    ensures q == p.(manufacturer := q.manufacturer, fast := q.fast, complete := q.complete)
  {
    var p1 := p.(fast := true, complete := false, manufacturer := manCode(p.data));
    if SlowVariantMatches(p1.candidates, p1.manufacturer) then p1.(fast := false, complete := true) else p1
  }

  // ---------------------------------------------------------------------------
  // The packet step

  /** The outcome of one packet step: the builder's new state, the
      current packet as the step left it, and whether it is handed on. */
  datatype Step<!B> = Step(builder: B, current: Packet, emitted: bool)

  /** The packet step (`process`). */
  function Process<B>(lib: Library<B>, builder: B, p: Packet): (s: Step<B>)
    ensures |p.parseErrors| > 0 ==> s == Step(builder, p, true)
    ensures |p.parseErrors| == 0 ==>
              var p1 := if p.info.pgn == DualVariantPgn then HandlePgn130824(lib.manCode, p) else p;
              && (!p1.fast ==> s == Step(builder, p1.(complete := true, decoders := lib.addDecoders(p1.(complete := true))), true))
              && (p1.fast ==> var (b2, p2) := lib.multiAdd(builder, p1);
                              && s.builder == b2
                              && s.emitted == p2.complete
                              && (p2.complete ==> s.current == p2.(decoders := lib.addDecoders(p2)))
                              && (!p2.complete ==> s.current == p2))
  {
    if |p.parseErrors| > 0 then
      Step(builder, p, true)
    else
      var p1 := if p.info.pgn == DualVariantPgn then HandlePgn130824(lib.manCode, p) else p;
      var (b2, p2) := if p1.fast then lib.multiAdd(builder, p1) else (builder, p1.(complete := true));
      if p2.complete then Step(b2, p2.(decoders := lib.addDecoders(p2)), true)
      else Step(b2, p2, false)
  }

  /** A packet of any PGN other than 130824 that is not fast-packet is
      completed at once, given its decoders and handed on, and the builder
      is not consulted. */
  lemma SingleFramePacketCompletes<B>(lib: Library<B>, builder: B, p: Packet)
    requires |p.parseErrors| == 0 && p.info.pgn != DualVariantPgn && !p.fast
    ensures Process(lib, builder, p).emitted
    ensures Process(lib, builder, p).builder == builder
    ensures Process(lib, builder, p).current.complete
    ensures Process(lib, builder, p).current.decoders == lib.addDecoders(p.(complete := true))
  {
  }

  /** PGN 130824 goes to the multi-frame builder unless the slow variant
      matches, in which case it is complete without the builder. */
  lemma Pgn130824Routing<B>(lib: Library<B>, builder: B, p: Packet)
    requires |p.parseErrors| == 0 && p.info.pgn == DualVariantPgn
    ensures SlowVariantMatches(p.candidates, lib.manCode(p.data)) ==>
              Process(lib, builder, p).emitted && Process(lib, builder, p).builder == builder
              && !Process(lib, builder, p).current.fast
    ensures !SlowVariantMatches(p.candidates, lib.manCode(p.data)) ==>
              var (b2, p2) := lib.multiAdd(builder, HandlePgn130824(lib.manCode, p));
              Process(lib, builder, p).builder == b2 && Process(lib, builder, p).emitted == p2.complete
  {
  }

  // ---------------------------------------------------------------------------
  // Decoders

  /** The outcome of trying a packet's decoders: the errors of those that
      failed, and the position of the first that succeeded, if any. */
  datatype DecodeRun = DecodeRun(errors: seq<string>, decodedBy: Option<nat>)

  /** Tries the decoders in order, recording each failure, and stops at
      the first success. */
  function RunDecoders(decode: (DecoderId, PacketInfo, seq<Byte>) -> Result<string, string>,
                       ds: seq<DecoderId>, info: PacketInfo, data: seq<Byte>): (r: DecodeRun)
    ensures r.decodedBy.Some? ==> r.decodedBy.value < |ds| && decode(ds[r.decodedBy.value], info, data).Ok?
    ensures r.decodedBy.Some? <==> exists i :: 0 <= i < |ds| && decode(ds[i], info, data).Ok?
    ensures var n := if r.decodedBy.Some? then r.decodedBy.value else |ds|;
            && n <= |ds|
            && |r.errors| == n
            && forall j :: 0 <= j < n ==> decode(ds[j], info, data).Err? && r.errors[j] == decode(ds[j], info, data).error
    decreases |ds|
  {
    if |ds| == 0 then DecodeRun([], None)
    else
      match decode(ds[0], info, data)
      case Ok(_) => DecodeRun([], Some(0))
      case Err(e) =>
        var rest := RunDecoders(decode, ds[1..], info, data);
        assert forall i :: 1 <= i < |ds| ==> ds[i] == ds[1..][i - 1];
        DecodeRun([e] + rest.errors, if rest.decodedBy.Some? then Some(rest.decodedBy.value + 1) else None)
  }

  /** The errors a handed-on packet ends up with: each failed decoder's
      error, or the single "no matching decoder" error when it has none. */
  function DecodePacket<B>(lib: Library<B>, p: Packet): (q: Packet)
    ensures q == p.(parseErrors := q.parseErrors)
    ensures |p.decoders| == 0 ==> q.parseErrors == p.parseErrors + [NoMatchingDecoder]
    ensures |p.decoders| > 0 ==>
              q.parseErrors == p.parseErrors + RunDecoders(lib.decode, p.decoders, p.info, p.data).errors
  {
    if |p.decoders| > 0 then
      p.(parseErrors := p.parseErrors + RunDecoders(lib.decode, p.decoders, p.info, p.data).errors)
    else
      p.(parseErrors := p.parseErrors + [NoMatchingDecoder])
  }

  // ---------------------------------------------------------------------------
  // DoMap

  /** The mapper's state: the builder and the last packet it worked on. */
  datatype MapperState<!B> = MapperState(builder: B, current: Option<Packet>)

  /** Maps one raw message: a frame that does not parse is an error and
      changes nothing; any other frame steps the packet state and, when a
      packet is handed on, runs its decoders. No delta is ever produced. */
  function DoMap<B>(lib: Library<B>, st: MapperState<B>, raw: Raw): (r: (MapperState<B>, Result<Option<Mapped>, string>))
    ensures lib.unmarshal(raw.payload).None? ==> r.0 == st && r.1.Err?
    ensures lib.unmarshal(raw.payload).Some? ==> r.1 == Ok(None)
    ensures lib.unmarshal(raw.payload).Some? ==>
              var s := Process(lib, st.builder, lib.newPacket(lib.unmarshal(raw.payload).value));
              && r.0.builder == s.builder
              && r.0.current == Some(if s.emitted then DecodePacket(lib, s.current) else s.current)
  {
    match lib.unmarshal(raw.payload)
    case None => (st, Err("the payload is not a CAN frame"))
    case Some(frm) =>
      var s := Process(lib, st.builder, lib.newPacket(frm));
      var current := if s.emitted then DecodePacket(lib, s.current) else s.current;
      (MapperState(s.builder, Some(current)), Ok(None))
  }
}
