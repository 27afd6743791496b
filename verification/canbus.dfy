/** The CAN bus mapper: signal extraction from a frame by a DBC signal
    definition, the (origin, name) table of configured mappings, and the
    per-frame mapping into one delta. DBC file parsing and CAN frame
    string parsing are the libraries' work and enter as parameters. */
module CanBus {
  import opened Wrappers
  import opened Message
  import opened Expressions

  /** A DBC signal definition. Start bit and size are the library's
      unsigned 64-bit fields, so arithmetic on them wraps. */
  datatype SignalDef = SignalDef(
    name: string,
    startBit: bv64,
    size: bv64,
    isBigEndian: bool,
    isSigned: bool,
    factor: real,
    offset: real)

  /** A DBC message definition: its name and its signals in file order. */
  datatype MessageDef = MessageDef(name: string, signals: seq<SignalDef>)

  /** The DBC table, keyed by CAN message id. */
  type Dbc = map<bv32, MessageDef>

  /** A parsed CAN frame. */
  datatype Frame = Frame(id: bv32, data: seq<Byte>)

  /** A signal value tagged with its DBC message name (`origin`) and its
      signal name. */
  datatype Signal = Signal(origin: string, name: string, value: real)

  // ---------------------------------------------------------------------------
  // Bit extraction

  /** The data bytes copied into an 8-byte buffer: at most 8 are taken and
      the rest of the buffer stays zero. */
  function Pad8(d: seq<Byte>): (p: seq<Byte>)
    ensures |p| == 8
    ensures forall i :: 0 <= i < 8 ==> p[i] == (if i < |d| then d[i] else 0)
  {
    if |d| >= 8 then d[..8] else d + seq(8 - |d|, _ => 0)
  }

  /** The 8 bytes read as one big-endian 64-bit word: byte 0 is the most
      significant, byte 7 the least. */
  function BigEndianWord(d: seq<Byte>): (w: bv64)
    requires |d| == 8
    ensures (w >> 56) as bv8 == d[0] && ((w >> 48) & 0xFF) as bv8 == d[1]
    ensures ((w >> 40) & 0xFF) as bv8 == d[2] && ((w >> 32) & 0xFF) as bv8 == d[3]
    ensures ((w >> 24) & 0xFF) as bv8 == d[4] && ((w >> 16) & 0xFF) as bv8 == d[5]
    ensures ((w >> 8) & 0xFF) as bv8 == d[6] && (w & 0xFF) as bv8 == d[7]
  {
    ((d[0] as bv64) << 56) | ((d[1] as bv64) << 48) | ((d[2] as bv64) << 40) | ((d[3] as bv64) << 32) |
    ((d[4] as bv64) << 24) | ((d[5] as bv64) << 16) | ((d[6] as bv64) << 8) | (d[7] as bv64)
  }

  /** The 8 big-endian bytes of a word: the inverse of BigEndianWord. */
  function WordBytes(w: bv64): (d: seq<Byte>)
    ensures |d| == 8
    ensures BigEndianWord(d) == w
  {
    [ ((w >> 56) & 0xFF) as bv8, ((w >> 48) & 0xFF) as bv8, ((w >> 40) & 0xFF) as bv8, ((w >> 32) & 0xFF) as bv8,
      ((w >> 24) & 0xFF) as bv8, ((w >> 16) & 0xFF) as bv8, ((w >> 8) & 0xFF) as bv8, (w & 0xFF) as bv8 ]
  }

  /** Go's `<<` on uint64: a shift by 64 or more yields 0. */
  function Shl(x: bv64, n: bv64): (r: bv64)
    ensures n >= 64 ==> r == 0
  {
    if n >= 64 then 0 else x << n
  }

  /** Go's `>>` on uint64: a shift by 64 or more yields 0. */
  function Shr(x: bv64, n: bv64): (r: bv64)
    ensures n >= 64 ==> r == 0
  {
    if n >= 64 then 0 else x >> n
  }

  /** The start bit after the big-endian adjustment: 7 less, wrapping
      below zero, for big-endian signals; unchanged otherwise. */
  function AdjustedStart(sig: SignalDef): (start: bv64)
    ensures sig.isBigEndian ==> start + 7 == sig.startBit
    ensures !sig.isBigEndian ==> start == sig.startBit
  {
    if sig.isBigEndian then sig.startBit - 7 else sig.startBit
  }

  /** The raw unsigned bits of a signal: the padded frame as a big-endian
      word, shifted left by the start and right by 64 minus the size. A
      window narrower than 64 bits holds fewer than 2^size values. */
  function RawBits(sig: SignalDef, data: seq<Byte>): (raw: bv64)
    ensures sig.size == 0 ==> raw == 0
    ensures AdjustedStart(sig) >= 64 ==> raw == 0
  {
    Shr(Shl(BigEndianWord(Pad8(data)), AdjustedStart(sig)), 64 - sig.size)
  }

  /** A uint64 reinterpreted as an int64 (two's complement): the one
      int64 congruent to it modulo 2^64. */
  function Int64Of(w: bv64): (i: int)
    ensures -0x8000_0000_0000_0000 <= i < 0x8000_0000_0000_0000
    ensures w < 0x8000_0000_0000_0000 ==> i == w as int
    ensures w >= 0x8000_0000_0000_0000 ==> i < 0
  {
    var n := w as int;
    assert 0 <= n < 0x1_0000_0000_0000_0000;
    assert w < 0x8000_0000_0000_0000 <==> n < 0x8000_0000_0000_0000;
    if n < 0x8000_0000_0000_0000 then n else n - 0x1_0000_0000_0000_0000
  }

  /** Int64Of keeps the value modulo 2^64: it is the two's-complement
      reading of the same 64 bits. */
  lemma Int64OfCongruent(w: bv64)
    ensures (Int64Of(w) - w as int) % 0x1_0000_0000_0000_0000 == 0
  {
  }

  /** The signal's raw number before scaling as the source computes it:
      the bits as unsigned, or the whole 64-bit window reinterpreted as an
      int64 for a signed signal, which sign-extends nothing narrower. */
  function RawNumberAsWritten(sig: SignalDef, data: seq<Byte>): (n: int)
    ensures !sig.isSigned ==> n == RawBits(sig, data) as int
    ensures sig.size < 64 ==> n == RawBits(sig, data) as int
    ensures sig.isSigned && sig.size >= 64 ==> n == Int64Of(RawBits(sig, data))
    ensures n < 0 ==> sig.isSigned && sig.size >= 64
  {
    var raw := RawBits(sig, data);
    RawBitsBound(sig, data);
    if !sig.isSigned then raw as int
    else if sig.size < 64 then (ShiftAtMostTop(sig.size); Int64Of(raw))
    else Int64Of(raw)
  }

  function Pow2(n: nat): (p: nat)
    ensures p >= 1
  {
    if n == 0 then 1 else 2 * Pow2(n - 1)
  }

  /** The two's-complement reading of the low `size` bits of `raw`: the
      low bits themselves, less 2^size when the top one is set. */
  function SignExtend(raw: int, size: nat): (v: int)
    requires size > 0
    ensures -(Pow2(size - 1) as int) <= v < Pow2(size - 1)
    ensures v == raw % Pow2(size) || v == raw % Pow2(size) - Pow2(size)
    ensures v < 0 <==> raw % Pow2(size) >= Pow2(size - 1)
  {
    var p, h := Pow2(size), Pow2(size - 1);
    assert p == 2 * h;
    var low := raw % p;
    assert 0 <= low < p;
    if low >= h then low - p else low
  }

  /** The signal's raw number before scaling, with a signed signal of
      fewer than 64 bits read as a two's-complement number of its own
      width. */
  function RawNumber(sig: SignalDef, data: seq<Byte>): (n: int)
    ensures !sig.isSigned ==> n == RawBits(sig, data) as int
    ensures sig.isSigned && (sig.size == 0 || sig.size >= 64) ==> n == RawNumberAsWritten(sig, data)
    ensures sig.isSigned && 0 < sig.size < 64 ==>
              n == SignExtend(RawBits(sig, data) as int, sig.size as int)
  {
    var raw := RawBits(sig, data);
    if sig.isSigned && 0 < sig.size < 64 then SignExtend(raw as int, sig.size as int)
    else RawNumberAsWritten(sig, data)
  }

  /** A raw number scaled by the signal's factor and offset. */
  function Scaled(sig: SignalDef, n: int): real
  {
    n as real * sig.factor + sig.offset
  }

  /** The scaled value of one signal of a frame, as the source computes
      it: every signal narrower than 64 bits, signed or not, scales its
      unsigned raw bits; only a signed window of 64 bits or more is read
      as an int64. */
  function ExtractSignal(sig: SignalDef, origin: string, frm: Frame): (s: Signal)
    ensures s.origin == origin && s.name == sig.name
    ensures !sig.isSigned || sig.size < 64 ==> s.value == Scaled(sig, RawBits(sig, frm.data) as int)
    ensures sig.isSigned && sig.size >= 64 ==> s.value == Scaled(sig, Int64Of(RawBits(sig, frm.data)))
  {
    Signal(origin, sig.name, Scaled(sig, RawNumberAsWritten(sig, frm.data)))
  }

  /** The scaled value of one signal with a signed signal read as a
      two's-complement number of its own width. */
  function ExtractSignalCorrected(sig: SignalDef, origin: string, frm: Frame): (s: Signal)
    ensures s.origin == origin && s.name == sig.name
    ensures !sig.isSigned ==> s.value == Scaled(sig, RawBits(sig, frm.data) as int)
    ensures sig.isSigned && 0 < sig.size < 64 ==>
              s.value == Scaled(sig, SignExtend(RawBits(sig, frm.data) as int, sig.size as int))
    ensures sig.isSigned && (sig.size == 0 || sig.size >= 64) ==> s == ExtractSignal(sig, origin, frm)
  {
    Signal(origin, sig.name, Scaled(sig, RawNumber(sig, frm.data)))
  }

  /** A window of fewer than 64 bits yields a number below 2^size; a
      zero-size window yields 0. */
  lemma WindowBound(w: bv64, start: bv64, size: bv64)
    ensures size < 64 ==> Shr(Shl(w, start), 64 - size) < (1 as bv64) << size
    ensures size == 0 ==> Shr(Shl(w, start), 64 - size) == 0
  {
  }

  /** A window of fewer than 64 bits holds a number below 2^size. */
  lemma RawBitsBound(sig: SignalDef, data: seq<Byte>)
    ensures sig.size < 64 ==> RawBits(sig, data) < (1 as bv64) << sig.size
  {
    WindowBound(BigEndianWord(Pad8(data)), AdjustedStart(sig), sig.size);
  }

  lemma ShiftAtMostTop(n: bv64)
    requires n < 64
    ensures (1 as bv64) << n <= 0x8000_0000_0000_0000
  {
  }

  /** A signed 8-bit signal over the byte 0xFF: as written it reads 255;
      as a two's-complement 8-bit number it reads -1. */
  lemma SignedByteNotSignExtended()
    ensures var sig := SignalDef("s8", 0, 8, false, true, 1.0, 0.0);
            && RawNumberAsWritten(sig, [0xFF]) == 255
            && RawNumber(sig, [0xFF]) == -1
  {
    var sig := SignalDef("s8", 0, 8, false, true, 1.0, 0.0);
    assert Pad8([0xFF]) == [0xFF, 0, 0, 0, 0, 0, 0, 0];
    assert RawBits(sig, [0xFF]) == 0xFF;
    assert Pow2(8) == 256 && Pow2(7) == 128;
  }

  /** The two readings differ only where the source's is wrong: for a
      signed signal narrower than 64 bits whose top bit is clear, both give
      the raw bits. */
  lemma RawNumberAgreesWhenTopBitClear(sig: SignalDef, data: seq<Byte>)
    requires sig.isSigned && 0 < sig.size < 64
    requires RawBits(sig, data) as int < Pow2(sig.size as int - 1)
    ensures RawNumber(sig, data) == RawNumberAsWritten(sig, data) == RawBits(sig, data) as int
  {
    SignExtendSmall(RawBits(sig, data) as int, sig.size as int);
  }

  /** The same at the level of the scaled signal: the source's value and
      the corrected one agree whenever the top bit of a narrow signed
      signal is clear, and for every unsigned signal. */
  lemma ExtractSignalsAgree(sig: SignalDef, origin: string, frm: Frame)
    requires !sig.isSigned || sig.size == 0 || sig.size >= 64
             || RawBits(sig, frm.data) as int < Pow2(sig.size as int - 1)
    ensures ExtractSignalCorrected(sig, origin, frm) == ExtractSignal(sig, origin, frm)
  {
    if sig.isSigned && 0 < sig.size < 64 {
      RawNumberAgreesWhenTopBitClear(sig, frm.data);
    }
  }

  /** The scaled signal over the byte 0xFF: 255 as written, -1 corrected. */
  lemma SignedByteSignals()
    ensures var sig := SignalDef("s8", 0, 8, false, true, 1.0, 0.0);
            && ExtractSignal(sig, "m", Frame(1, [0xFF])).value == 255.0
            && ExtractSignalCorrected(sig, "m", Frame(1, [0xFF])).value == -1.0
  {
    SignedByteNotSignExtended();
  }

  lemma SignExtendSmall(raw: int, size: nat)
    requires size > 0 && 0 <= raw < Pow2(size - 1)
    ensures SignExtend(raw, size) == raw
  {
    var p := Pow2(size);
    assert p == 2 * Pow2(size - 1);
    ModSmall(raw, p);
  }

  lemma ModSmall(a: int, b: int)
    requires 0 <= a < b
    ensures a % b == a
  {
  }

  /** A big-endian signal whose start bit is below 7 wraps its start past
      63: its raw bits are 0 and its value is just the offset. */
  lemma BigEndianLowStartIsOffset(sig: SignalDef, origin: string, frm: Frame)
    requires sig.isBigEndian && sig.startBit < 7
    ensures RawBits(sig, frm.data) == 0
    ensures ExtractSignal(sig, origin, frm).value == sig.offset
  {
    assert AdjustedStart(sig) >= 64;
  }

  /** Known vectors: the byte 0x34 in the second data byte, read as an
      8-bit little-endian signal at start bit 8, and as an 8-bit big-endian
      signal at start bit 15 (adjusted to 8). */
  lemma KnownVectors()
    ensures RawBits(SignalDef("le", 8, 8, false, false, 1.0, 0.0), [0x12, 0x34]) == 0x34
    ensures RawBits(SignalDef("be", 15, 8, true, false, 1.0, 0.0), [0x12, 0x34]) == 0x34
    ensures RawNumber(SignalDef("all", 0, 64, false, true, 1.0, 0.0), [0xFF, 0xFF, 0xFF, 0xFF, 0xFF, 0xFF, 0xFF, 0xFF]) == -1
  {
    assert Pad8([0x12, 0x34]) == [0x12, 0x34, 0, 0, 0, 0, 0, 0];
    assert Pad8([0xFF, 0xFF, 0xFF, 0xFF, 0xFF, 0xFF, 0xFF, 0xFF]) == [0xFF, 0xFF, 0xFF, 0xFF, 0xFF, 0xFF, 0xFF, 0xFF];
  }

  /** The first bit (counted from the most significant) of byte k of the
      8-byte window: 8k. */
  function ByteStart(k: nat): (b: bv64)
    requires k < 8
  {
    if k == 0 then 0 else if k == 1 then 8 else if k == 2 then 16 else if k == 3 then 24
    else if k == 4 then 32 else if k == 5 then 40 else if k == 6 then 48 else 56
  }

  lemma WordByte(p: seq<Byte>, k: nat)
    requires |p| == 8 && k < 8
    ensures (BigEndianWord(p) << ByteStart(k)) >> 56 == p[k] as bv64
  {
    if k < 4 {
      WordByteHigh(p, k);
    } else {
      WordByteLow(p, k);
    }
  }

  /** Bytes 0 to 3 of the word. */
  lemma WordByteHigh(p: seq<Byte>, k: nat)
    requires |p| == 8 && k < 4
    ensures (BigEndianWord(p) << ByteStart(k)) >> 56 == p[k] as bv64
  {
    var w := BigEndianWord(p);
    if k == 0 {
      assert (w << 0) >> 56 == p[0] as bv64;
    } else if k == 1 {
      assert (w << 8) >> 56 == p[1] as bv64;
    } else if k == 2 {
      assert (w << 16) >> 56 == p[2] as bv64;
    } else {
      assert (w << 24) >> 56 == p[3] as bv64;
    }
  }

  /** Bytes 4 to 7 of the word. */
  lemma WordByteLow(p: seq<Byte>, k: nat)
    requires |p| == 8 && 4 <= k < 8
    ensures (BigEndianWord(p) << ByteStart(k)) >> 56 == p[k] as bv64
  {
    var w := BigEndianWord(p);
    if k == 4 {
      assert (w << 32) >> 56 == p[4] as bv64;
    } else if k == 5 {
      assert (w << 40) >> 56 == p[5] as bv64;
    } else if k == 6 {
      assert (w << 48) >> 56 == p[6] as bv64;
    } else {
      assert (w << 56) >> 56 == p[7] as bv64;
    }
  }

  /** A whole-byte signal reads exactly that byte of the padded frame: an
      8-bit little-endian signal at start bit 8k, and an 8-bit big-endian
      signal at start bit 8k+7 (the byte's top bit, adjusted by 7). */
  lemma ByteAlignedSignal(sig: SignalDef, data: seq<Byte>, k: nat)
    requires k < 8 && sig.size == 8
    requires sig.startBit == (if sig.isBigEndian then ByteStart(k) + 7 else ByteStart(k))
    ensures RawBits(sig, data) == Pad8(data)[k] as bv64
  {
    var p := Pad8(data);
    AdjustedByteStart(sig, k);
    WindowOfByte(BigEndianWord(p), AdjustedStart(sig), sig.size);
    WordByte(p, k);
  }

  /** The scaled value of a whole-byte signal is that byte, scaled,
      whether the signal is signed or not: the source never sign-extends
      a signal narrower than 64 bits. */
  lemma ByteAlignedSignalValue(sig: SignalDef, origin: string, frm: Frame, k: nat)
    requires k < 8 && sig.size == 8
    requires sig.startBit == (if sig.isBigEndian then ByteStart(k) + 7 else ByteStart(k))
    ensures ExtractSignal(sig, origin, frm).value == Scaled(sig, Pad8(frm.data)[k] as int)
  {
    ByteAlignedSignal(sig, frm.data, k);
  }

  lemma AdjustedByteStart(sig: SignalDef, k: nat)
    requires k < 8
    requires sig.startBit == (if sig.isBigEndian then ByteStart(k) + 7 else ByteStart(k))
    ensures AdjustedStart(sig) == ByteStart(k) && ByteStart(k) < 64
  {
  }

  lemma WindowOfByte(w: bv64, start: bv64, size: bv64)
    requires start < 64 && size == 8
    ensures Shr(Shl(w, start), 64 - size) == (w << start) >> 56
  {
  }

  // ---------------------------------------------------------------------------
  // Mapper construction

  /** One configured CAN mapping: the DBC message name (`origin`) and
      signal name it applies to, the target path and its expression. */
  datatype CanBusMappingConfig = CanBusMappingConfig(origin: string, name: string, path: string, mapping: MappingConfig)

  function Key(m: CanBusMappingConfig): (string, string) {
    (m.origin, m.name)
  }

  type MappingTable = map<(string, string), CanBusMappingConfig>

  /** The last position at which `k` is configured, or -1 when it is not
      configured at all. */
  function LastIndex(cmc: seq<CanBusMappingConfig>, k: (string, string)): (i: int)
    ensures -1 <= i < |cmc|
    ensures i == -1 <==> forall j :: 0 <= j < |cmc| ==> Key(cmc[j]) != k
    ensures i >= 0 ==> Key(cmc[i]) == k
    ensures forall j :: i < j < |cmc| ==> Key(cmc[j]) != k
    decreases |cmc|
  {
    if |cmc| == 0 then -1
    else if Key(cmc[|cmc| - 1]) == k then |cmc| - 1
    else
      var init := cmc[..|cmc| - 1];
      assert forall j :: 0 <= j < |init| ==> init[j] == cmc[j];
      LastIndex(init, k)
  }

  /** The lookup table built from the configured mappings in order: a key
      is present iff some entry has it, and it holds the last such entry. */
  function BuildMappings(cmc: seq<CanBusMappingConfig>): (t: MappingTable)
    ensures forall k :: k in t <==> LastIndex(cmc, k) >= 0
    ensures forall k :: k in t ==> t[k] == cmc[LastIndex(cmc, k)]
    decreases |cmc|
  {
    if |cmc| == 0 then map[]
    else
      var init := cmc[..|cmc| - 1];
      var last := cmc[|cmc| - 1];
      assert forall k :: Key(last) != k ==> LastIndex(cmc, k) == LastIndex(init, k);
      BuildMappings(init)[Key(last) := last]
  }

  /** A later entry with the same key replaces the earlier one; every
      other entry is kept. */
  lemma BuildMappingsLastWins(cmc: seq<CanBusMappingConfig>, m: CanBusMappingConfig)
    ensures Key(m) in BuildMappings(cmc + [m]) && BuildMappings(cmc + [m])[Key(m)] == m
    ensures forall k :: k != Key(m) ==> (k in BuildMappings(cmc + [m]) <==> k in BuildMappings(cmc))
    ensures forall k :: k != Key(m) && k in BuildMappings(cmc) ==> BuildMappings(cmc + [m])[k] == BuildMappings(cmc)[k]
  {
    var c' := cmc + [m];
    assert c'[..|c'| - 1] == cmc;
    forall k | k != Key(m)
      ensures LastIndex(c', k) == LastIndex(cmc, k)
    {
    }
  }

  datatype CanBusMapperConfig = CanBusMapperConfig(context: string, dbcFile: string)

  datatype CanBusMapper = CanBusMapper(config: CanBusMapperConfig, dbc: Dbc, mappings: MappingTable)

  /** Builds the mapper from its configuration, the outcome of reading the
      DBC file, and the configured mappings: every configured (origin,
      name) key is present and holds the last entry configured for it. */
  function NewCanBusMapper(c: CanBusMapperConfig, readDbc: Result<Dbc, string>, cmc: seq<CanBusMappingConfig>): (r: Result<CanBusMapper, string>)
    ensures readDbc.Err? <==> r.Err?
    ensures r.Ok? ==> r.value.config == c && r.value.dbc == readDbc.value
    ensures r.Ok? ==> forall i :: 0 <= i < |cmc| ==> Key(cmc[i]) in r.value.mappings
    ensures r.Ok? ==> forall k :: k in r.value.mappings ==>
              var i := LastIndex(cmc, k);
              && 0 <= i < |cmc| && r.value.mappings[k] == cmc[i]
              && forall j :: i < j < |cmc| ==> Key(cmc[j]) != k
  {
    match readDbc
    case Err(e) => Err(e)
    case Ok(db) =>
      var t := BuildMappings(cmc);
      assert forall i :: 0 <= i < |cmc| ==> LastIndex(cmc, Key(cmc[i])) >= 0;
      Ok(CanBusMapper(c, db, t))
  }

  // ---------------------------------------------------------------------------
  // Mapping a frame

  /** The environment a mapping expression of a signal runs in: the
      built-ins plus `value`. */
  function SignalEnvironment(value: real): (env: Environment)
    ensures env.Keys == BaseEnvironment.Keys + {"value"}
    ensures env["value"] == Num(value)
  {
    BaseEnvironment["value" := Num(value)]
  }

  /** The value one signal contributes: none when no mapping is configured
      for it or its expression fails; otherwise the expression's output at
      the mapping's path. */
  function MapSignal(mappings: MappingTable, run: Program, s: Signal): (vs: seq<Value>)
    ensures |vs| <= 1
    ensures (s.origin, s.name) !in mappings ==> vs == []
    ensures |vs| == 1 ==> (s.origin, s.name) in mappings && vs[0].path == mappings[(s.origin, s.name)].path
    ensures |vs| == 1 ==> RunExpr(run, SignalEnvironment(s.value), mappings[(s.origin, s.name)].mapping) == Ok(vs[0].datum)
    ensures (s.origin, s.name) in mappings ==>
              (vs == [] <==> RunExpr(run, SignalEnvironment(s.value), mappings[(s.origin, s.name)].mapping).Err?)
  {
    if (s.origin, s.name) in mappings then
      var m := mappings[(s.origin, s.name)];
      match RunExpr(run, SignalEnvironment(s.value), m.mapping)
      case Ok(out) => [Value(m.path, out)]
      case Err(_) => []
    else []
  }

  /** The values of a matched DBC message's signals, in signal order. */
  function MapSignals(mappings: MappingTable, run: Program, msg: MessageDef, sigs: seq<SignalDef>, frm: Frame): (vs: seq<Value>)
    ensures |vs| <= |sigs|
    ensures forall v :: v in vs ==> exists m :: m in mappings.Values && v.path == m.path
    decreases |sigs|
  {
    if |sigs| == 0 then []
    else
      var first := MapSignal(mappings, run, ExtractSignal(sigs[0], msg.name, frm));
      assert |first| == 1 ==> mappings[(msg.name, sigs[0].name)] in mappings.Values;
      first + MapSignals(mappings, run, msg, sigs[1..], frm)
  }

  /** The values of `xs`, each mapped by `f`, concatenated in order. */
  function FlatMap<T, U>(f: T -> seq<U>, xs: seq<T>): seq<U>
    decreases |xs|
  {
    if |xs| == 0 then [] else f(xs[0]) + FlatMap(f, xs[1..])
  }

  lemma {:induction false} FlatMapAppend<T, U>(f: T -> seq<U>, a: seq<T>, b: seq<T>)
    ensures FlatMap(f, a + b) == FlatMap(f, a) + FlatMap(f, b)
    decreases |a|
  {
    if |a| == 0 {
      assert a + b == b;
    } else {
      assert (a + b)[0] == a[0];
      assert (a + b)[1..] == a[1..] + b;
      FlatMapAppend(f, a[1..], b);
    }
  }

  /** The signal loop maps each signal on its own and concatenates. */
  lemma {:induction false} MapSignalsIsFlatMap(mappings: MappingTable, run: Program, msg: MessageDef, sigs: seq<SignalDef>, frm: Frame)
    ensures MapSignals(mappings, run, msg, sigs, frm)
            == FlatMap((sig: SignalDef) => MapSignal(mappings, run, ExtractSignal(sig, msg.name, frm)), sigs)
    decreases |sigs|
  {
    if |sigs| > 0 {
      MapSignalsIsFlatMap(mappings, run, msg, sigs[1..], frm);
    }
  }

  /** Each signal maps independently: the values of a concatenation are the
      values of the parts, concatenated in order. */
  lemma MapSignalsAppend(mappings: MappingTable, run: Program, msg: MessageDef, a: seq<SignalDef>, b: seq<SignalDef>, frm: Frame)
    ensures MapSignals(mappings, run, msg, a + b, frm)
            == MapSignals(mappings, run, msg, a, frm) + MapSignals(mappings, run, msg, b, frm)
  {
    var f := (sig: SignalDef) => MapSignal(mappings, run, ExtractSignal(sig, msg.name, frm));
    MapSignalsIsFlatMap(mappings, run, msg, a + b, frm);
    MapSignalsIsFlatMap(mappings, run, msg, a, frm);
    MapSignalsIsFlatMap(mappings, run, msg, b, frm);
    FlatMapAppend(f, a, b);
  }

  /** A signal with no configured mapping contributes nothing, wherever it
      stands among the others. */
  lemma UnmappedSignalSkipped(mappings: MappingTable, run: Program, msg: MessageDef, a: seq<SignalDef>, s: SignalDef, b: seq<SignalDef>, frm: Frame)
    requires (msg.name, s.name) !in mappings
    ensures MapSignals(mappings, run, msg, a + [s] + b, frm)
            == MapSignals(mappings, run, msg, a, frm) + MapSignals(mappings, run, msg, b, frm)
  {
    var left := a + [s];
    MapSignalsAppend(mappings, run, msg, left, b, frm);
    MapSignalsAppend(mappings, run, msg, a, [s], frm);
    assert MapSignals(mappings, run, msg, [s], frm) == [] by {
      assert [s][1..] == [];
      assert MapSignal(mappings, run, ExtractSignal(s, msg.name, frm)) == [];
    }
    assert MapSignals(mappings, run, msg, left, frm) == MapSignals(mappings, run, msg, a, frm);
  }

  /** Maps one raw CAN message. A frame that does not parse is an error and
      yields no message; otherwise the result is one delta with exactly one
      update, empty when the frame id has no DBC entry. */
  function DoMap(m: CanBusMapper, raw: Raw, parseFrame: seq<Byte> -> Option<Frame>, run: Program): (r: Result<Mapped, string>)
    ensures parseFrame(raw.payload).None? <==> r.Err?
    ensures r.Ok? ==> && r.value.context == m.config.context
                      && r.value.origin == m.config.context
                      && |r.value.updates| == 1
                      && r.value.updates[0].source == Source(raw.connector, CanBus, raw.uuid)
                      && r.value.updates[0].timestamp == raw.timestamp
    ensures r.Ok? && parseFrame(raw.payload).value.id !in m.dbc ==> r.value.updates[0].values == []
    ensures r.Ok? && parseFrame(raw.payload).value.id in m.dbc ==>
              var msg := m.dbc[parseFrame(raw.payload).value.id];
              r.value.updates[0].values == MapSignals(m.mappings, run, msg, msg.signals, parseFrame(raw.payload).value)
  {
    var src := Source(raw.connector, CanBus, raw.uuid);
    match parseFrame(raw.payload)
    case None => Err("the payload is not a CAN frame")
    case Some(frm) =>
      var values :=
        if frm.id in m.dbc then
          var msg := m.dbc[frm.id];
          MapSignals(m.mappings, run, msg, msg.signals, frm)
        else [];
      Ok(Mapped(m.config.context, m.config.context, [Update(src, raw.timestamp, values)]))
  }
}
