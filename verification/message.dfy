/** The canonical delta data model (raw input and mapped output messages). */
module Message {

  type Byte = bv8

  /** A UUID as its 16 bytes. */
  type Uuid = seq<Byte>

  /** The all-zero UUID (`uuid.Nil`). */
  const NilUuid: Uuid := [0, 0, 0, 0, 0, 0, 0, 0, 0, 0, 0, 0, 0, 0, 0, 0]

  /** An instant, as nanoseconds since an arbitrary epoch. */
  type Timestamp = int

  /** The protocol type tags stamped on sources. */
  datatype ProtocolType = CanBus | Nmea2000 | Nmea0183 | Modbus | Csv | Json | SignalK | Sygo

  /** A reading as it arrives from a connector. */
  datatype Raw = Raw(connector: string, protocol: ProtocolType, timestamp: Timestamp, payload: seq<Byte>, uuid: Uuid)

  /** A scalar value carried by a path. */
  datatype Datum = Number(x: real) | Text(s: string) | Flag(b: bool)

  datatype Source = Source(sourceLabel: string, protocol: ProtocolType, uuid: Uuid)

  datatype Value = Value(path: string, datum: Datum)

  datatype Update = Update(source: Source, timestamp: Timestamp, values: seq<Value>)

  /** A delta: the subject (`context`), the mapping domain (`origin`) and
      the updates in order. */
  datatype Mapped = Mapped(context: string, origin: string, updates: seq<Update>)
}
