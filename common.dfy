/** Shared vocabulary of the catalogue model: optional values, results,
    identifiers, Go's fixed-width integers and the text codecs the service
    borrows from libraries (UUID and RFC 3339 time handling). */
module Common {

  datatype Option<+T> = None | Some(value: T)

  datatype Result<+T, +E> = Ok(value: T) | Err(error: E)

  /** A UUID. Its 128 bits are opaque to the model; only the all-zero value
      `uuid.Nil` is distinguished. */
  datatype Id = Nil | Uid(bits: nat)

  /** `uuid.New()`: a freshly generated identifier. The seed stands for the
      generator's randomness; whatever it is, the result is never Nil. */
  function NewUuid(seed: nat): (id: Id)
    ensures id != Nil
  {
    Uid(seed)
  }

  /** A point in time (`time.Time`), kept opaque. */
  datatype Timestamp = Timestamp(unixNanos: int)

  /** A book price (`float64`, `decimal(10,2)` in the table), kept opaque;
      only its zero value matters to the model. */
  datatype Price = Price(amount: real)

  const ZeroPrice: Price := Price(0.0)

  const MinInt32: int := -0x8000_0000
  const MaxInt32: int := 0x7fff_ffff
  const MinInt64: int := -0x8000_0000_0000_0000
  const MaxInt64: int := 0x7fff_ffff_ffff_ffff

  type Int32 = x: int | -0x8000_0000 <= x <= 0x7fff_ffff

  /** Go's conversion `int32(n)`: keeps the low 32 bits, two's complement. */
  function WrapInt32(n: int): (r: Int32)
    ensures MinInt32 <= n <= MaxInt32 ==> r == n
    ensures (n - r) % 0x1_0000_0000 == 0
  {
    var low := n % 0x1_0000_0000;
    if low <= MaxInt32 then low else low - 0x1_0000_0000
  }

  /** The library codecs the service relies on, passed in rather than
      re-implemented: `uuid.Parse` (the id, or the text of its error),
      `uuid.UUID.String`, and `time.Parse` / `time.Time.Format` with the
      RFC 3339 layout "2006-01-02T15:04:05Z07:00". */
  datatype Codecs = Codecs(
    parseUuid: string -> Result<Id, string>,
    uuidText: Id -> string,
    parseTime: string -> Option<Timestamp>,
    formatTime: Timestamp -> string)
}
