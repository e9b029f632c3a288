/** Values shared by every service: optional values, results with an error, instants and UUIDs. */
module Base {

  datatype Option<+T> = None | Some(value: T)

  /** A call that either returns a value or raises one of the source's exceptions. */
  datatype Result<+T, +E> = Success(value: T) | Failure(error: E)

  /** A call that returns nothing or raises one of the source's exceptions. */
  datatype Outcome<+E> = Pass | Fail(error: E)

  /** java.time.Instant as a count of nanoseconds since the epoch. */
  type Instant = int

  const NanosPerSecond: int := 1_000_000_000
  const NanosPerMinute: int := 60 * NanosPerSecond
  const NanosPerDay: int := 24 * 60 * NanosPerMinute

  const TwoTo16: nat := 0x1_0000
  const TwoTo32: nat := 0x1_0000_0000
  const TwoTo48: nat := 0x1_0000_0000_0000

  /** java.util.UUID: two 64-bit halves, held here as unsigned values. */
  datatype Uuid = Uuid(msb: nat, lsb: nat)

  /** UUID.fromString, which the model does not reimplement: None stands for IllegalArgumentException. */
  type UuidParser = string -> Option<Uuid>

  predicate ParsesAsUuid(parse: UuidParser, s: string)
  {
    parse(s).Some?
  }

  function HexDigit(d: nat): (c: char)
    requires d < 16
    ensures '0' <= c <= '9' || 'a' <= c <= 'f'
  {
    if d < 10 then '0' + d as char else 'a' + (d - 10) as char
  }

  /** The lowest `width` hexadecimal digits of `v`, most significant first, zero padded. */
  function Hex(v: nat, width: nat): (s: string)
    ensures |s| == width
    ensures forall i :: 0 <= i < |s| ==> s[i] != '-'
    decreases width
  {
    if width == 0 then "" else Hex(v / 16, width - 1) + [HexDigit(v % 16)]
  }

  /** UUID.toString: the canonical 8-4-4-4-12 lower-case form. */
  function UuidToString(u: Uuid): (s: string)
    ensures |s| == 36
    ensures s[8] == '-' && s[13] == '-' && s[18] == '-' && s[23] == '-'
  {
    Hex(u.msb / TwoTo32, 8) + "-" + Hex(u.msb / TwoTo16, 4) + "-" + Hex(u.msb, 4) + "-"
      + Hex(u.lsb / TwoTo48, 4) + "-" + Hex(u.lsb, 12)
  }
}
