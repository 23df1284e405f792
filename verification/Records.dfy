/** The text-and-binary record the sender writes for one PV: a quoted name, a colon, and then the
    PV's index, type, size, offset, value bytes, timestamp and a two-byte terminator. */
module Records {
  import opened Bytes

  const QUOTE: Byte := 34
  const COLON: Byte := 58
  const SPACE: Byte := 32
  const DOT: Byte := 46
  const LF: Byte := 10
  const CR: Byte := 13
  const PATTERN: seq<Byte> := [QUOTE, COLON, SPACE]
  const PV_NAME_MAX_SIZE := 64

  type Name = seq<Byte>

  datatype Record = Record(name: Name, index: Word, typeId: Byte, offset: Word, data: seq<Byte>, stamp: seq<Byte>)

  /** What the receiver accepts: its number of variables, and its bound on a record's value size
      (eight times the configured array size). */
  datatype Limits = Limits(count: nat, maxSize: Word)

  /** The records the sender can write for a receiver with these limits: the name is a C string
      without a quote or a dot. */
  predicate WellFormed(lim: Limits, r: Record)
  {
    && |r.name| <= PV_NAME_MAX_SIZE
    && QUOTE !in r.name && DOT !in r.name && 0 !in r.name
    && r.index < lim.count
    && |r.data| < lim.maxSize
    && |r.stamp| == 8
  }

  predicate AllWellFormed(lim: Limits, rs: seq<Record>)
  {
    forall i | 0 <= i < |rs| :: WellFormed(lim, rs[i])
  }

  function Header(r: Record): seq<Byte>
    requires |r.data| < 0x1_0000_0000
  {
    Le32(r.index) + [r.typeId] + Le32(|r.data|) + Le32(r.offset)
  }

  function Encode(r: Record): (b: seq<Byte>)
    requires |r.data| < 0x1_0000_0000 && |r.stamp| == 8
    ensures |b| == |r.name| + |r.data| + 27
  {
    [QUOTE] + r.name + PATTERN + Header(r) + r.data + r.stamp + [LF, CR]
  }

  /** The encodings of a list of records, one by one; the stream is their concatenation. */
  function Encodings(lim: Limits, rs: seq<Record>): (es: seq<seq<Byte>>)
    requires AllWellFormed(lim, rs)
    ensures |es| == |rs|
  {
    seq(|rs|, i requires 0 <= i < |rs| => Encode(rs[i]))
  }
}
