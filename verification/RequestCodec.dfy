/** The client's encoding of a write request, with the patch that appends a timestamp when bit 15 of the
    type is set, and what the server reads back from it. */
module RequestCodec {
  import opened Bytes
  import opened CaProtocol

  const MAX_STRING_SIZE := 40
  const DBR_STRING := 0
  const DBR_PUT_ACKT := 35
  const DBR_PUT_ACKS := 36
  const LAST_BUFFER_TYPE := 38
  const MAX_TCP := 16384

  datatype Error = BadType | OutOfBounds

  datatype Result<T> = Ok(value: T) | Err(error: Error)

  /** A write: `baseType` is the type without bit 15, `stamped` that bit; `payload` is the caller's
      memory, whose timestamp lies at the aligned end of the values. */
  datatype Write = Write(request: Half, baseType: nat, stamped: bool, count: nat, cid: Word, dependent: Word,
                         payload: seq<Byte>)

  /** The types that have a copy routine, and the size of one value. */
  function ValueSize(t: nat): Result<nat>
  {
    if t == DBR_STRING then Ok(MAX_STRING_SIZE)
    else if t == 1 || t == 3 || t == DBR_PUT_ACKT || t == DBR_PUT_ACKS then Ok(2)
    else if t == 2 || t == 5 then Ok(4)
    else if t == 4 then Ok(1)
    else if t == 6 then Ok(8)
    else Err(BadType)
  }

  function Align(size: nat): (a: nat)
    ensures a % 8 == 0 && size <= a < size + 8
  {
    (size + 7) / 8 * 8
  }

  function TextLength(p: seq<Byte>): (n: nat)
    ensures n <= |p| && (forall k | 0 <= k < n :: p[k] != 0) && (n < |p| ==> p[n] == 0)
  {
    if p == [] || p[0] == 0 then 0 else 1 + TextLength(p[1..])
  }

  /** The number of value bytes the request carries, or why it is refused. */
  function ValueBytes(w: Write, v49: bool): Result<nat>
  {
    if w.baseType > LAST_BUFFER_TYPE then Err(BadType)
    else if w.count == 1 && w.baseType == DBR_STRING then
      var size := TextLength(w.payload) + 1;
      if size > MAX_STRING_SIZE then Err(OutOfBounds) else Ok(size)
    else
      match ValueSize(w.baseType)
      case Err(e) => Err(e)
      case Ok(unit) =>
        var maxBytes := if v49 then 0xffff_ffff else MAX_TCP - SHORT;
        if w.count != 1 && w.count >= (maxBytes - 8 - unit) / unit then Err(OutOfBounds) else Ok(w.count * unit)
  }

  /** Each value with its bytes in the order of the network. */
  function Reversed(b: seq<Byte>): (r: seq<Byte>)
    ensures |r| == |b| && forall k | 0 <= k < |b| :: r[k] == b[|b| - 1 - k]
  {
    seq(|b|, k requires 0 <= k < |b| => b[|b| - 1 - k])
  }

  function Swapped(b: seq<Byte>, unit: nat): (r: seq<Byte>)
    requires 0 < unit
    ensures |r| == |b|
    decreases |b|
  {
    if |b| < unit then b else Reversed(b[..unit]) + Swapped(b[unit..], unit)
  }

  /** Reading the values in network order gives them back. */
  lemma {:induction false} SwappedTwice(b: seq<Byte>, unit: nat)
    requires 0 < unit
    ensures Swapped(Swapped(b, unit), unit) == b
    decreases |b|
  {
    if |b| >= unit {
      SwappedTwice(b[unit..], unit);
      FirstSwapped(b, unit);
      assert Reversed(Reversed(b[..unit])) == b[..unit];
      assert b == b[..unit] + b[unit..];
    }
  }

  lemma {:induction false} FirstSwapped(b: seq<Byte>, unit: nat)
    requires 0 < unit <= |b|
    ensures var r := Swapped(b, unit); r[..unit] == Reversed(b[..unit]) && r[unit..] == Swapped(b[unit..], unit)
  {
  }

  /** The values between the order of the host and that of the network; texts stay as they are. */
  function InOtherOrder(t: nat, b: seq<Byte>): (r: seq<Byte>)
    ensures |r| == |b|
  {
    if t != DBR_STRING && ValueSize(t).Ok? && ValueSize(t).value > 0 then Swapped(b, ValueSize(t).value) else b
  }

  function Copied(w: Write, size: nat): (r: seq<Byte>)
    requires size <= |w.payload|
    ensures |r| == size
  {
    InOtherOrder(w.baseType, w.payload[..size])
  }

  /** The header as it is pushed: the patch adds the timestamp to the announced size, in 32 bits. */
  function AnnouncedSize(payloadSize: nat, stamped: bool): Word
  {
    (if stamped then payloadSize + STAMP else payloadSize) % 0x1_0000_0000
  }

  function RequestHeader(w: Write, payloadSize: nat, v49: bool): Result<seq<Byte>>
    requires w.baseType < 0x8000 && w.count < 0x1_0000_0000
  {
    var size := AnnouncedSize(payloadSize, w.stamped);
    if size < 0xffff && w.count < 0xffff then
      Ok(Be16(w.request) + Be16(size) + Be16(w.baseType) + Be16(w.count) + Be32(w.cid) + Be32(w.dependent))
    else if v49 then
      Ok(Be16(w.request) + Be16(0xffff) + Be16(w.baseType) + Be16(0) + Be32(w.cid) + Be32(w.dependent) + Be32(size)
        + Be32(w.count))
    else Err(OutOfBounds)
  }

  /** What follows the header: the values, the timestamp from the aligned end of the caller's memory,
      and padding. */
  function Payload(w: Write, size: nat): (p: seq<Byte>)
    requires size <= |w.payload| && (w.stamped ==> Align(size) + STAMP <= |w.payload|)
    ensures |p| == Align(size) + if w.stamped then STAMP else 0
  {
    Copied(w, size) + (if w.stamped then w.payload[Align(size)..Align(size) + STAMP] else [])
      + Zeros(Align(size) - size)
  }

  /** The caller's memory holds what is read of it; callers refuse a count of zero, and a text that is
      not terminated within the size of a text. */
  predicate Readable(w: Write, v49: bool)
  {
    && w.count >= 1 && (w.baseType == DBR_STRING ==> TextLength(w.payload) < |w.payload|)
    && var size := ValueBytes(w, v49);
       size.Ok? ==> size.value <= |w.payload| && (w.stamped ==> Align(size.value) + STAMP <= |w.payload|)
  }

  function Encode(w: Write, v49: bool): Result<seq<Byte>>
    requires Readable(w, v49)
  {
    match ValueBytes(w, v49)
    case Err(e) => Err(e)
    case Ok(size) =>
      SizeIsBounded(w, v49);
      match RequestHeader(w, Align(size), v49)
      case Err(e) => Err(e)
      case Ok(header) => Ok(header + Payload(w, size))
  }

  /** An accepted request's values take less than 32 bits can say, and so does their number. */
  lemma SizeIsBounded(w: Write, v49: bool)
    requires ValueBytes(w, v49).Ok? && w.count >= 1
    ensures w.baseType < 0x8000 && w.count < 0x1_0000_0000
    ensures 0 < ValueBytes(w, v49).value < 0xffff_ffff - 8
    ensures ValueSize(w.baseType) == Ok(1) || ValueSize(w.baseType) == Ok(2)
      || ValueBytes(w, v49).value <= 0xffff_ffff - 16
  {
    if w.count != 1 {
      var unit := ValueSize(w.baseType).value;
      var maxBytes := if v49 then 0xffff_ffff else MAX_TCP - SHORT;
      var top := (maxBytes - 8 - unit) / unit;
      Product(w.count, top, unit, maxBytes - 8 - unit);
    }
  }

  lemma Product(count: nat, top: nat, unit: nat, bytes: nat)
    requires 0 < unit && top == bytes / unit && count < top
    ensures count * unit + unit <= bytes && count <= count * unit
  {
    Quotient(bytes, unit);
    More(count + 1, top, unit);
    More(1, unit, count);
    assert (count + 1) * unit == count * unit + unit && unit * count == count * unit;
  }

  lemma Quotient(bytes: nat, unit: nat)
    requires 0 < unit
    ensures (bytes / unit) * unit <= bytes
  {
  }

  lemma More(a: nat, b: nat, u: nat)
    requires a <= b
    ensures a * u <= b * u
  {
    assert b * u == a * u + (b - a) * u;
  }

  /** The one family the header gets wrong: with a timestamp, values that end within eight bytes of the
      last size 32 bits can say. */
  predicate Wraps(w: Write, v49: bool)
  {
    var size := ValueBytes(w, v49);
    w.stamped && size.Ok? && size.value > 0x1_0000_0000 - 16
  }

  /** The encoder accepts some of them. */
  lemma SomeWriteWraps(payload: seq<Byte>)
    requires |payload| >= 0x1_0000_0000
    ensures var w := Write(4, 4, true, 0xffff_fff5, 0, 0, payload);
      Readable(w, true) && Encode(w, true).Ok? && Wraps(w, true)
  {
    Itself(0xffff_fff6);
  }

  lemma Itself(n: nat)
    ensures n / 1 == n && n * 1 == n
  {
  }

  function MessageOf(w: Write, v49: bool): Message
    requires Readable(w, v49) && ValueBytes(w, v49).Ok?
  {
    SizeIsBounded(w, v49);
    var size := ValueBytes(w, v49).value;
    Message(Header(w.request, AnnouncedSize(Align(size), w.stamped), w.baseType, w.count, w.cid, w.dependent),
      Payload(w, size))
  }

  predicate NeedsAnnex(w: Write, v49: bool)
    requires Readable(w, v49) && ValueBytes(w, v49).Ok?
  {
    var m := MessageOf(w, v49);
    m.header.size >= 0xffff || m.header.count >= 0xffff
  }

  lemma EncodeIsMessage(w: Write, v49: bool)
    requires Readable(w, v49) && Encode(w, v49).Ok?
    ensures Encode(w, v49).value == Encoded(MessageOf(w, v49), NeedsAnnex(w, v49)) && (NeedsAnnex(w, v49) ==> v49)
  {
    SizeIsBounded(w, v49);
  }

  /** What the server makes of the values in a body. */
  function ValuesRead(t: nat, body: seq<Byte>, size: nat): seq<Byte>
    requires size <= |body|
  {
    InOtherOrder(t, body[..size])
  }

  /** The values of the caller come back in the order of the host. */
  lemma ValuesComeBack(w: Write, size: nat)
    requires size <= |w.payload| && (w.stamped ==> Align(size) + STAMP <= |w.payload|)
    ensures ValuesRead(w.baseType, Payload(w, size), size) == w.payload[..size]
  {
    var values, t := w.payload[..size], w.baseType;
    assert Payload(w, size)[..size] == Copied(w, size);
    if t != DBR_STRING && ValueSize(t).Ok? && ValueSize(t).value > 0 { SwappedTwice(values, ValueSize(t).value); }
  }

  /** Every request the encoder accepts comes out of the server's decoder as it went in, under either
      header: command, type, count, identifiers, and the values as the caller gave them, in a payload of
      the announced size, a multiple of eight, so it is never rejected as misaligned; except exactly
      where the announced size wraps. */
  lemma DecodesExactlyWhen(w: Write, v49: bool, server49: bool, rest: seq<Byte>)
    requires Readable(w, v49) && Encode(w, v49).Ok? && (v49 ==> server49)
    ensures var e := Encode(w, v49).value;
      var f := FindHeader(server49, e + rest);
      && f.Found? && f.header.cmmd == w.request && f.header.dataType == w.baseType && f.header.count == w.count
      && f.header.cid == w.cid && f.header.available == w.dependent && f.header.size % 8 == 0
      && (f.length + f.header.size == |e| <==> !Wraps(w, v49))
    ensures !Wraps(w, v49) ==>
      var f, size := FindHeader(server49, Encode(w, v49).value + rest), ValueBytes(w, v49).value;
      var body := (Encode(w, v49).value + rest)[f.length..f.length + f.header.size];
      size <= |body| && ValuesRead(w.baseType, body, size) == w.payload[..size]
  {
    SizeIsBounded(w, v49);
    EncodeIsMessage(w, v49);
    AnnouncedExactlyWhen(w, v49);
    var m, annex := MessageOf(w, v49), NeedsAnnex(w, v49);
    HeaderComesBack(server49, m, annex, rest);
    if !Wraps(w, v49) {
      FindsEncoded(server49, m, annex, rest);
      ValuesComeBack(w, ValueBytes(w, v49).value);
    }
  }

  lemma AnnouncedExactlyWhen(w: Write, v49: bool)
    requires Readable(w, v49) && ValueBytes(w, v49).Ok?
    ensures var m := MessageOf(w, v49);
      m.header.size % 8 == 0 && (m.header.size == |m.body| <==> !Wraps(w, v49))
  {
    SizeIsBounded(w, v49);
    AnnouncedIs(ValueBytes(w, v49).value, w.stamped);
  }

  lemma AnnouncedIs(size: nat, stamped: bool)
    requires 0 < size < 0xffff_ffff - 8
    ensures var a := AnnouncedSize(Align(size), stamped);
      && a % 8 == 0
      && (a == Align(size) + (if stamped then STAMP else 0) <==> !(stamped && size > 0x1_0000_0000 - 16))
  {
    var a := Align(size);
    if stamped && size > 0x1_0000_0000 - 16 {
      assert a == 0x1_0000_0000 - 8;
    } else {
      assert stamped ==> a <= 0x1_0000_0000 - 16;
    }
  }

  /** The server's test for a timestamp: the announced size less eight, in unsigned arithmetic, against
      the size of the values. */
  predicate SeesTimestamp(realSize: nat, announced: Word)
  {
    realSize >= (announced - 8) % 0x1_0000_0000
  }

  /** One text goes without the bytes after its end. */
  predicate IsText(w: Write) { w.count == 1 && w.baseType == DBR_STRING }

  /** The size of the values as the server reckons it, from their type and number: a text has the size of
      the longest. */
  function RealSize(w: Write): nat
  {
    if IsText(w) then MAX_STRING_SIZE
    else if ValueSize(w.baseType).Ok? then w.count * ValueSize(w.baseType).value
    else 0
  }

  /** The server's test is right exactly when there is a timestamp and the values are a text or fill whole
      groups of eight bytes: it takes every plain write to carry one. */
  lemma TimestampSeenExactlyWhen(w: Write, v49: bool)
    requires Readable(w, v49) && Encode(w, v49).Ok? && !Wraps(w, v49)
    ensures SeesTimestamp(RealSize(w), MessageOf(w, v49).header.size) == w.stamped
      <==> w.stamped && (IsText(w) || ValueBytes(w, v49).value % 8 == 0)
  {
    SizeIsBounded(w, v49);
    var size := ValueBytes(w, v49).value;
    if IsText(w) { TextSeen(size, w.stamped); } else { SeenWhen(size, w.stamped); }
  }

  lemma SeenWhen(size: nat, stamped: bool)
    requires 0 < size < 0xffff_ffff - 8 && (stamped ==> size <= 0x1_0000_0000 - 16)
    ensures SeesTimestamp(size, AnnouncedSize(Align(size), stamped)) == stamped <==> stamped && size % 8 == 0
  {
    var a := Align(size);
    if stamped {
      assert AnnouncedSize(a, stamped) == a + 8;
    } else {
      assert AnnouncedSize(a, stamped) == a;
    }
  }

  lemma TextSeen(size: nat, stamped: bool)
    requires 0 < size <= MAX_STRING_SIZE
    ensures SeesTimestamp(MAX_STRING_SIZE, AnnouncedSize(Align(size), stamped))
  {
    assert 8 <= Align(size) <= MAX_STRING_SIZE;
  }

  /** The timestamp of the caller follows the values. The server reads it from where the values end by its
      own reckoning: from the right place exactly unless the values are a text shorter than the longest,
      and inside the payload exactly unless they are a text that leaves a whole group of eight bytes. */
  lemma StampReadRightExactlyWhen(w: Write, v49: bool)
    requires Readable(w, v49) && ValueBytes(w, v49).Ok? && w.stamped
    ensures var size := ValueBytes(w, v49).value;
      && Payload(w, size)[size..size + STAMP] == w.payload[Align(size)..Align(size) + STAMP]
      && (RealSize(w) == size <==> !IsText(w) || size == MAX_STRING_SIZE)
      && (RealSize(w) + STAMP <= |Payload(w, size)| <==> !IsText(w) || size > MAX_STRING_SIZE - 8)
  {
    var size := ValueBytes(w, v49).value;
    if IsText(w) { assert size <= 32 <==> Align(size) <= 32; }
  }

  // ----- the encoder as it runs

  class ComQueSend {
    /** The bytes pushed since the last commit; a request that fails is taken back by the caller. */
    var uncommitted: seq<Byte>

    method InsertRequestHeader(w: Write, payloadSize: nat, v49: bool) returns (error: Result<()>)
      requires w.baseType < 0x8000 && w.count < 0x1_0000_0000
      modifies this
      ensures match RequestHeader(w, payloadSize, v49)
        case Ok(header) => error == Ok(()) && uncommitted == old(uncommitted) + header
        case Err(e) => error == Err(e)
    {
      var size := payloadSize % 0x1_0000_0000;
      if w.stamped { size := (payloadSize + STAMP) % 0x1_0000_0000; }
      if size < 0xffff && w.count < 0xffff {
        uncommitted := uncommitted
          + (Be16(w.request) + Be16(size) + Be16(w.baseType) + Be16(w.count) + Be32(w.cid) + Be32(w.dependent));
      } else if v49 {
        uncommitted := uncommitted
          + (Be16(w.request) + Be16(0xffff) + Be16(w.baseType) + Be16(0) + Be32(w.cid) + Be32(w.dependent) + Be32(size)
            + Be32(w.count));
      } else {
        return Err(OutOfBounds);
      }
      error := Ok(());
    }

    method InsertPayload(w: Write, size: nat)
      requires size <= |w.payload| && (w.stamped ==> Align(size) + STAMP <= |w.payload|)
      modifies this
      ensures uncommitted == old(uncommitted) + Payload(w, size)
    {
      var payloadSize, pushed := Align(size), size;
      ghost var before := uncommitted;
      uncommitted := uncommitted + Copied(w, size);
      if w.stamped {
        uncommitted := uncommitted + w.payload[payloadSize..payloadSize + STAMP];
        payloadSize := payloadSize + STAMP;
        pushed := pushed + STAMP;
      }
      var padSize := payloadSize - pushed;
      if padSize > 0 { uncommitted := uncommitted + Zeros(padSize); }
      assert padSize == 0 ==> Zeros(Align(size) - size) == [];
      assert uncommitted == before + Payload(w, size);
    }

    method InsertRequestWithPayLoad(w: Write, v49: bool) returns (error: Result<()>)
      requires Readable(w, v49)
      modifies this
      ensures match Encode(w, v49)
        case Ok(bytes) => error == Ok(()) && uncommitted == old(uncommitted) + bytes
        case Err(e) => error == Err(e)
    {
      var size := ValueBytes(w, v49);
      if size.Err? { return Err(size.error); }
      SizeIsBounded(w, v49);
      ghost var before, header := uncommitted, RequestHeader(w, Align(size.value), v49);
      error := InsertRequestHeader(w, Align(size.value), v49);
      if error.Ok? {
        InsertPayload(w, size.value);
        Rejoin(before, header.value, Payload(w, size.value));
      }
    }
  }

  lemma Rejoin(a: seq<Byte>, b: seq<Byte>, c: seq<Byte>)
    ensures a + b + c == a + (b + c)
  {
  }
}
