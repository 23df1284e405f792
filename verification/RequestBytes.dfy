/** A write request byte by byte: which requests are accepted, and where every byte of the caller's values is in
    what is pushed, with the types and their sizes written out. */
module RequestBytes {
  import opened Bytes
  import opened CaProtocol
  import opened RequestCodec

  /** The types that can be written and the bytes of one value, texts apart. */
  predicate OfSize(t: nat, unit: nat)
  {
    match t
    case 1 => unit == 2
    case 2 => unit == 4
    case 3 => unit == 2
    case 4 => unit == 1
    case 5 => unit == 4
    case 6 => unit == 8
    case 35 => unit == 2
    case 36 => unit == 2
    case _ => false
  }

  /** The bytes the values of a request take: of a single text those up to its end, of several 40 each. */
  predicate TakesBytes(w: Write, size: nat)
  {
    if w.baseType == 0 then
      if w.count == 1 then 0 < size <= |w.payload| && w.payload[size - 1] == 0 && 0 !in w.payload[..size - 1]
      else size == w.count * 40
    else exists unit :: 0 < unit <= 8 && OfSize(w.baseType, unit) && size == w.count * unit
  }

  /** The most that may be said of the size of a request's values. */
  function MostBytes(v49: bool): nat { if v49 then 0xffff_ffff else 16384 - 16 }

  // ----- the bytes in network order

  lemma {:induction false} SwappedAt(b: seq<Byte>, unit: nat, j: nat, at: nat, k: nat)
    requires 0 < unit && k < unit && at == j * unit && at + unit <= |b|
    ensures Swapped(b, unit)[at + k] == b[at + (unit - 1 - k)]
    decreases j
  {
    if j == 0 {
      Nothing(unit);
      FirstSwapped(b, unit);
      assert Swapped(b, unit)[k] == Swapped(b, unit)[..unit][k];
    } else {
      OneBefore(j, unit);
      SwappedAt(b[unit..], unit, j - 1, at - unit, k);
      Behind(b, Swapped(b, unit), unit, at - unit, k);
    }
  }

  lemma Nothing(unit: nat)
    ensures 0 * unit == 0
  {
  }

  lemma OneBefore(j: nat, unit: nat)
    requires j > 0
    ensures j * unit >= unit && (j - 1) * unit == j * unit - unit
  {
    assert j * unit == (j - 1) * unit + unit;
  }

  lemma SwappedBytes(b: seq<Byte>, unit: nat, j: nat, k: nat)
    requires 0 < unit && k < unit && j * unit + unit <= |b|
    ensures Swapped(b, unit)[j * unit + k] == b[j * unit + (unit - 1 - k)]
  {
    SwappedAt(b, unit, j, j * unit, k);
  }

  lemma Behind(b: seq<Byte>, s: seq<Byte>, unit: nat, at: nat, k: nat)
    requires 0 < unit && k < unit && at + 2 * unit <= |b| == |s| && s == Swapped(b, unit)
    requires Swapped(b[unit..], unit)[at + k] == b[unit..][at + (unit - 1 - k)]
    ensures s[at + unit + k] == b[at + unit + (unit - 1 - k)]
  {
    FirstSwapped(b, unit);
    assert s[unit..][at + k] == s[at + unit + k];
  }

  // ----- what is accepted

  predicate Known(t: nat) { t == 0 || exists unit :: 0 < unit <= 8 && OfSize(t, unit) }

  /** A request of a type that is not known is refused as that, whatever its count. */
  lemma KnownExactlyWhen(w: Write, v49: bool)
    requires Readable(w, v49)
    ensures Known(w.baseType) <==> Encode(w, v49) != Err(BadType)
    ensures !Known(w.baseType) ==> Encode(w, v49) == Err(BadType)
  {
    var t := w.baseType;
    if ValueSize(t).Ok? && t != 0 { assert OfSize(t, ValueSize(t).value); }
    if ValueBytes(w, v49).Ok? {
      SizeIsBounded(w, v49);
    } else if Known(t) && t != 0 {
      var unit :| 0 < unit <= 8 && OfSize(t, unit);
      assert ValueSize(t) == Ok(unit);
    }
  }

  /** Otherwise it is accepted exactly when a single text ends within 40 bytes, and the bytes of several values
      leave room for eight more and two values. */
  lemma AcceptedExactlyWhen(w: Write, v49: bool, unit: nat)
    requires Readable(w, v49) && if w.baseType == 0 then unit == 40 else OfSize(w.baseType, unit)
    ensures Encode(w, v49).Ok? <==>
      if w.baseType == 0 && w.count == 1 then 0 in w.payload[..if |w.payload| < 40 then |w.payload| else 40]
      else w.count == 1 || w.count * unit + 8 + 2 * unit <= MostBytes(v49)
    ensures Encode(w, v49).Err? ==> Encode(w, v49) == Err(OutOfBounds)
  {
    assert ValueSize(w.baseType) == Ok(unit);
    if w.baseType == 0 && w.count == 1 {
      TextEnds(w.payload);
    } else if w.count != 1 {
      RoomExactlyWhen(w.count, unit, MostBytes(v49) - 8 - unit);
    }
    if ValueBytes(w, v49).Ok? { HeaderIsAccepted(w, v49); }
  }

  lemma TextEnds(p: seq<Byte>)
    requires TextLength(p) < |p|
    ensures TextLength(p) + 1 <= 40 <==> 0 in p[..if |p| < 40 then |p| else 40]
  {
    var head := p[..if |p| < 40 then |p| else 40];
    if TextLength(p) + 1 <= 40 { assert head[TextLength(p)] == 0; }
    if 0 in head {
      var k :| 0 <= k < |head| && head[k] == 0;
      assert p[k] == 0;
    }
  }

  lemma RoomExactlyWhen(count: nat, unit: nat, bytes: nat)
    requires unit > 0
    ensures count < bytes / unit <==> count * unit + unit <= bytes
  {
    Quotient(bytes, unit);
    var top := bytes / unit;
    assert bytes < (top + 1) * unit by {
      assert bytes == top * unit + bytes % unit;
      assert (top + 1) * unit == top * unit + unit;
    }
    assert (count + 1) * unit == count * unit + unit;
    if count < top { More(count + 1, top, unit); } else { More(top + 1, count + 1, unit); }
  }

  /** An older server, which has only short headers, is never sent a request that needs a long one. */
  lemma HeaderIsAccepted(w: Write, v49: bool)
    requires Readable(w, v49) && ValueBytes(w, v49).Ok?
    ensures Encode(w, v49).Ok?
  {
    SizeIsBounded(w, v49);
    if !v49 { SmallForOldServers(w); }
  }

  lemma SmallForOldServers(w: Write)
    requires w.count >= 1 && ValueBytes(w, false).Ok?
    ensures ValueBytes(w, false).value <= 16384 && w.count <= 16384
    ensures 0 <= AnnouncedSize(Align(ValueBytes(w, false).value), w.stamped) <= 16400
  {
    if w.count != 1 {
      var unit := ValueSize(w.baseType).value;
      RoomExactlyWhen(w.count, unit, MAX_TCP - SHORT - 8 - unit);
      Small(w.count, unit);
    }
  }

  lemma Small(count: nat, unit: nat)
    requires unit > 0
    ensures count <= count * unit
  {
    More(1, unit, count);
    assert unit * count == count * unit && 1 * count == count;
  }

  // ----- what is pushed

  /** The length of the header: a long one, if the announced size or the count needs it. */
  function HeaderBytes(w: Write, size: nat): nat
  {
    if ((size + 7) / 8 * 8 + if w.stamped then 8 else 0) % 0x1_0000_0000 >= 0xffff || w.count >= 0xffff then 24 else 16
  }

  /** What is pushed ends with the values, the timestamp and zeros up to a whole group of eight. */
  lemma PushedParts(w: Write, v49: bool)
    requires Readable(w, v49) && Encode(w, v49).Ok?
    ensures var bytes, size := Encode(w, v49).value, ValueBytes(w, v49).value;
      && |bytes| == HeaderBytes(w, size) + |Payload(w, size)| && bytes[HeaderBytes(w, size)..] == Payload(w, size)
  {
    SizeIsBounded(w, v49);
  }

  /** Byte k of value j, which starts at byte `start` of the caller's, is where the server looks for it, most
      significant byte first. */
  lemma ValuesInNetworkOrder(w: Write, v49: bool, unit: nat, size: nat, j: nat, start: nat, k: nat)
    requires Readable(w, v49) && Encode(w, v49).Ok? && OfSize(w.baseType, unit) && j < w.count && k < unit
    requires size == w.count * unit && start == j * unit
    ensures var bytes, at := Encode(w, v49).value, HeaderBytes(w, size);
      && start + unit <= size <= |w.payload| && at + size <= |bytes|
      && bytes[at + (start + k)] == w.payload[start + (unit - 1 - k)]
  {
    SizeOfValues(w, v49, unit, size);
    ValueInside(w.count, unit, j);
    SwappedBytes(w.payload[..size], unit, j, k);
    PushedAt(w, v49, size, start + k);
  }

  lemma SizeOfValues(w: Write, v49: bool, unit: nat, size: nat)
    requires Readable(w, v49) && OfSize(w.baseType, unit) && size == w.count * unit && Encode(w, v49).Ok?
    ensures ValueBytes(w, v49) == Ok(size) && unit > 0 && ValueSize(w.baseType) == Ok(unit)
  {
    assert w.count == 1 ==> 1 * unit == unit;
  }

  lemma ValueInside(count: nat, unit: nat, j: nat)
    requires j < count
    ensures j * unit + unit <= count * unit
  {
    More(j + 1, count, unit);
    assert (j + 1) * unit == j * unit + unit;
  }

  /** A byte of the values as they are pushed. */
  lemma PushedAt(w: Write, v49: bool, size: nat, i: nat)
    requires Readable(w, v49) && Encode(w, v49).Ok? && ValueBytes(w, v49) == Ok(size) && i < size
    ensures var bytes, at := Encode(w, v49).value, HeaderBytes(w, size);
      size <= |w.payload| && at + size <= |bytes| && bytes[at + i] == InOtherOrder(w.baseType, w.payload[..size])[i]
  {
    PushedParts(w, v49);
    PayloadStarts(w, size, i);
    ByteAt(Encode(w, v49).value, HeaderBytes(w, size), Payload(w, size), i);
  }

  lemma PayloadStarts(w: Write, size: nat, i: nat)
    requires size <= |w.payload| && (w.stamped ==> Align(size) + STAMP <= |w.payload|) && i < size
    ensures Payload(w, size)[i] == Copied(w, size)[i]
  {
  }

  lemma ByteAt(bytes: seq<Byte>, at: nat, p: seq<Byte>, i: nat)
    requires at <= |bytes| && bytes[at..] == p && i < |p|
    ensures at + i < |bytes| && bytes[at + i] == p[i]
  {
  }

  /** Texts go as they are. */
  lemma TextsAsTheyAre(w: Write, v49: bool, size: nat, i: nat)
    requires Readable(w, v49) && Encode(w, v49).Ok? && w.baseType == 0 && TakesBytes(w, size) && i < size
    ensures var bytes, at := Encode(w, v49).value, HeaderBytes(w, size);
      size <= |w.payload| && at + size <= |bytes| && bytes[at + i] == w.payload[i]
  {
    if w.count == 1 { TextSize(w.payload, size); }
    assert ValueBytes(w, v49) == Ok(size);
    PushedAt(w, v49, size, i);
  }

  lemma TextSize(p: seq<Byte>, size: nat)
    requires 0 < size <= |p| && p[size - 1] == 0 && 0 !in p[..size - 1]
    ensures size == TextLength(p) + 1
  {
    forall i | 0 <= i < size - 1 ensures p[i] != 0 { assert p[i] in p[..size - 1]; }
  }

  /** Behind the values come the timestamp, from the next group of eight of the caller's memory, and zeros. */
  lemma StampAndPadding(w: Write, v49: bool, size: nat)
    requires Readable(w, v49) && Encode(w, v49).Ok? && TakesBytes(w, size)
    ensures var bytes, at, top := Encode(w, v49).value, HeaderBytes(w, size), (size + 7) / 8 * 8;
      var end := if w.stamped then at + size + 8 else at + size;
      && |bytes| == at + top + (if w.stamped then 8 else 0) && end <= |bytes|
      && (w.stamped ==> top + 8 <= |w.payload| && bytes[at + size..end] == w.payload[top..top + 8])
      && forall i | end <= i < |bytes| :: bytes[i] == 0
  {
    SizeTaken(w, v49, size);
    PushedParts(w, v49);
    PayloadEnds(w, size);
    var bytes, at := Encode(w, v49).value, HeaderBytes(w, size);
    var end := if w.stamped then size + 8 else size;
    assert bytes[at + size..at + end] == bytes[at..][size..end];
    forall i | at + end <= i < |bytes| ensures bytes[i] == 0 {
      ByteAt(bytes, at, Payload(w, size), i - at);
    }
  }

  lemma PayloadEnds(w: Write, size: nat)
    requires size <= |w.payload| && (w.stamped ==> Align(size) + STAMP <= |w.payload|)
    ensures var p := Payload(w, size);
      var end := if w.stamped then size + 8 else size;
      && (w.stamped ==> p[size..end] == w.payload[Align(size)..Align(size) + 8])
      && forall i | end <= i < |p| :: p[i] == 0
  {
  }

  lemma SizeTaken(w: Write, v49: bool, size: nat)
    requires Readable(w, v49) && Encode(w, v49).Ok? && TakesBytes(w, size)
    ensures ValueBytes(w, v49) == Ok(size)
  {
    if w.baseType == 0 {
      if w.count == 1 { TextSize(w.payload, size); }
    } else {
      var unit :| 0 < unit <= 8 && OfSize(w.baseType, unit) && size == w.count * unit;
      assert ValueSize(w.baseType) == Ok(unit);
      assert w.count == 1 ==> 1 * unit == unit;
    }
  }

  /** The extended header is used only where the short one cannot say the size or the number of values. */
  lemma HeaderIsShortWhenItCan(w: Write, v49: bool, server49: bool, rest: seq<Byte>)
    requires Readable(w, v49) && Encode(w, v49).Ok? && (v49 ==> server49)
    ensures var f := FindHeader(server49, Encode(w, v49).value + rest);
      f.Found? && f.length == if f.header.size < 0xffff && w.count < 0xffff then 16 else 24
  {
    EncodeIsMessage(w, v49);
    HeaderComesBack(server49, MessageOf(w, v49), NeedsAnnex(w, v49), rest);
  }
}
