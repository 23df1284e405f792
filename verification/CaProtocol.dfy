/** The messages of the Channel Access protocol: a header of sixteen bytes, most significant byte
    first, with an annex for large sizes and counts, and a body. */
module CaProtocol {
  import opened Bytes

  const SHORT := 16
  const ANNEX := 8
  const EXTENDED: Half := 0xffff

  datatype Header = Header(cmmd: Half, size: Word, dataType: Half, count: Word, cid: Word, available: Word)

  function ShortHeader(b: seq<Byte>): Header
    requires |b| == SHORT
  {
    Header(FromBe16(b[0..2]), FromBe16(b[2..4]), FromBe16(b[4..6]), FromBe16(b[6..8]), FromBe32(b[8..12]),
      FromBe32(b[12..16]))
  }

  function WithAnnex(h: Header, b: seq<Byte>): Header
    requires |b| == ANNEX
  {
    h.(size := FromBe32(b[0..4]), count := FromBe32(b[4..8]))
  }

  datatype Found = NotYet | Found(header: Header, length: nat)

  /** The header at the head of the bytes, once it is complete; `v49` says whether the sender may
      have used the annex. */
  function FindHeader(v49: bool, p: seq<Byte>): (r: Found)
    ensures r.Found? ==> SHORT <= r.length <= |p|
  {
    if |p| < SHORT then NotYet
    else
      var h := ShortHeader(p[..SHORT]);
      if !v49 || h.size != EXTENDED as int then Found(h, SHORT)
      else if |p| < SHORT + ANNEX then NotYet
      else Found(WithAnnex(h, p[SHORT..SHORT + ANNEX]), SHORT + ANNEX)
  }

  lemma HeaderStays(v49: bool, p: seq<Byte>, q: seq<Byte>)
    requires FindHeader(v49, p).Found? && p <= q
    ensures FindHeader(v49, q) == FindHeader(v49, p)
  {
    assert q[..SHORT] == p[..SHORT];
    if |p| >= SHORT + ANNEX { assert q[SHORT..SHORT + ANNEX] == p[SHORT..SHORT + ANNEX]; }
  }

  datatype Message = Message(header: Header, body: seq<Byte>)

  /** The message under either header; the short one cannot say large sizes or counts. */
  function Encoded(r: Message, extended: bool): seq<Byte>
    requires extended || (r.header.size < EXTENDED as int && r.header.count < 0x1_0000)
  {
    var h := r.header;
    if extended then
      Be16(h.cmmd) + Be16(EXTENDED) + Be16(h.dataType) + Be16(0) + Be32(h.cid) + Be32(h.available)
        + (Be32(h.size) + Be32(h.count)) + r.body
    else
      Be16(h.cmmd) + Be16(h.size) + Be16(h.dataType) + Be16(h.count) + Be32(h.cid) + Be32(h.available) + r.body
  }

  function HeaderLength(extended: bool): nat { if extended then SHORT + ANNEX else SHORT }

  /** A message as the protocol wants it: the body has the announced size, a multiple of eight. */
  predicate GoodMessage(r: Message, extended: bool)
  {
    |r.body| == r.header.size && r.header.size % 8 == 0
      && (extended || (r.header.size < EXTENDED as int && r.header.count < 0x1_0000))
  }

  predicate GoodMessages(rs: seq<Message>, extended: seq<bool>)
  {
    |rs| == |extended| && forall i | 0 <= i < |rs| :: GoodMessage(rs[i], extended[i])
  }

  lemma Past(e: seq<Byte>, rest: seq<Byte>)
    ensures (e + rest)[|e|..] == rest
  {
  }

  lemma JoinsTo(a: seq<Message>, b: seq<Message>, c: seq<Message>)
    ensures a + (b + c) == a + b + c
  {
  }

  function Wire(rs: seq<Message>, extended: seq<bool>): seq<Byte>
    requires GoodMessages(rs, extended)
  {
    if rs == [] then [] else Encoded(rs[0], extended[0]) + Wire(rs[1..], extended[1..])
  }

  lemma Be16RoundTrip(h: Half)
    ensures FromBe16(Be16(h)) == h
  {
  }

  lemma ShortIs(a: Half, b: Half, t: Half, n: Half, cid: Word, available: Word, rest: seq<Byte>)
    ensures var p := Be16(a) + Be16(b) + Be16(t) + Be16(n) + Be32(cid) + Be32(available) + rest;
      |p| == SHORT + |rest| && ShortHeader(p[..SHORT]) == Header(a, b, t, n, cid, available) && p[SHORT..] == rest
  {
    var p := Be16(a) + Be16(b) + Be16(t) + Be16(n) + Be32(cid) + Be32(available) + rest;
    var q := p[..SHORT];
    assert q[0..2] == Be16(a) && q[2..4] == Be16(b) && q[4..6] == Be16(t) && q[6..8] == Be16(n);
    assert q[8..12] == Be32(cid) && q[12..16] == Be32(available);
    Be16RoundTrip(a); Be16RoundTrip(b); Be16RoundTrip(t); Be16RoundTrip(n);
    Be32RoundTrip(cid); Be32RoundTrip(available);
  }

  lemma AnnexIs(size: Word, count: Word, rest: seq<Byte>)
    ensures var p := Be32(size) + Be32(count) + rest;
      && |p| == ANNEX + |rest| && p[ANNEX..] == rest
      && FromBe32(p[..ANNEX][0..4]) == size && FromBe32(p[..ANNEX][4..8]) == count
  {
    var p := Be32(size) + Be32(count) + rest;
    assert p[..ANNEX][0..4] == Be32(size) && p[..ANNEX][4..8] == Be32(count);
    Be32RoundTrip(size); Be32RoundTrip(count);
  }

  lemma Regrouped(a: seq<Byte>, b: seq<Byte>, c: seq<Byte>)
    ensures a + b + c == a + (b + c)
  {
  }

  lemma ShortComesBack(v49: bool, m: Message, rest: seq<Byte>)
    requires m.header.size < EXTENDED as int && m.header.count < 0x1_0000
    ensures var p := Encoded(m, false) + rest;
      && |Encoded(m, false)| == SHORT + |m.body| && FindHeader(v49, p) == Found(m.header, SHORT)
        && p[SHORT..] == m.body + rest
  {
    var h := m.header;
    ShortIs(h.cmmd, h.size, h.dataType, h.count, h.cid, h.available, m.body + rest);
    Regrouped(Be16(h.cmmd) + Be16(h.size) + Be16(h.dataType) + Be16(h.count) + Be32(h.cid) + Be32(h.available), m.body,
      rest);
  }

  lemma ExtendedComesBack(m: Message, rest: seq<Byte>)
    ensures var p := Encoded(m, true) + rest;
      && |Encoded(m, true)| == SHORT + ANNEX + |m.body| && FindHeader(true, p) == Found(m.header, SHORT + ANNEX)
      && p[SHORT + ANNEX..] == m.body + rest
  {
    var h, p := m.header, Encoded(m, true) + rest;
    var annex := Be32(h.size) + Be32(h.count) + (m.body + rest);
    AnnexIs(h.size, h.count, m.body + rest);
    ShortIs(h.cmmd, EXTENDED, h.dataType, 0, h.cid, h.available, annex);
    assert p == Be16(h.cmmd) + Be16(EXTENDED) + Be16(h.dataType) + Be16(0) + Be32(h.cid) + Be32(h.available) + annex;
    assert p[SHORT..SHORT + ANNEX] == annex[..ANNEX];
    assert p[SHORT + ANNEX..] == annex[ANNEX..];
  }

  /** The header comes back, under either form and whatever follows it. */
  lemma HeaderComesBack(v49: bool, m: Message, extended: bool, rest: seq<Byte>)
    requires extended || (m.header.size < EXTENDED as int && m.header.count < 0x1_0000)
    requires extended ==> v49
    ensures var e, length := Encoded(m, extended), HeaderLength(extended);
      && |e| == length + |m.body| && FindHeader(v49, e + rest) == Found(m.header, length)
        && (e + rest)[length..] == m.body + rest
  {
    if extended { ExtendedComesBack(m, rest); } else { ShortComesBack(v49, m, rest); }
  }

  /** The receiver finds in the encoding the header and the body it was made of. */
  lemma FindsEncoded(v49: bool, r: Message, extended: bool, rest: seq<Byte>)
    requires GoodMessage(r, extended) && (extended ==> v49)
    ensures var p, length := Encoded(r, extended) + rest, HeaderLength(extended);
      && FindHeader(v49, p) == Found(r.header, length)
      && |Encoded(r, extended)| == length + |r.body|
      && p[length..length + r.header.size] == r.body
  {
    HeaderComesBack(v49, r, extended, rest);
    var length := HeaderLength(extended);
    var p := Encoded(r, extended) + rest;
    assert p[length..length + r.header.size] == p[length..][..r.header.size];
  }

  lemma FirstAhead(ms: seq<Message>, extended: seq<bool>, later: seq<Byte>)
    requires GoodMessages(ms, extended) && ms != []
    ensures GoodMessage(ms[0], extended[0]) && GoodMessages(ms[1..], extended[1..])
    ensures Wire(ms, extended) + later == Encoded(ms[0], extended[0]) + (Wire(ms[1..], extended[1..]) + later)
  {
    Regrouped(Encoded(ms[0], extended[0]), Wire(ms[1..], extended[1..]), later);
  }
}
