/** The two wire formats by position: which byte of a record and of a message header says what, as numbers in the
    one byte order and the other. */
module Layouts {
  import opened Bytes
  import opened Records
  import opened RoundTrip
  import CA = CaProtocol

  /** The number some bytes stand for, most significant first. */
  function Number(b: seq<Byte>): nat
  {
    if b == [] then 0 else 256 * Number(b[..|b| - 1]) + b[|b| - 1] as nat
  }

  /** The same, least significant first. */
  function Reversed(b: seq<Byte>): nat
  {
    if b == [] then 0 else b[0] as nat + 256 * Reversed(b[1..])
  }

  lemma TwoAre(b: seq<Byte>)
    requires |b| == 2
    ensures Number(b) == FromBe16(b)
  {
    assert Number(b[..1]) == 256 * Number(b[..1][..0]) + b[0] as nat;
    assert b[..1][..0] == [];
  }

  lemma FourAre(b: seq<Byte>)
    requires |b| == 4
    ensures Number(b) == FromBe32(b)
  {
    TwoAre(b[..2]);
    assert b[..3][..2] == b[..2];
    assert Number(b[..3]) == 256 * Number(b[..2]) + b[2] as nat;
  }

  lemma FourReversed(b: seq<Byte>)
    requires |b| == 4
    ensures Reversed(b) == FromLe32(b)
  {
    assert b[1..][1..] == b[2..] && b[2..][1..] == b[3..] && b[3..][1..] == [];
    assert Reversed(b[3..]) == b[3] as nat;
    assert Reversed(b[2..]) == b[2] as nat + 256 * b[3] as nat;
    assert Reversed(b[1..]) == b[1] as nat + 256 * Reversed(b[2..]);
  }

  /** A record: quote, name, quote, colon, space; index, type, size and offset, least significant byte first;
      value, timestamp, line feed and carriage return. */
  lemma RecordLayout(r: Record)
    requires |r.data| < 0x1_0000_0000 && |r.stamp| == 8
    ensures var e, n, d := Encode(r), |r.name|, |r.name| + 17 + |r.data|;
      && |e| == d + 10 && e[0] as int == '"' as int && e[1..n + 1] == r.name
      && e[n + 1] as int == '"' as int && e[n + 2] as int == ':' as int && e[n + 3] as int == ' ' as int
      && Reversed(e[n + 4..n + 8]) == r.index && e[n + 8] == r.typeId && Reversed(e[n + 9..n + 13]) == |r.data|
      && Reversed(e[n + 13..n + 17]) == r.offset && e[n + 17..d] == r.data && e[d..d + 8] == r.stamp
      && e[d + 8] as int == '\n' as int && e[d + 9] as int == '\r' as int
  {
    EncodeHasParts(r);
    var e, n := Encode(r), |r.name|;
    assert e == [QUOTE] + r.name + PATTERN + Records.Header(r) + (r.data + r.stamp + [LF, CR]);
    assert e[n + 1..n + 4] == PATTERN;
    assert e[n + 8] == Records.Header(r)[4];
    Tail(e, n + 17, r);
    FourReversed(e[n + 4..n + 8]);
    FourReversed(e[n + 9..n + 13]);
    FourReversed(e[n + 13..n + 17]);
    Le32RoundTrip(r.index);
    Le32RoundTrip(|r.data|);
    Le32RoundTrip(r.offset);
  }

  lemma Tail(e: seq<Byte>, at: nat, r: Record)
    requires at <= |e| && e[at..] == r.data + r.stamp + [LF, CR] && |r.stamp| == 8
    ensures var d := at + |r.data|;
      |e| == d + 10 && e[at..d] == r.data && e[d..d + 8] == r.stamp && e[d + 8] == LF && e[d + 9] == CR
  {
    var t := e[at..];
    assert e[at..at + |r.data|] == t[..|r.data|];
    assert e[at + |r.data|..at + |r.data| + 8] == t[|r.data|..|r.data| + 8];
    assert e[at + |r.data| + 8] == t[|r.data| + 8] && e[at + |r.data| + 9] == t[|r.data| + 9];
  }

  lemma ShortForm(a: Half, b: Half, t: Half, n: Half, cid: Word, available: Word, rest: seq<Byte>)
    ensures var e := Be16(a) + Be16(b) + Be16(t) + Be16(n) + Be32(cid) + Be32(available) + rest;
      && |e| == 16 + |rest| && e[16..] == rest
      && Number(e[0..2]) == a && Number(e[2..4]) == b && Number(e[4..6]) == t && Number(e[6..8]) == n
      && Number(e[8..12]) == cid && Number(e[12..16]) == available
  {
    var e := Be16(a) + Be16(b) + Be16(t) + Be16(n) + Be32(cid) + Be32(available) + rest;
    assert e[0..2] == Be16(a) && e[2..4] == Be16(b) && e[4..6] == Be16(t) && e[6..8] == Be16(n);
    assert e[8..12] == Be32(cid) && e[12..16] == Be32(available);
    OfHalf(a); OfHalf(b); OfHalf(t); OfHalf(n);
    OfWord(cid); OfWord(available);
  }

  lemma OfHalf(h: Half)
    ensures Number(Be16(h)) == h
  {
    TwoAre(Be16(h));
    CA.Be16RoundTrip(h);
  }

  lemma OfWord(w: Word)
    ensures Number(Be32(w)) == w
  {
    FourAre(Be32(w));
    Be32RoundTrip(w);
  }

  /** A message: command, size, type, count, two identifiers, most significant byte first; in the long form
      size and count are marked, and follow; then the body. */
  lemma MessageLayout(m: CA.Message, long: bool)
    requires long || (m.header.size < 0xffff && m.header.count < 0x1_0000)
    ensures var e, h, at := CA.Encoded(m, long), m.header, if long then 24 else 16;
      && |e| == at + |m.body| && e[at..] == m.body
      && Number(e[0..2]) == h.cmmd && Number(e[2..4]) == (if long then 0xffff else h.size)
      && Number(e[4..6]) == h.dataType && Number(e[6..8]) == (if long then 0 else h.count)
      && Number(e[8..12]) == h.cid && Number(e[12..16]) == h.available
      && (long ==> Number(e[16..20]) == h.size && Number(e[20..24]) == h.count)
  {
    var h, e := m.header, CA.Encoded(m, long);
    if long {
      var rest := Be32(h.size) + Be32(h.count) + m.body;
      assert e == Be16(h.cmmd) + Be16(0xffff) + Be16(h.dataType) + Be16(0) + Be32(h.cid) + Be32(h.available) + rest;
      ShortForm(h.cmmd, 0xffff, h.dataType, 0, h.cid, h.available, rest);
      assert e[16..20] == rest[0..4] == Be32(h.size) && e[20..24] == rest[4..8] == Be32(h.count);
      assert e[24..] == rest[8..] == m.body;
      OfWord(h.size);
      OfWord(h.count);
    } else {
      ShortForm(h.cmmd, h.size, h.dataType, h.count, h.cid, h.available, m.body);
    }
  }
}
