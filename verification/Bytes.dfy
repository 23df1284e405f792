/** Bytes, machine words and the two byte orders the repository uses: the sender copies its words
    as the host stores them (least significant byte first), Channel Access sends the most
    significant byte first. */
module Bytes {
  type Byte = b: int | 0 <= b < 0x100
  type Half = h: int | 0 <= h < 0x1_0000
  type Word = w: int | 0 <= w < 0x1_0000_0000

  /** The bytes of a timestamp. */
  const STAMP := 8

  function Le32(w: Word): (b: seq<Byte>)
    ensures |b| == 4
  {
    [w % 256, w / 256 % 256, w / 65536 % 256, w / 16777216]
  }

  function FromLe32(b: seq<Byte>): Word
    requires |b| == 4
  {
    b[0] as int + 256 * b[1] as int + 65536 * b[2] as int + 16777216 * b[3] as int
  }

  lemma Le32RoundTrip(w: Word)
    ensures FromLe32(Le32(w)) == w
  {
    assert w / 65536 == w / 256 / 256;
    assert w / 16777216 == w / 256 / 256 / 256;
  }

  function Be16(h: Half): (b: seq<Byte>)
    ensures |b| == 2
  {
    [h / 256, h % 256]
  }

  function FromBe16(b: seq<Byte>): Half
    requires |b| == 2
  {
    256 * b[0] as int + b[1] as int
  }

  function Be32(w: Word): (b: seq<Byte>)
    ensures |b| == 4
  {
    [w / 16777216, w / 65536 % 256, w / 256 % 256, w % 256]
  }

  function FromBe32(b: seq<Byte>): Word
    requires |b| == 4
  {
    16777216 * b[0] as int + 65536 * b[1] as int + 256 * b[2] as int + b[3] as int
  }

  lemma Be32RoundTrip(w: Word)
    ensures FromBe32(Be32(w)) == w
  {
    assert w / 65536 == w / 256 / 256;
    assert w / 16777216 == w / 256 / 256 / 256;
  }

  function Zeros(n: nat): (z: seq<Byte>)
    ensures |z| == n && forall k | 0 <= k < n :: z[k] == 0
  {
    seq(n, _ => 0)
  }

  /** Gluing a list of pieces back together: every cut of a stream is such a list. */
  function Flatten(pieces: seq<seq<Byte>>): seq<Byte>
  {
    if pieces == [] then [] else pieces[0] + Flatten(pieces[1..])
  }

  lemma {:induction false} FlattenJoins(a: seq<seq<Byte>>, b: seq<seq<Byte>>)
    ensures Flatten(a + b) == Flatten(a) + Flatten(b)
  {
    if a == [] {
      assert a + b == b;
    } else {
      assert (a + b)[1..] == a[1..] + b;
      FlattenJoins(a[1..], b);
    }
  }

  lemma {:induction false} FlattenSnoc(ms: seq<seq<Byte>>, m: seq<Byte>)
    ensures Flatten(ms + [m]) == Flatten(ms) + m
  {
    FlattenJoins(ms, [m]);
    assert Flatten([m][1..]) == [];
  }
}
