/** How a sender writes the size of a chunk, and that the receiver reads it back: digits from the division by
    16, in either case, with any number of zeros in front. */
module HexSizes {
  import opened Bytes
  import opened Records
  import opened Transport

  const LOWER := "0123456789abcdef"
  const UPPER := "0123456789ABCDEF"

  /** The digit as a character; `upper` says for each place, from the last, which case it is written in. */
  function Digit(d: nat, upper: bool): (b: Byte)
    requires d < 16
    ensures IsHexDigit(b) && HexDigit(b) == d
  {
    assert |LOWER| == |UPPER| == 16;
    var c := if upper then UPPER[d] else LOWER[d];
    Character(d, upper);
    c as int
  }

  lemma Character(d: nat, upper: bool)
    requires d < 16
    ensures |LOWER| == |UPPER| == 16 && UPPER[d] as int < 0x100 && LOWER[d] as int < 0x100
    ensures var b := (if upper then UPPER[d] else LOWER[d]) as int; IsHexDigit(b) && HexDigit(b) == d
  {
    assert LOWER == ['0', '1', '2', '3', '4', '5', '6', '7', '8', '9', 'a', 'b', 'c', 'd', 'e', 'f'];
    assert UPPER == ['0', '1', '2', '3', '4', '5', '6', '7', '8', '9', 'A', 'B', 'C', 'D', 'E', 'F'];
  }

  function Hex(n: nat, upper: nat -> bool, place: nat): (s: seq<Byte>)
    ensures s != []
    decreases n
  {
    (if n < 16 then [] else Hex(n / 16, upper, place + 1)) + [Digit(n % 16, upper(place))]
  }

  predicate AllDigits(s: seq<Byte>)
  {
    forall b | b in s :: IsHexDigit(b)
  }

  lemma OneMoreDigit(s: seq<Byte>, b: Byte)
    requires AllDigits(s) && IsHexDigit(b)
    ensures AllDigits(s + [b]) && HexValue(s + [b]) == 16 * HexValue(s) + HexDigit(b)
  {
    assert (s + [b])[..|s|] == s;
  }

  /** Any size is read back from its digits. */
  lemma {:induction false} DigitsAreReadBack(n: nat, upper: nat -> bool, place: nat)
    ensures AllDigits(Hex(n, upper, place)) && HexValue(Hex(n, upper, place)) == n
    decreases n
  {
    var q, r := n / 16, n % 16;
    if n < 16 {
      OneMoreDigit([], Digit(r, upper(place)));
    } else {
      DigitsAreReadBack(q, upper, place + 1);
      OneMoreDigit(Hex(q, upper, place + 1), Digit(r, upper(place)));
    }
  }

  function Power(k: nat): nat { if k == 0 then 1 else 16 * Power(k - 1) }

  /** The digits in front count for the places behind them. */
  lemma {:induction false} PlacesCount(a: seq<Byte>, b: seq<Byte>)
    requires AllDigits(a) && AllDigits(b)
    ensures AllDigits(a + b) && HexValue(a + b) == HexValue(a) * Power(|b|) + HexValue(b)
    decreases |b|
  {
    if b == [] {
      assert a + b == a;
    } else {
      var front, last := b[..|b| - 1], b[|b| - 1];
      assert last in b;
      PlacesCount(a, front);
      OneMoreDigit(a + front, last);
      assert a + b == a + front + [last];
      Shift(HexValue(a), Power(|front|), HexValue(front), HexDigit(last));
    }
  }

  lemma Shift(x: nat, p: nat, y: nat, d: nat)
    ensures 16 * (x * p + y) + d == x * (16 * p) + (16 * y + d)
  {
  }

  lemma {:induction false} ZerosAreNothing(k: nat)
    ensures AllDigits(ZeroDigits(k)) && HexValue(ZeroDigits(k)) == 0
  {
    if k > 0 {
      ZerosAreNothing(k - 1);
      OneMoreDigit(ZeroDigits(k - 1), 48);
    }
  }

  function ZeroDigits(k: nat): seq<Byte>
  {
    if k == 0 then [] else ZeroDigits(k - 1) + [48]
  }

  /** A size line as senders write it: zeros, and the digits in either case. */
  function SizeText(n: nat, zeros: nat, upper: nat -> bool): (s: seq<Byte>)
    ensures s != []
  {
    ZeroDigits(zeros) + Hex(n, upper, 0)
  }

  /** Every size below 2^32 is read back from its line. */
  lemma SizesAreReadBack(other: Fallback, n: Word, zeros: nat, upper: nat -> bool)
    ensures IsSize(SizeText(n, zeros, upper)) && HexValue(SizeText(n, zeros, upper)) == n
    ensures Convert(other, SizeText(n, zeros, upper) + CRLF) == n
  {
    var size := SizeText(n, zeros, upper);
    DigitsAreReadBack(n, upper, 0);
    ZerosAreNothing(zeros);
    PlacesCount(ZeroDigits(zeros), Hex(n, upper, 0));
    SizeLine(size, []);
    assert (size + CRLF + [])[..|size| + 2] == size + CRLF;
  }

  // ----- whole bodies

  /** A chunk as it is sent: its data, and how its size is written. */
  datatype Sent = Sent(data: seq<Byte>, zeros: nat, upper: nat -> bool)

  function ChunkOf(x: Sent): Chunk
  {
    Chunk(SizeText(|x.data|, x.zeros, x.upper), x.data)
  }

  function ChunksOf(xs: seq<Sent>): (ks: seq<Chunk>)
    ensures |ks| == |xs| && forall i | 0 <= i < |xs| :: ks[i] == ChunkOf(xs[i])
  {
    seq(|xs|, i requires 0 <= i < |xs| => ChunkOf(xs[i]))
  }

  /** A body sent in chunks of less than 4 GB, with their sizes written out in hexadecimal, is read to its end:
      the pieces are the chunks, and nothing behind it is taken. */
  lemma WrittenChunksComeThrough(other: Fallback, xs: seq<Sent>, next: seq<Byte>)
    requires forall i | 0 <= i < |xs| :: 0 < |xs[i].data| < 0x1_0000_0000
    ensures var t := Chunked(other, OnTheWire(ChunksOf(xs)) + next);
      && t.ok && t.left == next && |t.pieces| == |xs|
      && forall i | 0 <= i < |xs| :: t.pieces[i] == xs[i].data
  {
    var ks := ChunksOf(xs);
    forall k | k in ks ensures GoodChunk(k) {
      var i :| 0 <= i < |xs| && ks[i] == k;
      SizesAreReadBack(other, |xs[i].data|, xs[i].zeros, xs[i].upper);
    }
    ChunksComeThrough(other, ks, next);
    DataAre(ks);
  }

  lemma {:induction false} DataAre(ks: seq<Chunk>)
    ensures forall i | 0 <= i < |ks| :: Data(ks)[i] == ks[i].data
  {
    if ks != [] { DataAre(ks[1..]); }
  }
}
