/** The body of a PUT request as the receiver reads it off its socket, in chunks (section 4.1 of
    RFC 7230) or by its length (section 3.3.2 of RFC 7230) in pieces of 32 bytes. */
module Transport {
  import opened Bytes
  import opened Records

  const PIECE := 32
  const BUFFER := 1023

  /** What a request body comes to: the pieces handed to the parser, whether it was read to its end,
      and what is left on the socket. After a failure the socket is closed, so nothing is left. */
  datatype Transfer = Transfer(pieces: seq<seq<Byte>>, ok: bool, left: seq<Byte>)

  /** The number of bytes of the first line, its line feed included; 0 if there is no line feed. */
  function LineLength(s: seq<Byte>): (n: nat)
    ensures n <= |s|
    ensures n > 0 ==> s[n - 1] == LF && LF !in s[..n - 1]
    ensures n == 0 ==> LF !in s
  {
    if s == [] then 0
    else if s[0] == LF then 1
    else
      var n := LineLength(s[1..]);
      if n == 0 then 0
      else
        assert s[..n] == [s[0]] + s[1..][..n - 1];
        n + 1
  }

  /** A size line without its trailing carriage returns and line feeds. */
  function Strip(line: seq<Byte>): (s: seq<Byte>)
    ensures s <= line
    ensures s != [] ==> s[|s| - 1] != CR && s[|s| - 1] != LF
  {
    if line == [] || (line[|line| - 1] != CR && line[|line| - 1] != LF) then line
    else Strip(line[..|line| - 1])
  }

  predicate IsHexDigit(b: Byte)
  {
    48 <= b <= 57 || 65 <= b <= 70 || 97 <= b <= 102
  }

  function HexDigit(b: Byte): nat
    requires IsHexDigit(b)
  {
    if b <= 57 then b - 48 else if b <= 70 then b - 55 else b - 87
  }

  function HexValue(s: seq<Byte>): nat
    requires forall b | b in s :: IsHexDigit(b)
  {
    if s == [] then 0
    else
      assert s[|s| - 1] in s;
      16 * HexValue(s[..|s| - 1]) + HexDigit(s[|s| - 1])
  }

  predicate IsSize(s: seq<Byte>)
  {
    s != [] && (forall b | b in s :: IsHexDigit(b)) && HexValue(s) < 0x1_0000_0000
  }

  /** What the conversion of a size line leaves in the chunk size: its value, and for anything that
      is no 32-bit hexadecimal number whatever the conversion routine makes of it. */
  type Fallback = seq<Byte> -> Word

  function Convert(other: Fallback, line: seq<Byte>): Word
  {
    if IsSize(Strip(line)) then HexValue(Strip(line)) else other(Strip(line))
  }

  function Prepend(piece: seq<Byte>, t: Transfer): Transfer
  {
    t.(pieces := [piece] + t.pieces)
  }

  /** After the empty chunk: one more line. */
  function Closed(s: seq<Byte>): Transfer
  {
    var m := LineLength(s);
    if m == 0 then Transfer([], false, []) else Transfer([], true, s[m..])
  }

  /** A chunked body: size line, chunk, line, and so on until the empty chunk. A chunk whose closing
      line does not come is not parsed. */
  function Chunked(other: Fallback, s: seq<Byte>): Transfer
    decreases |s|
  {
    var n := LineLength(s);
    if n == 0 then Transfer([], false, [])
    else
      var size, body := Convert(other, s[..n]), s[n..];
      if |body| < size then Transfer([], false, [])
      else
        var m := LineLength(body[size..]);
        if size == 0 then Closed(body)
        else if m == 0 then Transfer([], false, [])
        else
          Prepend(body[..size], Chunked(other, body[size..][m..]))
  }

  /** Taking one whole chunk off the front. */
  lemma {:induction false} OneChunkAhead(other: Fallback, s: seq<Byte>, n: nat, size: nat, m: nat)
    requires 0 < n == LineLength(s) && size == Convert(other, s[..n])
    requires 0 < size <= |s| - n && 0 < m == LineLength(s[n..][size..])
    ensures Chunked(other, s) == Prepend(s[n..][..size], Chunked(other, s[n..][size..][m..]))
  {
  }

  /** A body of given length, in pieces of the given size. */
  function Counted(length: nat, piece: nat, s: seq<Byte>): Transfer
    requires piece > 0
    decreases length
  {
    var size := if length < piece then length else piece;
    if |s| < size then Transfer([], false, [])
    else if size == 0 then Transfer([], true, s)
    else
      Prepend(s[..size], Counted(length - size, size, s[size..]))
  }

  /** Taking one piece off the front. */
  lemma OnePieceAhead(length: nat, piece: nat, s: seq<Byte>)
    requires piece > 0
    requires var size := if length < piece then length else piece; 0 < size <= |s|
    ensures var size := if length < piece then length else piece;
      var t := Counted(length - size, size, s[size..]);
      Counted(length, piece, s) == Prepend(s[..size], t)
  {
  }

  // ----- what a sender puts on the wire comes off it

  /** Chunks under the size lines they are sent with; any spelling of the size will do. */
  datatype Chunk = Chunk(size: seq<Byte>, data: seq<Byte>)

  predicate GoodChunk(k: Chunk)
  {
    k.data != [] && IsSize(k.size) && HexValue(k.size) == |k.data|
  }

  const CRLF: seq<Byte> := [CR, LF]
  const LAST: seq<Byte> := [48, CR, LF, CR, LF]

  function OnTheWire(ks: seq<Chunk>): seq<Byte>
  {
    if ks == [] then LAST else ks[0].size + CRLF + (ks[0].data + CRLF + OnTheWire(ks[1..]))
  }

  function Data(ks: seq<Chunk>): (d: seq<seq<Byte>>)
    ensures |d| == |ks|
  {
    if ks == [] then [] else [ks[0].data] + Data(ks[1..])
  }

  lemma {:induction false} LineIs(a: seq<Byte>, b: seq<Byte>)
    requires LF !in a
    ensures LineLength(a + [LF] + b) == |a| + 1
  {
    var s := a + [LF] + b;
    if a == [] {
      assert s[0] == LF;
    } else {
      assert s[0] == a[0] && a[0] in a;
      assert s[1..] == a[1..] + [LF] + b;
      LineIs(a[1..], b);
    }
  }

  lemma {:induction false} SizeLine(size: seq<Byte>, rest: seq<Byte>)
    requires IsSize(size)
    ensures LineLength(size + CRLF + rest) == |size| + 2
    ensures Strip((size + CRLF + rest)[..|size| + 2]) == size
  {
    assert LF !in size + [CR];
    assert size + CRLF + rest == size + [CR] + [LF] + rest;
    LineIs(size + [CR], rest);
    var line := (size + CRLF + rest)[..|size| + 2];
    assert line == size + CRLF;
    assert size[|size| - 1] in size;
    var l := size + [CR];
    assert line[..|size| + 1] == l && l[..|size|] == size;
    assert Strip(l) == Strip(size) == size;
  }

  lemma {:induction false} NoneComesThrough(other: Fallback, next: seq<Byte>)
    ensures Chunked(other, OnTheWire([]) + next) == Transfer([], true, next)
  {
    var s := OnTheWire([]) + next;
    ZeroIsASize();
    SizeLine([48], CRLF + next);
    assert s == [48] + CRLF + (CRLF + next);
    LineIs([CR], next);
    assert s[3..] == [CR] + [LF] + next && s[3..][0..] == s[3..] && s[3..][2..] == next;
  }

  /** Whatever chunks the body is cut into, the pieces the parser sees are the chunks, and exactly
      the body is taken off the socket. */
  lemma {:induction false} ChunksComeThrough(other: Fallback, ks: seq<Chunk>, next: seq<Byte>)
    requires forall k | k in ks :: GoodChunk(k)
    ensures Chunked(other, OnTheWire(ks) + next) == Transfer(Data(ks), true, next)
    decreases |ks|
  {
    var s := OnTheWire(ks) + next;
    if ks == [] {
      NoneComesThrough(other, next);
    } else {
      var k, later := ks[0], OnTheWire(ks[1..]) + next;
      assert k in ks && GoodChunk(k);
      var body := k.data + CRLF + later;
      assert s == k.size + CRLF + body;
      SizeLine(k.size, body);
      assert s[|k.size| + 2..] == body;
      OneChunk(k.data, later);
      ChunksComeThrough(other, ks[1..], next);
    }
  }

  lemma CutOff(data: seq<Byte>, rest: seq<Byte>)
    ensures (data + rest)[..|data|] == data && (data + rest)[|data|..] == rest
  {
  }

  lemma OneChunk(data: seq<Byte>, later: seq<Byte>)
    ensures var body := data + CRLF + later;
      && body[..|data|] == data
      && LineLength(body[|data|..]) == 2
      && body[|data|..][2..] == later
  {
    var line := CRLF + later;
    assert data + CRLF + later == data + line;
    CutOff(data, line);
    CutOff(CRLF, later);
    assert line == [CR] + [LF] + later;
    LineIs([CR], later);
  }

  lemma ZeroIsASize()
    ensures IsSize([48]) && HexValue([48]) == 0
  {
    assert [48][..0] == [];
  }

  lemma FirstCounted(a: seq<Byte>, b: seq<Byte>, next: seq<Byte>, piece: nat)
    requires piece > 0 && 0 < |a| && |a| == if |a| + |b| < piece then |a| + |b| else piece
    ensures Counted(|a| + |b|, piece, a + b + next) == Prepend(a, Counted(|b|, |a|, b + next))
  {
    var later := b + next;
    assert a + b + next == a + later;
    CutOff(a, later);
    OnePieceAhead(|a| + |b|, piece, a + later);
  }

  lemma FlattenPrepended(data: seq<Byte>, t: Transfer)
    ensures var p := Prepend(data, t).pieces;
      && Flatten(p) == data + Flatten(t.pieces) && |p| == 1 + |t.pieces|
      && p[0] == data && forall i | 0 <= i < |t.pieces| :: p[i + 1] == t.pieces[i]
  {
    assert ([data] + t.pieces)[1..] == t.pieces;
  }

  /** A body sent with its length comes off in order, in pieces of 32 bytes and a shorter last one,
      and exactly the body is taken off the socket. */
  lemma {:induction false} CountedComesThrough(body: seq<Byte>, next: seq<Byte>, piece: nat)
    requires piece > 0
    ensures var t := Counted(|body|, piece, body + next);
      && t.ok && t.left == next && Flatten(t.pieces) == body
      && forall i | 0 <= i < |t.pieces| :: |t.pieces[i]| <= piece
    decreases |body|
  {
    if body == [] {
      assert body + next == next;
    } else {
      var size := if |body| < piece then |body| else piece;
      var a, b := body[..size], body[size..];
      assert body == a + b;
      CountedComesThrough(b, next, size);
      FirstCounted(a, b, next, piece);
      var t, u := Counted(|b|, size, b + next), Counted(|body|, piece, body + next);
      FlattenPrepended(a, t);
      forall i | 0 <= i < |u.pieces| ensures |u.pieces[i]| <= piece {
        if i > 0 { assert u.pieces[i] == t.pieces[i - 1]; }
      }
    }
  }

  // ----- exactly which bodies are read to their end

  /** A counted body is read to its end exactly when that many bytes are there. */
  lemma {:induction false} CountedExactlyWhen(length: nat, piece: nat, s: seq<Byte>)
    requires piece > 0
    ensures Counted(length, piece, s).ok <==> length <= |s|
    decreases length
  {
    var size := if length < piece then length else piece;
    if 0 < size <= |s| { CountedExactlyWhen(length - size, size, s[size..]); }
  }

  predicate IsLine(l: seq<Byte>)
  {
    l != [] && LineLength(l) == |l|
  }

  /** A chunk with the line that says its size and the line that closes it, whatever they look like. */
  datatype Lined = Lined(line: seq<Byte>, data: seq<Byte>, close: seq<Byte>)

  predicate GoodLined(other: Fallback, k: Lined)
  {
    IsLine(k.line) && Convert(other, k.line) == |k.data| > 0 && IsLine(k.close)
  }

  /** Chunks, the line of the empty chunk, and the line that closes the body. */
  datatype Spelling = Spelling(ks: seq<Lined>, last: seq<Byte>, close: seq<Byte>)

  ghost predicate GoodSpelling(other: Fallback, x: Spelling)
  {
    (forall k | k in x.ks :: GoodLined(other, k)) && IsLine(x.last) && Convert(other, x.last) == 0 && IsLine(x.close)
  }

  function Spelled(x: Spelling): seq<Byte>
    decreases |x.ks|
  {
    if x.ks == [] then x.last + x.close
    else x.ks[0].line + (x.ks[0].data + (x.ks[0].close + Spelled(x.(ks := x.ks[1..]))))
  }

  function Datas(ks: seq<Lined>): seq<seq<Byte>>
  {
    if ks == [] then [] else [ks[0].data] + Datas(ks[1..])
  }

  lemma {:induction false} LineAhead(l: seq<Byte>, rest: seq<Byte>)
    requires IsLine(l)
    ensures LineLength(l + rest) == |l| && (l + rest)[..|l|] == l && (l + rest)[|l|..] == rest
  {
    var a := l[..|l| - 1];
    assert l == a + [LF];
    LineIs(a, rest);
  }

  lemma {:induction false} FirstLine(s: seq<Byte>)
    requires LineLength(s) > 0
    ensures IsLine(s[..LineLength(s)])
  {
    var n := LineLength(s);
    LineIs(s[..n - 1], []);
    assert s[..n] == s[..n - 1] + [LF] + [];
  }

  lemma {:induction false} SpelledIsRead(other: Fallback, x: Spelling, left: seq<Byte>)
    requires GoodSpelling(other, x)
    ensures Chunked(other, Spelled(x) + left) == Transfer(Datas(x.ks), true, left)
    decreases |x.ks|
  {
    var s := Spelled(x) + left;
    if x.ks == [] {
      assert s == x.last + (x.close + left);
      LineAhead(x.last, x.close + left);
      LineAhead(x.close, left);
      assert (x.close + left)[0..] == x.close + left;
    } else {
      var k, x' := x.ks[0], x.(ks := x.ks[1..]);
      assert k in x.ks && GoodLined(other, k);
      var later := Spelled(x') + left;
      assert s == k.line + (k.data + (k.close + later));
      LineAhead(k.line, k.data + (k.close + later));
      CutOff(k.data, k.close + later);
      LineAhead(k.close, later);
      SpelledIsRead(other, x', left);
    }
  }

  lemma {:induction false} OneMoreSpelled(other: Fallback, k: Lined, x: Spelling)
    requires GoodLined(other, k) && GoodSpelling(other, x)
    ensures var y := x.(ks := [k] + x.ks);
      && GoodSpelling(other, y) && Spelled(y) == k.line + (k.data + (k.close + Spelled(x)))
        && Datas(y.ks) == [k.data] + Datas(x.ks)
  {
    var y := x.(ks := [k] + x.ks);
    assert y.ks[1..] == x.ks;
    assert y.(ks := y.ks[1..]) == x;
  }

  lemma CutInThree(s: seq<Byte>, n: nat, size: nat, m: nat)
    requires n <= |s| && size <= |s| - n && m <= |s| - n - size
    ensures s == s[..n] + (s[n..][..size] + (s[n..][size..][..m] + s[n..][size..][m..]))
  {
  }

  lemma ReadIsSpelled(other: Fallback, s: seq<Byte>) returns (x: Spelling)
    requires Chunked(other, s).ok
    ensures GoodSpelling(other, x) && s == Spelled(x) + Chunked(other, s).left
      && Datas(x.ks) == Chunked(other, s).pieces
    decreases |s|
  {
    var n := LineLength(s);
    FirstLine(s);
    var size, body := Convert(other, s[..n]), s[n..];
    var m := LineLength(body[size..]);
    FirstLine(body[size..]);
    if size == 0 {
      CutInThree(s, n, 0, m);
      assert body[0..] == body && body[..0] == [];
      x := Spelling([], s[..n], body[..m]);
      Rejoined(s[..n], body[..m], body[m..]);
    } else {
      OneChunkAhead(other, s, n, size, m);
      CutInThree(s, n, size, m);
      var k := Lined(s[..n], body[..size], body[size..][..m]);
      var y := ReadIsSpelled(other, body[size..][m..]);
      OneMoreSpelled(other, k, y);
      x := y.(ks := [k] + y.ks);
      RejoinedThree(k.line, k.data, k.close, Spelled(y), Chunked(other, s).left);
    }
  }

  lemma Rejoined(a: seq<Byte>, b: seq<Byte>, c: seq<Byte>)
    ensures a + (b + c) == a + b + c
  {
  }

  lemma RejoinedThree(a: seq<Byte>, b: seq<Byte>, c: seq<Byte>, d: seq<Byte>, e: seq<Byte>)
    ensures a + (b + (c + (d + e))) == a + (b + (c + d)) + e
  {
  }

  /** A chunked body is read to its end exactly when it is spelled in chunks: then the parser sees their
      data, and what follows the body is left on the socket. */
  lemma {:induction false} ChunkedExactlyWhen(other: Fallback, s: seq<Byte>, pieces: seq<seq<Byte>>, left: seq<Byte>)
    ensures Chunked(other, s) == Transfer(pieces, true, left)
      <==> exists x :: GoodSpelling(other, x) && s == Spelled(x) + left && pieces == Datas(x.ks)
  {
    if Chunked(other, s) == Transfer(pieces, true, left) { var x := ReadIsSpelled(other, s); }
    if x :| GoodSpelling(other, x) && s == Spelled(x) + left && pieces == Datas(x.ks) { SpelledIsRead(other, x, left); }
  }

  // ----- what comes of a body that is not read to its end

  function Joined(ks: seq<Lined>): seq<Byte>
  {
    if ks == [] then [] else ks[0].line + (ks[0].data + (ks[0].close + Joined(ks[1..])))
  }

  /** A chunk of which bytes are missing, or the line that closes it: a size line and what there is behind it. */
  predicate Unclosed(other: Fallback, line: seq<Byte>, body: seq<Byte>)
  {
    IsLine(line) && (|body| < Convert(other, line) || LF !in body[Convert(other, line)..])
  }

  lemma {:induction false} NoLine(s: seq<Byte>)
    requires LF !in s
    ensures LineLength(s) == 0
  {
    if s != [] { NoLine(s[1..]); }
  }

  lemma UnclosedIsNone(other: Fallback, line: seq<Byte>, body: seq<Byte>)
    requires Unclosed(other, line, body)
    ensures Chunked(other, line + body) == Transfer([], false, [])
  {
    LineAhead(line, body);
    var size := Convert(other, line);
    if size <= |body| {
      NoLine(body[size..]);
      assert body[0..] == body;
    }
  }

  /** The pieces the parser sees of a body that breaks off are the chunks before, each with its closing line, and
      no part of the one that is not closed. */
  lemma {:induction false} UnclosedIsNotParsed(other: Fallback, ks: seq<Lined>, line: seq<Byte>, body: seq<Byte>)
    requires (forall k | k in ks :: GoodLined(other, k)) && Unclosed(other, line, body)
    ensures Chunked(other, Joined(ks) + (line + body)) == Transfer(Datas(ks), false, [])
    decreases |ks|
  {
    var tail := line + body;
    if ks == [] {
      UnclosedIsNone(other, line, body);
      assert Joined(ks) + tail == tail;
    } else {
      var k := ks[0];
      assert k in ks && GoodLined(other, k);
      var later := Joined(ks[1..]) + tail;
      assert Joined(ks) + tail == k.line + (k.data + (k.close + later));
      LineAhead(k.line, k.data + (k.close + later));
      CutOff(k.data, k.close + later);
      LineAhead(k.close, later);
      OneChunkAhead(other, Joined(ks) + tail, |k.line|, |k.data|, |k.close|);
      UnclosedIsNotParsed(other, ks[1..], line, body);
    }
  }
}
