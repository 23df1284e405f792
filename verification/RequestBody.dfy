/** Reading a request body off the socket into the payload, piece by piece. */
module RequestBody {
  import opened Bytes
  import opened Transport

  /** The growing and shrinking payload. */
  class StreamString {
    var text: seq<Byte>

    constructor ()
      ensures text == []
    {
      text := [];
    }

    /** Drops the first n bytes. */
    method Consume(n: nat)
      requires n <= |text|
      modifies this
      ensures text == old(text)[n..]
    {
      text := text[n..];
    }

    /** The byte at n; the string's terminator stands right behind it. */
    function At(n: nat): Byte
      requires n <= |text|
      reads this
    {
      if n < |text| then text[n] else 0
    }
  }

  class Socket {
    var input: seq<Byte>

    /** A whole line with its line feed, or an error when none comes. */
    method GetLine() returns (err: bool, line: seq<Byte>)
      modifies this
      ensures err <==> LineLength(old(input)) == 0
      ensures err ==> input == []
      ensures !err ==> line == old(input)[..LineLength(old(input))] && input == old(input)[LineLength(old(input))..]
    {
      var n := LineLength(input);
      err, line, input := n == 0, input[..n], if n == 0 then [] else input[n..];
    }

    /** At least one and at most n bytes, or an error when none comes. */
    method Read(n: nat) returns (err: bool, data: seq<Byte>)
      requires n > 0
      modifies this
      ensures err <==> old(input) == []
      ensures !err ==> 1 <= |data| <= n && old(input) == data + input
      ensures err ==> input == []
    {
      err, data := input == [], [];
      if !err {
        var k: nat :| 1 <= k <= n && k <= |input| by { assert 1 <= 1 <= n && 1 <= |input|; }
        data, input := input[..k], input[k..];
      }
    }
  }

  /** Appends the next size bytes of the socket to the payload, in reads of at most 1023. */
  method ReadBytes(socket: Socket, payload: StreamString, size: nat) returns (err: bool)
    modifies socket, payload
    ensures err <==> |old(socket.input)| < size
    ensures |socket.input| <= |old(socket.input)|
    ensures !err ==> payload.text == old(payload.text) + old(socket.input)[..size]
                     && socket.input == old(socket.input)[size..]
  {
    ghost var was, input := payload.text, socket.input;
    var sizeRead := 0;
    err := false;
    while sizeRead < size && !err
      invariant 0 <= sizeRead <= size
      invariant !err ==> sizeRead <= |input| && socket.input == input[sizeRead..]
                         && payload.text == was + input[..sizeRead]
      invariant err ==> |input| < size && socket.input == []
      decreases size - sizeRead, !err
    {
      var sizeToRead := if size - sizeRead > BUFFER then BUFFER else size - sizeRead;
      var data: seq<Byte>;
      err, data := socket.Read(sizeToRead);
      if !err {
        payload.text := payload.text + data;
        assert input[..sizeRead] + data == input[..sizeRead + |data|];
        sizeRead := sizeRead + |data|;
      }
    }
  }

  /** The next chunk appended to the payload: its size line, its bytes, and for a chunk that is not
      the empty one the line that closes it. */
  method ReadNewChunk(socket: Socket, payload: StreamString, other: Fallback) returns (err: bool, chunkSize: nat)
    modifies socket, payload
    ensures |socket.input| <= |old(socket.input)|
    ensures var t, t' := Chunked(other, old(socket.input)), Chunked(other, socket.input);
      if err then
        !t.ok && t.pieces == []
      else if chunkSize == 0 then
        t == Closed(socket.input)
      else
        && |socket.input| < |old(socket.input)|
        && t.ok == t'.ok && t.left == t'.left
        && exists piece :: t.pieces == [piece] + t'.pieces && payload.text == old(payload.text) + piece
  {
    ghost var s := socket.input;
    chunkSize := 0;
    var line: seq<Byte>;
    err, line := socket.GetLine();
    if err { return; }
    ghost var n := |line|;
    chunkSize := Convert(other, line);
    err := ReadBytes(socket, payload, chunkSize);
    if !err && chunkSize > 0 {
      err, line := socket.GetLine();
      if !err { OneChunkAhead(other, s, n, chunkSize, |line|); }
    }
  }
}
