/** The receiver's incremental parser as functions on the payload received so far, and what it
    promises: whatever the cut of the stream, it consumes exactly the records that were sent.

    A step never looks at anything but the payload; a step that cannot go on keeps what it has and
    waits for the next piece ("refill"). */
module DiodeParser {
  import opened Bytes
  import opened Records
  import opened Incremental

  /** The sender index and name a step resolved, which it does before it knows that the record is
      complete. */
  datatype Looked = Looked(index: Word, name: Name)

  datatype Synced = Synced(rest: seq<Byte>, ok: bool)
  datatype Named = Named(rest: seq<Byte>, end: nat, ok: bool)

  /** Where the next quote is, from position i on. */
  function NextQuote(p: seq<Byte>, i: nat): (j: nat)
    requires i <= |p|
    ensures i <= j <= |p|
    ensures forall k | i <= k < j :: p[k] != QUOTE
    ensures j < |p| ==> p[j] == QUOTE
    decreases |p| - i
  {
    if i == |p| || p[i] == QUOTE then i else NextQuote(p, i + 1)
  }

  /** Resynchronising from position i: drop everything before the next quote that does not begin
      the pattern closing a name. */
  function SkipToQuote(p: seq<Byte>, i: nat): (s: Synced)
    requires i <= |p|
    ensures |s.rest| <= |p| && s.rest == p[|p| - |s.rest|..]
    ensures s.ok ==> 3 <= |s.rest| && s.rest[0] == QUOTE && s.rest[..3] != PATTERN
    decreases |p|, |p| - i
  {
    var j := NextQuote(p, i);
    if j == |p| then Synced([], false)
    else
      var q := p[j..];
      if |q| < 3 then Synced(q, false)
      else if q[..3] != PATTERN then Synced(q, true)
      else SkipToQuote(q, 1)
  }

  function Resync(p: seq<Byte>): (s: Synced)
    requires p != []
    ensures |s.rest| <= |p| && s.rest == p[|p| - |s.rest|..]
    ensures s.ok ==> s.rest != [] && s.rest[0] == QUOTE
  {
    if p[0] == QUOTE then Synced(p, true) else SkipToQuote(p, 0)
  }

  /** The pattern closing a name is there. */
  predicate Closes(p: seq<Byte>, at: nat)
  {
    at + 3 <= |p| && p[at..at + 3] == PATTERN
  }

  /** The end of the name that opens the payload: the first later quote that begins the closing
      pattern. A later quote that does not begin it is taken for a new opening quote. */
  function FindName(p: seq<Byte>): (n: Named)
    requires p != []
    ensures |n.rest| <= |p| && n.rest == p[|p| - |n.rest|..]
    ensures n.ok ==> 1 <= n.end && Closes(n.rest, n.end)
    ensures n.ok ==> forall k | 1 <= k < n.end :: n.rest[k] != QUOTE
    decreases |p|
  {
    var j := NextQuote(p, 1);
    if j == |p| || |p| - j < 3 then Named(p, 0, false)
    else if Closes(p, j) then Named(p, j, true)
    else FindName(p[j..])
  }

  /** The name the receiver looks up: the C string copied out of the payload, cut at its first dot. */
  function LookupName(raw: seq<Byte>): (n: Name)
    ensures |n| <= |raw| && n == raw[..|n|]
    ensures 0 !in raw && DOT !in raw ==> n == raw
  {
    if raw == [] || raw[0] == 0 || raw[0] == DOT then [] else [raw[0]] + LookupName(raw[1..])
  }

  /** It ends at the first dot or zero, if there is one. */
  lemma {:induction false} LookupNameCuts(raw: seq<Byte>)
    ensures var n := |LookupName(raw)|;
      && LookupName(raw) == raw[..n] && (forall k | 0 <= k < n :: raw[k] != 0 && raw[k] as int != '.' as int)
      && (n < |raw| ==> raw[n] == 0 || raw[n] as int == '.' as int)
  {
    if raw != [] && raw[0] != 0 && raw[0] != DOT {
      var n := |LookupName(raw[1..])|;
      LookupNameCuts(raw[1..]);
      assert raw[..n + 1] == [raw[0]] + raw[1..][..n];
      forall k | 0 <= k < n + 1 ensures raw[k] != 0 && raw[k] as int != '.' as int {
        if k > 0 { assert raw[k] == raw[1..][k - 1]; }
      }
    }
  }

  datatype Parsed =
    | Wait(left: seq<Byte>)
    | Head(left: seq<Byte>, nameSize: nat, name: Name, index: Word, typeId: Byte, size: Word, offset: Word)

  datatype Fields = Fields(index: Word, typeId: Byte, size: Word, offset: Word)

  function FieldsAt(b: seq<Byte>, at: nat): Fields
    requires at + 13 <= |b|
  {
    Fields(FromLe32(b[at..at + 4]), b[at + 4], FromLe32(b[at + 5..at + 9]), FromLe32(b[at + 9..at + 13]))
  }

  /** The header after a name found in p. The length check admits a payload that ends one byte
      before the header does; `past` is the byte that is then read beyond the payload. */
  function ReadHeader(lim: Limits, p: seq<Byte>, end: nat, past: Byte): (h: Parsed)
    requires 1 <= end && end + 3 <= |p|
    ensures |h.left| <= |p|
    ensures h.Head? ==> h.left == p && h.nameSize == end - 1 && end + 15 <= |p|
    ensures h.Head? ==> h.size < lim.maxSize && h.index < lim.count
  {
    var nameSize := end - 1;
    if nameSize > PV_NAME_MAX_SIZE then Wait(p[nameSize..])
    else if |p| - (nameSize + 3) < 13 then Wait(p)
    else
      var f := FieldsAt(p + [past], end + 3);
      if f.index >= lim.count || f.size >= lim.maxSize then Wait([])
      else Head(p, nameSize, LookupName(p[1..end]), f.index, f.typeId, f.size, f.offset)
  }

  /** Name and header of the first record. */
  function ReadVarNameAndIndex(lim: Limits, p: seq<Byte>, past: Byte): (h: Parsed)
    ensures |h.left| <= |p|
    ensures h.Head? ==> h.nameSize + 16 <= |h.left| && h.size < lim.maxSize && h.index < lim.count
  {
    if p == [] then Wait([])
    else
      var s := Resync(p);
      if !s.ok then Wait(s.rest)
      else
        var n := FindName(s.rest);
        if !n.ok then Wait(n.rest) else ReadHeader(lim, n.rest, n.end, past)
  }

  function Total(h: Parsed): (n: nat)
    requires h.Head?
  {
    h.nameSize + h.size + 27
  }

  /** Consuming the record whose header is h, once all of it has arrived. */
  function Take(h: Parsed): (o: Outcome<Looked, Record>)
    requires h.Head?
    ensures |o.rest| <= |h.left|
    ensures o.Consumed? ==> |o.rest| == |h.left| - Total(h)
    ensures o.looked == [Looked(h.index, h.name)]
    ensures o.Consumed? ==> |o.record.stamp| == 8 && o.record.index == h.index && o.record.name == h.name
  {
    var looked, at := [Looked(h.index, h.name)], h.nameSize + 17;
    if |h.left| < Total(h) then Refill(h.left, looked)
    else
      Consumed(h.left[Total(h)..], looked,
               Record(h.name, h.index, h.typeId, h.offset,
                      h.left[at..at + h.size], h.left[at + h.size..at + h.size + 8]))
  }

  /** What every step respects: it resolves at most one sender index, within the limits, and a
      record it consumes is the one it resolved. */
  ghost predicate Sound(lim: Limits, o: Outcome<Looked, Record>)
  {
    && |o.looked| <= 1
    && (o.looked != [] ==> o.looked[0].index < lim.count)
    && (o.Consumed? ==> |o.record.stamp| == 8 && o.looked == [Looked(o.record.index, o.record.name)])
  }

  function Step(lim: Limits, p: seq<Byte>, past: Byte): (o: Outcome<Looked, Record>)
    ensures |o.rest| <= |p|
    ensures o.Consumed? ==> |o.rest| < |p|
    ensures Sound(lim, o)
  {
    var h := ReadVarNameAndIndex(lim, p, past);
    if h.Wait? then Refill(h.left, []) else Take(h)
  }

  /** The step as the receiver takes it; the byte past the end is the payload's terminator. */
  function Stepping(lim: Limits): Stepper<Looked, Record>
  {
    p => Step(lim, p, 0)
  }

  // ----- what a step leaves

  /** The payload without some bytes at its front. */
  ghost predicate Suffix(rest: seq<Byte>, p: seq<Byte>)
  {
    |rest| <= |p| && rest == p[|p| - |rest|..]
  }

  lemma SuffixOfSuffix(a: seq<Byte>, b: seq<Byte>, c: seq<Byte>)
    requires Suffix(a, b) && Suffix(b, c)
    ensures Suffix(a, c)
  {
  }

  lemma HeaderLeavesSuffix(lim: Limits, p: seq<Byte>, end: nat, past: Byte)
    requires 1 <= end && end + 3 <= |p|
    ensures Suffix(ReadHeader(lim, p, end, past).left, p)
  {
  }

  lemma NameLeavesSuffix(lim: Limits, p: seq<Byte>, past: Byte)
    ensures Suffix(ReadVarNameAndIndex(lim, p, past).left, p)
  {
    if p != [] && Resync(p).ok {
      var s := Resync(p);
      var n := FindName(s.rest);
      SuffixOfSuffix(n.rest, s.rest, p);
      if n.ok {
        HeaderLeavesSuffix(lim, n.rest, n.end, past);
        SuffixOfSuffix(ReadHeader(lim, n.rest, n.end, past).left, n.rest, p);
      }
    }
  }

  lemma TakeLeavesSuffix(h: Parsed)
    requires h.Head?
    ensures Suffix(Take(h).rest, h.left) && (Take(h).Consumed? ==> |Take(h).rest| < |h.left|)
  {
  }

  /** On whatever bytes, a step leaves a suffix of the payload, and a shorter one if it consumes. */
  lemma StepLeavesSuffix(lim: Limits, p: seq<Byte>, past: Byte)
    ensures var o := Step(lim, p, past);
      Suffix(o.rest, p) && (o.Consumed? ==> |o.rest| < |p|)
  {
    var h := ReadVarNameAndIndex(lim, p, past);
    NameLeavesSuffix(lim, p, past);
    if h.Head? {
      TakeLeavesSuffix(h);
      SuffixOfSuffix(Take(h).rest, h.left, p);
    }
  }

  /** And so does the whole consume loop, which ends. */
  lemma {:induction false} LoopLeavesSuffix(lim: Limits, p: seq<Byte>)
    ensures Shrinks(Stepping(lim)) && Suffix(Drain(Stepping(lim), p).rest, p)
    decreases |p|
  {
    StepLeavesSuffix(lim, p, 0);
    var o := Stepping(lim)(p);
    if o.Consumed? {
      LoopLeavesSuffix(lim, o.rest);
      SuffixOfSuffix(Drain(Stepping(lim), o.rest).rest, o.rest, p);
    }
  }
}
