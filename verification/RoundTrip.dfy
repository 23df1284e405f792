/** The round trip of the diode: whatever records the sender writes and however their bytes are
    cut, the receiver consumes exactly those records, in order and never in part. */
module RoundTrip {
  import opened Bytes
  import opened Records
  import opened Incremental
  import opened DiodeParser

  lemma {:induction false} NextQuoteIs(p: seq<Byte>, i: nat, j: nat)
    requires i <= j <= |p|
    requires forall k | i <= k < j :: p[k] != QUOTE
    requires j < |p| ==> p[j] == QUOTE
    ensures NextQuote(p, i) == j
    decreases j - i
  {
    if i < j { NextQuoteIs(p, i + 1, j); }
  }

  /** Where the parts of an encoded record lie. */
  ghost predicate HasParts(e: seq<Byte>, r: Record)
    requires |r.data| < 0x1_0000_0000
  {
    var n, s := |r.name|, |r.data|;
    && |e| == n + s + 27
    && e[0] == QUOTE && e[1..n + 1] == r.name
    && e[n + 1..n + 4] == PATTERN
    && e[n + 4..n + 8] == Le32(r.index) && e[n + 8] == r.typeId
    && e[n + 9..n + 13] == Le32(s) && e[n + 13..n + 17] == Le32(r.offset)
    && e[n + 17..n + 17 + s] == r.data && e[n + 17 + s..n + 25 + s] == r.stamp
  }

  lemma EncodeHasParts(r: Record)
    requires |r.data| < 0x1_0000_0000 && |r.stamp| == 8
    ensures HasParts(Encode(r), r)
  {
    var e, n := Encode(r), |r.name|;
    var front := [QUOTE] + r.name + PATTERN;
    var h := Header(r);
    assert e == front + h + (r.data + r.stamp + [LF, CR]);
    assert e[n + 4..n + 17] == h;
    assert h[0..4] == Le32(r.index) && h[5..9] == Le32(|r.data|) && h[9..13] == Le32(r.offset);
    assert e[n + 4..n + 8] == h[0..4] && e[n + 9..n + 13] == h[5..9] && e[n + 13..n + 17] == h[9..13];
  }

  /** Index and size are read from bytes that have arrived, even when the byte past the end is
      read for the offset; with the whole header there, so is the offset. */
  lemma HeaderFields(r: Record, e: seq<Byte>, p: seq<Byte>, past: Byte)
    requires |r.data| < 0x1_0000_0000 && HasParts(e, r)
    requires |r.name| + 16 <= |p| && (p <= e || e <= p)
    ensures var f := FieldsAt(p + [past], |r.name| + 4); f.index == r.index && f.size == |r.data|
    ensures e <= p ==> FieldsAt(p + [past], |r.name| + 4) == Fields(r.index, r.typeId, |r.data|, r.offset)
  {
    var b, at := p + [past], |r.name| + 4;
    assert b[at..at + 4] == e[at..at + 4];
    assert b[at + 5..at + 9] == e[at + 5..at + 9];
    Le32RoundTrip(r.index);
    Le32RoundTrip(|r.data|);
    if e <= p {
      assert b[at + 9..at + 13] == e[at + 9..at + 13];
      Le32RoundTrip(r.offset);
    }
  }

  lemma {:induction false} FindNameIs(p: seq<Byte>, j: nat)
    requires 1 <= j && j + 3 <= |p| && p[j..j + 3] == PATTERN
    requires forall k | 1 <= k < j :: p[k] != QUOTE
    ensures FindName(p) == Named(p, j, true)
  {
    assert p[j] == p[j..j + 3][0];
    NextQuoteIs(p, 1, j);
  }

  lemma {:induction false} FindNameWaits(p: seq<Byte>, j: nat)
    requires 1 <= j <= |p| < j + 3
    requires forall k | 1 <= k < j :: p[k] != QUOTE
    requires j < |p| ==> p[j] == QUOTE
    ensures FindName(p) == Named(p, 0, false)
  {
    NextQuoteIs(p, 1, j);
  }

  /** A byte string that opens with a quoted name. */
  ghost predicate Opens(e: seq<Byte>, name: Name)
  {
    && |name| + 4 <= |e|
    && e[0] == QUOTE && (forall k | 0 <= k < |name| :: e[k + 1] == name[k])
    && e[|name| + 1] == QUOTE && e[|name| + 2] == COLON && e[|name| + 3] == SPACE
  }

  lemma RecordOpens(r: Record, e: seq<Byte>)
    requires |r.data| < 0x1_0000_0000 && HasParts(e, r)
    ensures Opens(e, r.name)
  {
    var n := |r.name|;
    forall k | 0 <= k < n ensures e[k + 1] == r.name[k] {
      assert e[k + 1] == e[1..n + 1][k];
    }
    assert e[n + 1] == e[n + 1..n + 4][0] && e[n + 2] == e[n + 1..n + 4][1] && e[n + 3] == e[n + 1..n + 4][2];
  }

  /** The name at the head of the payload is found as soon as its closing pattern is there, and not
      before. */
  lemma {:induction false} FindRecordName(name: Name, e: seq<Byte>, p: seq<Byte>)
    requires Opens(e, name) && QUOTE !in name
    requires p != [] && (p <= e || e <= p)
    ensures FindName(p) == if |p| < |name| + 4 then Named(p, 0, false) else Named(p, |name| + 1, true)
  {
    var n := |name|;
    forall k | 0 <= k < |p| && k < n + 4 ensures p[k] == e[k] {}
    forall k | 1 <= k < |p| && k < n + 1 ensures p[k] != QUOTE {
      assert e[k - 1 + 1] == name[k - 1];
    }
    if |p| <= n + 1 {
      FindNameWaits(p, |p|);
    } else if |p| < n + 4 {
      FindNameWaits(p, n + 1);
    } else {
      assert p[n + 1..n + 4] == PATTERN;
      FindNameIs(p, n + 1);
    }
  }

  lemma HeadOfAny(lim: Limits, r: Record, e: seq<Byte>, p: seq<Byte>, past: Byte)
    requires |r.data| < 0x1_0000_0000 && HasParts(e, r) && e <= p && QUOTE !in r.name
    ensures ReadVarNameAndIndex(lim, p, past) == ReadHeader(lim, p, |r.name| + 1, past)
  {
    RecordOpens(r, e);
    FindRecordName(r.name, e, p);
    assert Resync(p) == Synced(p, true);
  }

  lemma HeaderOfAny(lim: Limits, r: Record, e: seq<Byte>, p: seq<Byte>, past: Byte)
    requires |r.data| < 0x1_0000_0000 && HasParts(e, r) && e <= p
    ensures ReadHeader(lim, p, |r.name| + 1, past) ==
      if |r.name| > 64 then Wait(p[|r.name|..])
      else if r.index >= lim.count || |r.data| >= lim.maxSize then Wait([])
      else Head(p, |r.name|, LookupName(r.name), r.index, r.typeId, |r.data|, r.offset)
  {
    HeaderFields(r, e, p, past);
    assert p[1..|r.name| + 1] == e[1..|r.name| + 1];
  }

  lemma TakeAny(r: Record, e: seq<Byte>, p: seq<Byte>, name: Name)
    requires |r.data| < 0x1_0000_0000 && HasParts(e, r) && e <= p
    ensures Take(Head(p, |r.name|, name, r.index, r.typeId, |r.data|, r.offset))
         == Consumed(p[|e|..], [Looked(r.index, name)], r.(name := name))
  {
    var n, s := |r.name|, |r.data|;
    assert p[n + 17..n + 17 + s] == e[n + 17..n + 17 + s];
    assert p[n + 17 + s..n + 25 + s] == e[n + 17 + s..n + 25 + s];
  }

  /** What becomes of any record whose name has no quote: one with a name of more than 64 bytes is skipped up to
      the end of that name, one with an index or a size the receiver does not have empties the payload, and any
      other is consumed, under its name up to the first dot. */
  lemma StepOnAnyRecord(lim: Limits, r: Record, e: seq<Byte>, p: seq<Byte>, past: Byte)
    requires |r.data| < 0x1_0000_0000 && HasParts(e, r) && e <= p && QUOTE !in r.name
    ensures Step(lim, p, past) ==
      if |r.name| > 64 then Refill(p[|r.name|..], [])
      else if r.index >= lim.count || |r.data| >= lim.maxSize then Refill([], [])
      else Consumed(p[|e|..], [Looked(r.index, LookupName(r.name))], r.(name := LookupName(r.name)))
  {
    HeadOfAny(lim, r, e, p, past);
    HeaderOfAny(lim, r, e, p, past);
    TakeAny(r, e, p, LookupName(r.name));
  }

  /** A whole record at the head of the payload is consumed, by exactly its own length. */
  lemma StepOnRecord(lim: Limits, r: Record, e: seq<Byte>, p: seq<Byte>, past: Byte)
    requires WellFormed(lim, r) && HasParts(e, r) && e <= p
    ensures Step(lim, p, past) == Consumed(p[|e|..], [Looked(r.index, r.name)], r)
  {
    StepOnAnyRecord(lim, r, e, p, past);
  }

  /** As long as the header is not there, the parser waits and keeps what it has. */
  lemma HeadWaits(lim: Limits, r: Record, e: seq<Byte>, p: seq<Byte>, past: Byte)
    requires WellFormed(lim, r) && HasParts(e, r) && p < e && p != [] && |p| < |r.name| + 16
    ensures ReadVarNameAndIndex(lim, p, past) == Wait(p)
  {
    RecordOpens(r, e);
    FindRecordName(r.name, e, p);
    assert Resync(p) == Synced(p, true);
  }

  lemma NameOfPart(lim: Limits, r: Record, e: seq<Byte>, p: seq<Byte>, past: Byte)
    requires WellFormed(lim, r) && HasParts(e, r) && p < e && |r.name| + 16 <= |p|
    ensures ReadVarNameAndIndex(lim, p, past) == ReadHeader(lim, p, |r.name| + 1, past)
  {
    RecordOpens(r, e);
    FindRecordName(r.name, e, p);
    assert Resync(p) == Synced(p, true);
  }

  lemma HeaderOfPart(lim: Limits, r: Record, e: seq<Byte>, p: seq<Byte>, past: Byte)
    requires WellFormed(lim, r) && HasParts(e, r) && p < e && |r.name| + 16 <= |p|
    ensures var h := ReadHeader(lim, p, |r.name| + 1, past);
      h.Head? && h.left == p && h.nameSize == |r.name| && h.name == r.name && h.index == r.index && h.size == |r.data|
  {
    HeaderFields(r, e, p, past);
    assert p[1..|r.name| + 1] == e[1..|r.name| + 1];
    assert LookupName(r.name) == r.name;
  }

  lemma HeadOfPart(lim: Limits, r: Record, e: seq<Byte>, p: seq<Byte>, past: Byte)
    requires WellFormed(lim, r) && HasParts(e, r) && p < e && |r.name| + 16 <= |p|
    ensures var h := ReadVarNameAndIndex(lim, p, past);
      h.Head? && h.left == p && h.nameSize == |r.name| && h.name == r.name && h.index == r.index && h.size == |r.data|
  {
    NameOfPart(lim, r, e, p, past);
    HeaderOfPart(lim, r, e, p, past);
  }

  /** A record that is not complete yet is left untouched. */
  lemma StepOnPart(lim: Limits, r: Record, e: seq<Byte>, p: seq<Byte>, past: Byte)
    requires WellFormed(lim, r) && HasParts(e, r) && p < e
    ensures Step(lim, p, past) == Refill(p, if |p| < |r.name| + 16 then [] else [Looked(r.index, r.name)])
  {
    if p != [] {
      if |p| < |r.name| + 16 { HeadWaits(lim, r, e, p, past); } else { HeadOfPart(lim, r, e, p, past); }
    }
  }

  /** The parser's step, packaged: it recognises the encoding of every well-formed record. */
  lemma RecordRecognised(lim: Limits, r: Record, e: seq<Byte>)
    requires WellFormed(lim, r) && HasParts(e, r)
    ensures Recognises(Stepping(lim), e, r)
  {
    forall p | e <= p ensures Stepping(lim)(p) == Consumed(p[|e|..], [Looked(r.index, r.name)], r) {
      StepOnRecord(lim, r, e, p, 0);
    }
    forall p | p < e ensures Stepping(lim)(p).Refill? && Stepping(lim)(p).rest == p {
      StepOnPart(lim, r, e, p, 0);
    }
  }

  lemma SteppingShrinks(lim: Limits)
    ensures Shrinks(Stepping(lim)) && Stepping(lim)([]).Refill?
  {
  }

  lemma {:induction false} RecordsAreAStream(lim: Limits, rs: seq<Record>, es: seq<seq<Byte>>)
    requires AllWellFormed(lim, rs) && |es| == |rs|
    requires forall i | 0 <= i < |rs| :: es[i] == Encode(rs[i])
    ensures Stream(Stepping(lim), es, rs)
    decreases |rs|
  {
    if rs != [] {
      EncodeHasParts(rs[0]);
      RecordRecognised(lim, rs[0], es[0]);
      RecordsAreAStream(lim, rs[1..], es[1..]);
    }
  }

  /** The round trip, at every moment of the transfer: when any part of the records' bytes has
      arrived, in whatever pieces, exactly the records that are complete in it have been consumed,
      in order, and the payload holds exactly the part of the next one. */
  lemma {:induction false} ConsumesWhatWasSent(lim: Limits, rs: seq<Record>, pieces: seq<seq<Byte>>)
    requires AllWellFormed(lim, rs) && Flatten(pieces) <= Flatten(Encodings(lim, rs))
    ensures Shrinks(Stepping(lim))
    ensures var es, got := Encodings(lim, rs), Run(Stepping(lim), [], pieces);
      var n := Whole(es, |Flatten(pieces)|);
      got.records == rs[..n] && Flatten(pieces) == Flatten(es[..n]) + got.rest
  {
    var es := Encodings(lim, rs);
    SteppingShrinks(lim);
    RecordsAreAStream(lim, rs, es);
    NothingWhole(lim, rs);
    assert [] + Flatten(pieces) == Flatten(pieces);
    RunPrefix(Stepping(lim), es, rs, [], pieces);
  }

  lemma NothingWhole(lim: Limits, rs: seq<Record>)
    requires AllWellFormed(lim, rs)
    ensures Whole(Encodings(lim, rs), 0) == 0
  {
    if rs != [] { assert |Encodings(lim, rs)[0]| == |Encode(rs[0])| >= 27; }
  }

  /** The round trip once everything has arrived: the records consumed are the records sent. */
  lemma {:induction false} ReceivesWhatWasSent(lim: Limits, rs: seq<Record>, pieces: seq<seq<Byte>>)
    requires AllWellFormed(lim, rs) && Flatten(pieces) == Flatten(Encodings(lim, rs))
    ensures Shrinks(Stepping(lim))
    ensures var got := Run(Stepping(lim), [], pieces); got.records == rs && got.rest == []
  {
    var es := Encodings(lim, rs);
    ConsumesWhatWasSent(lim, rs, pieces);
    WholeIsAll(es);
    assert rs[..|rs|] == rs && es[..|es|] == es;
  }

  lemma {:induction false} WholeIsAll(es: seq<seq<Byte>>)
    ensures Whole(es, |Flatten(es)|) == |es|
  {
    if es != [] {
      assert |Flatten(es)| - |es[0]| == |Flatten(es[1..])|;
      WholeIsAll(es[1..]);
    }
  }
}
