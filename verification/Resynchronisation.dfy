/** How the receiver finds its way back: garbage before well-formed records, and the one byte the
    header check lets it read beyond the payload. */
module Resynchronisation {
  import opened Bytes
  import opened Records
  import opened Incremental
  import opened DiodeParser
  import opened RoundTrip

  /** The byte read beyond the payload, when the header check lets it happen, never decides
      anything. */
  lemma OverreadIsHarmless(lim: Limits, p: seq<Byte>, past: Byte, other: Byte)
    ensures Step(lim, p, past) == Step(lim, p, other)
  {
    if p != [] && Resync(p).ok {
      var n := FindName(Resync(p).rest);
      if n.ok { HeaderIgnoresPast(lim, n.rest, n.end, past, other); }
    }
  }

  lemma HeaderIgnoresPast(lim: Limits, p: seq<Byte>, end: nat, past: Byte, other: Byte)
    requires 1 <= end && end + 3 <= |p|
    ensures var a, b := ReadHeader(lim, p, end, past), ReadHeader(lim, p, end, other);
      a == b || (a.Head? && b.Head? && Take(a) == Take(b))
  {
    if |p| >= end + 15 {
      var at := end + 3;
      SamePart(p, past, other, at, at + 4);
      SamePart(p, past, other, at + 5, at + 9);
      if |p| >= end + 16 { SamePart(p, past, other, at + 9, at + 13); }
    }
  }

  lemma SamePart(p: seq<Byte>, past: Byte, other: Byte, from: nat, to: nat)
    requires from <= to <= |p|
    ensures (p + [past])[from..to] == (p + [other])[from..to]
  {
    assert (p + [past])[from..to] == p[from..to] == (p + [other])[from..to];
  }

  /** A name whose opening quote cannot be told from a closing one. */
  predicate LooksLikeAnEnd(name: Name)
  {
    2 <= |name| && name[0] == COLON && name[1] == SPACE
  }

  lemma OpeningIsNoPattern(name: Name, e: seq<Byte>, w: seq<Byte>)
    requires Opens(e, name) && w <= e && 3 <= |w|
    ensures w[0] == QUOTE
    ensures w[..3] == PATTERN <==> LooksLikeAnEnd(name)
  {
    if |name| >= 1 { assert e[0 + 1] == name[0]; }
    if |name| >= 2 { assert e[1 + 1] == name[1]; }
    assert w[..3] == [e[0], e[1], e[2]];
  }

  /** Quote-free garbage in front of part of a stream is dropped. */
  lemma DrainGarbage(lim: Limits, g: seq<Byte>, w: seq<Byte>)
    requires g != [] && QUOTE !in g
    requires w != [] ==> w[0] == QUOTE
    requires 3 <= |w| ==> w[..3] != PATTERN
    ensures w == [] ==> Step(lim, g + w, 0) == Refill([], [])
    ensures 1 <= |w| < 3 ==> Step(lim, g + w, 0) == Refill(w, [])
    ensures 3 <= |w| ==> Step(lim, g + w, 0) == Step(lim, w, 0)
  {
    var p := g + w;
    NextQuoteIs(p, 0, |g|);
    assert p[|g|..] == w;
  }

  /** Records whose stream can follow garbage: the first name does not look like an end. */
  predicate CanFollowGarbage(rs: seq<Record>)
  {
    rs == [] || !LooksLikeAnEnd(rs[0].name)
  }

  lemma {:induction false} StreamOpens(lim: Limits, rs: seq<Record>, w: seq<Byte>)
    requires AllWellFormed(lim, rs) && CanFollowGarbage(rs) && w <= Flatten(Encodings(lim, rs))
    ensures w != [] ==> w[0] == QUOTE
    ensures 3 <= |w| ==> w[..3] != PATTERN
    ensures |w| < 3 ==> Drain(Stepping(lim), w).records == [] && Drain(Stepping(lim), w).rest == w
  {
    if w != [] {
      var es := Encodings(lim, rs);
      var e := es[0];
      EncodeHasParts(rs[0]);
      RecordOpens(rs[0], e);
      var k := if |w| < 3 then |w| else 3;
      assert w[..k] == Flatten(es)[..k] == e[..k];
      assert w[0] == w[..k][0] == QUOTE;
      if |w| < 3 {
        RecordRecognised(lim, rs[0], e);
        assert w == w[..k];
        assert w < e;
      } else {
        OpeningIsNoPattern(rs[0].name, e, e[..3]);
      }
    }
  }

  /** One drain of garbage and what follows it is one drain of what follows it. */
  lemma {:induction false} DrainPastGarbage(lim: Limits, rs: seq<Record>, g: seq<Byte>, w: seq<Byte>)
    requires AllWellFormed(lim, rs) && CanFollowGarbage(rs) && w <= Flatten(Encodings(lim, rs))
    requires QUOTE !in g
    ensures var d, d' := Drain(Stepping(lim), g + w), Drain(Stepping(lim), w);
      d.records == d'.records && d.rest == d'.rest
  {
    SteppingShrinks(lim);
    if g == [] {
      assert g + w == w;
    } else {
      StreamOpens(lim, rs, w);
      DrainGarbage(lim, g, w);
      if |w| < 3 {
        RefillDrains(Stepping(lim), g + w);
      } else {
        SameStep(Stepping(lim), g + w, w);
      }
    }
  }

  lemma {:induction false} RefillDrains<L, R>(step: Stepper<L, R>, p: seq<Byte>)
    requires Shrinks(step) && step(p).Refill?
    ensures Drain(step, p).records == [] && Drain(step, p).rest == step(p).rest
  {
  }

  lemma {:induction false} SameStep<L, R>(step: Stepper<L, R>, p: seq<Byte>, q: seq<Byte>)
    requires Shrinks(step) && step(p) == step(q)
    ensures Drain(step, p).records == Drain(step, q).records && Drain(step, p).rest == Drain(step, q).rest
  {
  }

  /** Quote-free garbage before well-formed records changes nothing, however the bytes are cut: at
      every moment exactly the records complete so far have been consumed, in order. */
  lemma {:induction false} GarbageChangesNothing(lim: Limits, rs: seq<Record>, g: seq<Byte>, w: seq<Byte>,
                                                 pieces: seq<seq<Byte>>)
    requires AllWellFormed(lim, rs) && CanFollowGarbage(rs) && w <= Flatten(Encodings(lim, rs))
    requires QUOTE !in g && Flatten(pieces) == g + w
    ensures Shrinks(Stepping(lim))
    ensures var es, got := Encodings(lim, rs), Run(Stepping(lim), [], pieces);
      var n := Whole(es, |w|);
      got.records == rs[..n] && w == Flatten(es[..n]) + got.rest
    decreases |pieces|
  {
    SteppingShrinks(lim);
    NothingWhole(lim, rs);
    if pieces == [] {
      assert w == [];
    } else {
      var c, later := pieces[0], Flatten(pieces[1..]);
      assert [] + c == c;
      if |c| <= |g| {
        var g' := g[|c|..];
        assert c == (c + later)[..|c|] == (g + w)[..|c|] == g[..|c|];
        assert later == (c + later)[|c|..] == (g + w)[|c|..] == g' + w;
        DrainPastGarbage(lim, rs, c, []);
        assert c + [] == c;
        GarbageChangesNothing(lim, rs, g', w, pieces[1..]);
      } else {
        var v := c[|g|..];
        assert c == (c + later)[..|c|] == (g + w)[..|c|] == g + w[..|c| - |g|];
        assert v == w[..|v|] && w == v + later by {
          assert c + later == g + (v + later);
          assert (g + w)[|g|..] == w && (g + (v + later))[|g|..] == v + later;
        }
        DrainPastGarbage(lim, rs, g, v);
        ReplaceFirst(Stepping(lim), pieces, v);
        ConsumesWhatWasSent(lim, rs, [v] + pieces[1..]);
      }
    }
  }

  lemma {:induction false} ReplaceFirst<L, R>(step: Stepper<L, R>, pieces: seq<seq<Byte>>, v: seq<Byte>)
    requires Shrinks(step) && pieces != []
    requires Drain(step, pieces[0]).records == Drain(step, v).records
    requires Drain(step, pieces[0]).rest == Drain(step, v).rest
    ensures Run(step, [], pieces).records == Run(step, [], [v] + pieces[1..]).records
    ensures Run(step, [], pieces).rest == Run(step, [], [v] + pieces[1..]).rest
    ensures Flatten([v] + pieces[1..]) == v + Flatten(pieces[1..])
  {
    var other := [v] + pieces[1..];
    assert other[0] == v && other[1..] == pieces[1..];
    assert [] + pieces[0] == pieces[0] && [] + v == v;
  }

  lemma {:induction false} FoundNameIsNoEnd(p: seq<Byte>)
    requires 3 <= |p| && p[..3] != PATTERN
    ensures var n := FindName(p); n.ok ==> 3 <= |n.rest| && n.rest[..3] != PATTERN
    decreases |p|
  {
    var j := NextQuote(p, 1);
    if j < |p| && |p| - j >= 3 && !Closes(p, j) {
      assert p[j..][..3] == p[j..j + 3];
      FoundNameIsNoEnd(p[j..]);
    } else if j < |p| && Closes(p, j) {
      assert FindName(p) == Named(p, j, true);
    }
  }

  lemma {:induction false} FoundNameOpens(p: seq<Byte>)
    requires p != [] && p[0] == QUOTE
    ensures FindName(p).ok ==> FindName(p).rest[0] == QUOTE
    decreases |p|
  {
    var j := NextQuote(p, 1);
    if j < |p| && |p| - j >= 3 && p[j..j + 3] != PATTERN { FoundNameOpens(p[j..]); }
  }

  lemma HeaderNameIsNoEnd(lim: Limits, p: seq<Byte>, end: nat, past: Byte)
    requires 1 <= end && end + 3 <= |p| && p[0] == QUOTE && p[..3] != PATTERN
    ensures var h := ReadHeader(lim, p, end, past); h.Head? ==> !LooksLikeAnEnd(h.name)
  {
    var raw := p[1..end];
    var name := LookupName(raw);
    if 2 <= |name| { assert name[0] == p[1] && name[1] == p[2]; }
    assert p[..3] == [p[0], p[1], p[2]];
  }

  /** After a resynchronisation no record is consumed whose name looks like an end. */
  lemma ResyncYieldsNoEnd(lim: Limits, p: seq<Byte>, past: Byte)
    requires p != [] && p[0] != QUOTE
    ensures var o := Step(lim, p, past); o.Consumed? ==> !LooksLikeAnEnd(o.record.name)
  {
    var s := Resync(p);
    if s.ok {
      FoundNameIsNoEnd(s.rest);
      FoundNameOpens(s.rest);
      var n := FindName(s.rest);
      if n.ok { HeaderNameIsNoEnd(lim, n.rest, n.end, past); }
    }
  }

  /** Exactly which record survives being the first after garbage. */
  lemma {:induction false} FirstAfterGarbage(lim: Limits, r: Record, g: seq<Byte>)
    requires WellFormed(lim, r) && g != [] && QUOTE !in g
    ensures Shrinks(Stepping(lim))
    ensures Drain(Stepping(lim), g + Encode(r)).records == [r] <==> !LooksLikeAnEnd(r.name)
  {
    SteppingShrinks(lim);
    if LooksLikeAnEnd(r.name) {
      LostAfterGarbage(lim, r, g, Encode(r));
    } else {
      var es := Encodings(lim, [r]);
      assert Flatten(es) == es[0] + Flatten(es[1..]) == Encode(r);
      GarbageChangesNothing(lim, [r], g, Encode(r), [g + Encode(r)]);
      OneRun(Stepping(lim), g + Encode(r));
      WholeIsAll(es);
    }
  }

  lemma {:induction false} LostAfterGarbage(lim: Limits, r: Record, g: seq<Byte>, e: seq<Byte>)
    requires g != [] && QUOTE !in g && LooksLikeAnEnd(r.name)
    ensures Drain(Stepping(lim), g + e).records != [r]
  {
    ResyncYieldsNoEnd(lim, g + e, 0);
    SteppingShrinks(lim);
    FirstConsumed(Stepping(lim), g + e);
  }

  lemma {:induction false} FirstConsumed<L, R>(step: Stepper<L, R>, p: seq<Byte>)
    requires Shrinks(step)
    ensures var rs := Drain(step, p).records; rs != [] ==> step(p).Consumed? && rs[0] == step(p).record
  {
  }

  lemma {:induction false} OneRun<L, R>(step: Stepper<L, R>, p: seq<Byte>)
    requires Shrinks(step)
    ensures Flatten([p]) == p
    ensures Run(step, [], [p]).records == Drain(step, p).records
  {
    assert [] + p == p && [p][1..] == [];
  }
}
