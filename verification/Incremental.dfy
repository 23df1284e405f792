/** Incremental parsing in general: a step either waits for more bytes or consumes a record from the
    head of the payload; the loop around it runs again after every piece that arrives.  What is
    proved here holds for any step function, whatever the records look like. */
module Incremental {
  import opened Bytes

  /** `rest` is the payload afterwards; `looked` is what the step resolved on the way, which a step
      that ends up waiting can do too. */
  datatype Outcome<L, R> =
    | Refill(rest: seq<Byte>, looked: seq<L>)
    | Consumed(rest: seq<Byte>, looked: seq<L>, record: R)

  datatype Progress<L, R> = Progress(rest: seq<Byte>, looked: seq<L>, records: seq<R>)

  type Stepper<L, R> = seq<Byte> -> Outcome<L, R>

  ghost predicate Shrinks<L, R>(step: Stepper<L, R>)
  {
    forall p :: |step(p).rest| <= |p| && (step(p).Consumed? ==> |step(p).rest| < |p|)
  }

  /** Steps until one asks for more bytes. */
  ghost function Drain<L, R>(step: Stepper<L, R>, p: seq<Byte>): (d: Progress<L, R>)
    requires Shrinks(step)
    ensures |d.rest| <= |p|
    decreases |p|
  {
    var o := step(p);
    if o.Refill? then Progress(o.rest, o.looked, [])
    else
      var d := Drain(step, o.rest);
      Progress(d.rest, o.looked + d.looked, [o.record] + d.records)
  }

  /** The loop run again after every piece that arrives. */
  ghost function Run<L, R>(step: Stepper<L, R>, p: seq<Byte>, pieces: seq<seq<Byte>>): (d: Progress<L, R>)
    requires Shrinks(step)
    decreases |pieces|
  {
    if pieces == [] then Progress(p, [], [])
    else
      var first := Drain(step, p + pieces[0]);
      var d := Run(step, first.rest, pieces[1..]);
      Progress(d.rest, first.looked + d.looked, first.records + d.records)
  }

  /** The step recognises the byte string e as record r: it consumes e at the head of any payload,
      and leaves a payload that is only part of e untouched. */
  ghost predicate Recognises<L, R>(step: Stepper<L, R>, e: seq<Byte>, r: R)
  {
    && (forall p | e <= p :: step(p).Consumed? && step(p).record == r && step(p).rest == p[|e|..])
    && (forall p | p < e :: step(p).Refill? && step(p).rest == p)
  }

  ghost predicate Stream<L, R>(step: Stepper<L, R>, es: seq<seq<Byte>>, rs: seq<R>)
    ensures Stream(step, es, rs) ==> |es| == |rs|
    decreases |es|
  {
    if es == [] then rs == []
    else rs != [] && Recognises(step, es[0], rs[0]) && Stream(step, es[1..], rs[1..])
  }

  lemma {:induction false} StreamDrop<L, R>(step: Stepper<L, R>, es: seq<seq<Byte>>, rs: seq<R>, k: nat)
    requires Stream(step, es, rs) && k <= |es|
    ensures Stream(step, es[k..], rs[k..])
    decreases k
  {
    if k == 0 {
      assert es[k..] == es && rs[k..] == rs;
    } else {
      StreamDrop(step, es[1..], rs[1..], k - 1);
      assert es[1..][k - 1..] == es[k..] && rs[1..][k - 1..] == rs[k..];
    }
  }

  /** How many of the pieces are complete in the first n bytes of their concatenation. */
  function Whole(es: seq<seq<Byte>>, n: nat): (k: nat)
    ensures k <= |es|
  {
    if es == [] || n < |es[0]| then 0 else 1 + Whole(es[1..], n - |es[0]|)
  }

  /** That count is the right one: the next piece is not complete. */
  lemma {:induction false} WholeIsMaximal(es: seq<seq<Byte>>, n: nat)
    requires n <= |Flatten(es)|
    ensures var k := Whole(es, n);
      var done := |Flatten(es[..k])|;
      done <= n && if k == |es| then done == n else n < done + |es[k]|
  {
    if es != [] && |es[0]| <= n {
      var k := Whole(es[1..], n - |es[0]|);
      WholeIsMaximal(es[1..], n - |es[0]|);
      assert es[..k + 1][1..] == es[1..][..k];
    }
  }

  lemma {:induction false} WholeCons(es: seq<seq<Byte>>, w: seq<Byte>, rest: seq<Byte>)
    requires es != [] && es[0] <= w
    requires var w' := w[|es[0]|..]; w' == Flatten(es[1..][..Whole(es[1..], |w'|)]) + rest
    ensures w == Flatten(es[..Whole(es, |w|)]) + rest
  {
    var k := Whole(es[1..], |w| - |es[0]|);
    var t := es[..k + 1];
    assert t[0] == es[0] && t[1..] == es[1..][..k];
    assert w == es[0] + w[|es[0]|..];
  }

  lemma {:induction false} HeadAndTail(es: seq<seq<Byte>>, w: seq<Byte>)
    requires es != [] && w <= Flatten(es)
    ensures |w| < |es[0]| ==> w < es[0]
    ensures |w| >= |es[0]| ==> es[0] <= w && w[|es[0]|..] <= Flatten(es[1..])
  {
    var f := es[0] + Flatten(es[1..]);
    assert w == f[..|w|];
    if |w| < |es[0]| {
      assert w == es[0][..|w|];
    } else {
      assert w[..|es[0]|] == es[0];
      assert f[|es[0]|..] == Flatten(es[1..]);
    }
  }

  /** Draining a prefix of a stream consumes exactly the records that are complete in it and leaves
      exactly the beginning of the next one. */
  lemma {:induction false} DrainPrefix<L, R>(step: Stepper<L, R>, es: seq<seq<Byte>>, rs: seq<R>, w: seq<Byte>)
    requires Shrinks(step) && Stream(step, es, rs) && w <= Flatten(es)
    requires step([]).Refill?
    ensures Drain(step, w).records == rs[..Whole(es, |w|)]
    ensures w == Flatten(es[..Whole(es, |w|)]) + Drain(step, w).rest
    decreases |es|
  {
    if es == [] {
      assert w == [];
    } else {
      HeadAndTail(es, w);
      if |w| < |es[0]| {
        assert es[..0] == [];
      } else {
        var k, w' := Whole(es[1..], |w| - |es[0]|), w[|es[0]|..];
        DrainPrefix(step, es[1..], rs[1..], w');
        DrainCons(step, es[0], rs[0], w);
        WholeCons(es, w, Drain(step, w').rest);
        TakeCons(rs, k);
      }
    }
  }

  lemma TakeCons<R>(rs: seq<R>, k: nat)
    requires k < |rs|
    ensures rs[..k + 1] == [rs[0]] + rs[1..][..k]
  {
  }

  lemma {:induction false} DrainCons<L, R>(step: Stepper<L, R>, e: seq<Byte>, r: R, w: seq<Byte>)
    requires Shrinks(step) && Recognises(step, e, r) && e <= w
    ensures Drain(step, w).records == [r] + Drain(step, w[|e|..]).records
      && Drain(step, w).rest == Drain(step, w[|e|..]).rest
  {
  }

  lemma {:induction false} WholeSplit(es: seq<seq<Byte>>, k: nat, m: nat)
    requires k <= |es|
    ensures Whole(es, |Flatten(es[..k])| + m) == k + Whole(es[k..], m)
  {
    if k == 0 {
      assert es[k..] == es;
    } else {
      WholeSplit(es[1..], k - 1, m);
      assert es[..k][0] == es[0] && es[..k][1..] == es[1..][..k - 1] && es[1..][k - 1..] == es[k..];
    }
  }

  lemma {:induction false} SplitFlatten(es: seq<seq<Byte>>, k: nat)
    requires k <= |es|
    ensures Flatten(es) == Flatten(es[..k]) + Flatten(es[k..])
  {
    if k == 0 {
      assert es[k..] == es;
    } else {
      SplitFlatten(es[1..], k - 1);
      assert es[..k][0] == es[0] && es[..k][1..] == es[1..][..k - 1] && es[1..][k - 1..] == es[k..];
    }
  }

  lemma CancelPrefix(done: seq<Byte>, rest: seq<Byte>, later: seq<Byte>, tail: seq<Byte>)
    requires done + rest + later <= done + tail
    ensures rest + later <= tail
  {
    assert done + rest + later == done + (rest + later);
    forall i | 0 <= i < |rest + later| ensures i < |tail| && (rest + later)[i] == tail[i] {
      assert (done + (rest + later))[|done| + i] == (done + tail)[|done| + i];
    }
  }

  /** The pieces complete after more bytes are those complete before and those completed since. */
  lemma WholeGrows(es: seq<seq<Byte>>, k: nat, rest: seq<Byte>, m: nat)
    requires k <= |es| && Whole(es, |Flatten(es[..k]) + rest|) == k
    ensures Whole(es[k..], |rest|) == 0
    ensures var j := Whole(es[k..], |rest| + m);
      && Whole(es, |Flatten(es[..k]) + rest| + m) == k + j
      && Flatten(es[..k + j]) == Flatten(es[..k]) + Flatten(es[k..][..j])
  {
    WholeSplit(es, k, |rest|);
    WholeSplit(es, k, |rest| + m);
    var j := Whole(es[k..], |rest| + m);
    SplitFlatten(es[..k + j], k);
    assert es[..k + j][..k] == es[..k] && es[..k + j][k..] == es[k..][..j];
  }

  /** After k records of w the count of the complete ones goes on as that of the stream that is left. */
  ghost predicate CountGoesOn(es: seq<seq<Byte>>, w: seq<Byte>, later: seq<Byte>, k: nat, rest: seq<Byte>)
    requires k <= |es|
  {
    var j := Whole(es[k..], |rest + later|);
    && Whole(es, |w + later|) == k + j
    && Flatten(es[..k + j]) == Flatten(es[..k]) + Flatten(es[k..][..j])
  }

  /** After a piece that completes k records, what is left goes on as a stream of its own. */
  lemma {:induction false} RestIsAStream(es: seq<seq<Byte>>, w: seq<Byte>, later: seq<Byte>, k: nat, rest: seq<Byte>)
    requires w + later <= Flatten(es)
    requires k == Whole(es, |w|) && w == Flatten(es[..k]) + rest
    ensures rest + later <= Flatten(es[k..])
    ensures Whole(es[k..], |rest|) == 0
    ensures CountGoesOn(es, w, later, k, rest)
  {
    SplitFlatten(es, k);
    CancelPrefix(Flatten(es[..k]), rest, later, Flatten(es[k..]));
    WholeGrows(es, k, rest, |later|);
  }

  lemma Regroup(w: seq<Byte>, later: seq<Byte>, a: seq<Byte>, rest: seq<Byte>, b: seq<Byte>, r: seq<Byte>)
    requires w == a + rest && rest + later == b + r
    ensures w + later == a + b + r
  {
    assert w + later == a + (rest + later) == a + (b + r) == a + b + r;
  }

  /** The inductive step of RunPrefix: the first piece, and then what the others do. */
  lemma {:induction false} RunCons<L, R>(step: Stepper<L, R>, es: seq<seq<Byte>>, rs: seq<R>,
                                         p: seq<Byte>, pieces: seq<seq<Byte>>, k: nat, j: nat)
    requires Shrinks(step) && pieces != [] && k + j <= |es| == |rs|
    requires Drain(step, p + pieces[0]).records == rs[..k]
    requires p + pieces[0] == Flatten(es[..k]) + Drain(step, p + pieces[0]).rest
    requires Flatten(es[..k + j]) == Flatten(es[..k]) + Flatten(es[k..][..j])
    requires var rest := Drain(step, p + pieces[0]).rest;
      var d := Run(step, rest, pieces[1..]);
      d.records == rs[k..][..j] && rest + Flatten(pieces[1..]) == Flatten(es[k..][..j]) + d.rest
    ensures Run(step, p, pieces).records == rs[..k + j]
    ensures p + Flatten(pieces) == Flatten(es[..k + j]) + Run(step, p, pieces).rest
  {
    var rest := Drain(step, p + pieces[0]).rest;
    var d := Run(step, rest, pieces[1..]);
    assert rs[..k + j] == rs[..k] + rs[k..][..j];
    assert p + Flatten(pieces) == p + pieces[0] + Flatten(pieces[1..]);
    Regroup(p + pieces[0], Flatten(pieces[1..]), Flatten(es[..k]), rest, Flatten(es[k..][..j]), d.rest);
  }

  /** Of these bytes exactly the complete records have been consumed, in order, and the payload is exactly
      the beginning of the next one. */
  ghost predicate TakenSoFar<L, R>(es: seq<seq<Byte>>, rs: seq<R>, w: seq<Byte>, d: Progress<L, R>)
    requires |es| == |rs|
  {
    d.records == rs[..Whole(es, |w|)] && w == Flatten(es[..Whole(es, |w|)]) + d.rest
  }

  /** However the bytes are cut, that is so after every piece. */
  lemma {:induction false} RunPrefix<L, R>(step: Stepper<L, R>, es: seq<seq<Byte>>, rs: seq<R>,
                                           p: seq<Byte>, pieces: seq<seq<Byte>>)
    requires Shrinks(step) && Stream(step, es, rs) && step([]).Refill?
    requires p + Flatten(pieces) <= Flatten(es) && Whole(es, |p|) == 0
    ensures TakenSoFar(es, rs, p + Flatten(pieces), Run(step, p, pieces))
    decreases |pieces|, 1
  {
    if pieces == [] {
      RunNothing(step, es, rs, p);
    } else {
      FirstJoined(p, pieces);
      FirstPiece(step, es, rs, p + pieces[0], Flatten(pieces[1..]));
      RunRest(step, es, rs, p, pieces);
    }
  }

  lemma {:induction false} RunNothing<L, R>(step: Stepper<L, R>, es: seq<seq<Byte>>, rs: seq<R>, p: seq<Byte>)
    requires Shrinks(step) && |es| == |rs| && Whole(es, |p|) == 0
    ensures TakenSoFar(es, rs, p + Flatten([]), Run(step, p, []))
  {
    assert p + Flatten([]) == p;
    assert es[..0] == [];
  }

  /** What the bytes w complete is off, and the rest goes on from there as a stream of its own. */
  ghost predicate GoesOn<L, R>(step: Stepper<L, R>, es: seq<seq<Byte>>, rs: seq<R>, w: seq<Byte>, later: seq<Byte>)
    requires Shrinks(step) && |es| == |rs|
  {
    var k, rest := Whole(es, |w|), Drain(step, w).rest;
    && TakenSoFar(es, rs, w, Drain(step, w))
    && Stream(step, es[k..], rs[k..]) && rest + later <= Flatten(es[k..]) && Whole(es[k..], |rest|) == 0
    && CountGoesOn(es, w, later, k, rest)
  }

  /** The pieces after the first. */
  lemma {:induction false} RunRest<L, R>(step: Stepper<L, R>, es: seq<seq<Byte>>, rs: seq<R>, p: seq<Byte>,
                                         pieces: seq<seq<Byte>>)
    requires Shrinks(step) && step([]).Refill? && pieces != [] && |es| == |rs|
    requires p + Flatten(pieces) == p + pieces[0] + Flatten(pieces[1..])
    requires GoesOn(step, es, rs, p + pieces[0], Flatten(pieces[1..]))
    ensures TakenSoFar(es, rs, p + Flatten(pieces), Run(step, p, pieces))
    decreases |pieces|, 0
  {
    var k, rest := Whole(es, |p + pieces[0]|), Drain(step, p + pieces[0]).rest;
    RunPrefix(step, es[k..], rs[k..], rest, pieces[1..]);
    RunCons(step, es, rs, p, pieces, k, Whole(es[k..], |rest + Flatten(pieces[1..])|));
  }

  lemma {:induction false} FirstPiece<L, R>(step: Stepper<L, R>, es: seq<seq<Byte>>, rs: seq<R>, w: seq<Byte>,
                                            later: seq<Byte>)
    requires Shrinks(step) && Stream(step, es, rs) && step([]).Refill? && w + later <= Flatten(es)
    ensures GoesOn(step, es, rs, w, later)
  {
    ShorterPrefix(w, later, Flatten(es));
    DrainPrefix(step, es, rs, w);
    var k := Whole(es, |w|);
    RestIsAStream(es, w, later, k, Drain(step, w).rest);
    StreamDrop(step, es, rs, k);
  }

  lemma {:induction false} FirstJoined(p: seq<Byte>, pieces: seq<seq<Byte>>)
    requires pieces != []
    ensures p + Flatten(pieces) == p + pieces[0] + Flatten(pieces[1..])
  {
  }

  lemma ShorterPrefix(w: seq<Byte>, later: seq<Byte>, all: seq<Byte>)
    requires w + later <= all
    ensures w <= all
  {
    assert w == (w + later)[..|w|];
  }

  // ----- what the steps resolve on the way

  /** Whatever a step resolves while e is at the head of the payload, or part of e is all of it, has
      the property. */
  ghost predicate LooksGood<L, R>(step: Stepper<L, R>, e: seq<Byte>, good: L -> bool)
  {
    forall p, x | (e <= p || p < e) && x in step(p).looked :: good(x)
  }

  ghost predicate AllGood<L>(looked: seq<L>, good: L -> bool)
  {
    forall x | x in looked :: good(x)
  }

  lemma {:induction false} DrainLooks<L, R>(step: Stepper<L, R>, es: seq<seq<Byte>>, rs: seq<R>,
                                            good: L -> bool, w: seq<Byte>)
    requires Shrinks(step) && Stream(step, es, rs) && w <= Flatten(es)
    requires forall i | 0 <= i < |es| :: LooksGood(step, es[i], good)
    requires step([]) == Refill([], [])
    ensures AllGood(Drain(step, w).looked, good)
    decreases |es|
  {
    if es == [] {
      assert w == [];
    } else {
      HeadAndTail(es, w);
      assert LooksGood(step, es[0], good);
      if |w| >= |es[0]| { DrainLooks(step, es[1..], rs[1..], good, w[|es[0]|..]); }
    }
  }

  lemma {:induction false} RunLooks<L, R>(step: Stepper<L, R>, es: seq<seq<Byte>>, rs: seq<R>,
                                          good: L -> bool, p: seq<Byte>, pieces: seq<seq<Byte>>)
    requires Shrinks(step) && Stream(step, es, rs) && step([]) == Refill([], [])
    requires p + Flatten(pieces) <= Flatten(es) && Whole(es, |p|) == 0
    requires forall i | 0 <= i < |es| :: LooksGood(step, es[i], good)
    ensures AllGood(Run(step, p, pieces).looked, good)
    decreases |pieces|
  {
    if pieces != [] {
      var w, later := p + pieces[0], Flatten(pieces[1..]);
      assert p + Flatten(pieces) == w + later;
      ShorterPrefix(w, later, Flatten(es));
      DrainPrefix(step, es, rs, w);
      DrainLooks(step, es, rs, good, w);
      var k, rest := Whole(es, |w|), Drain(step, w).rest;
      RestIsAStream(es, w, later, k, rest);
      StreamDrop(step, es, rs, k);
      RunLooks(step, es[k..], rs[k..], good, rest, pieces[1..]);
    }
  }
}
