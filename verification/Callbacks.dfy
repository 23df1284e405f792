/** What the callbacks of the subscriptions leave in the memories of the threads: of every connected PV the
    value and the timestamp that came last. */
module Callbacks {
  import opened Wrappers
  import opened Bytes
  import opened WorkSplit
  import opened Placement
  import Memory = ReceiverStore

  /** How the PVs are laid out: the sizes of the threads' memories, and of every PV its spot and the length
      of its value, none if it is not connected. */
  datatype Layout = Layout(sizes: seq<nat>, spots: seq<Spot>, lengths: seq<Option<nat>>)

  predicate Has(l: Layout, i: nat)
  {
    i < |l.spots| == |l.lengths| && l.lengths[i].Some?
  }

  ghost predicate GoodLayout(l: Layout)
  {
    && |l.spots| == |l.lengths|
    && (forall i | 0 <= i < |l.spots| && Has(l, i) :: Fits(l, i))
    && forall i, j | 0 <= i < j < |l.spots| && Has(l, i) && Has(l, j) :: Apart(l, i, j)
  }

  ghost predicate Fits(l: Layout, i: nat)
    requires Has(l, i)
  {
    l.spots[i].thread < |l.sizes| && EndOf(l, i) <= l.sizes[l.spots[i].thread]
  }

  function EndOf(l: Layout, i: nat): nat
    requires Has(l, i)
  {
    l.spots[i].at + l.lengths[i].value + STAMP
  }

  ghost predicate Apart(l: Layout, i: nat, j: nat)
    requires Has(l, i) && Has(l, j)
  {
    l.spots[i].thread == l.spots[j].thread ==> EndOf(l, i) <= l.spots[j].at || EndOf(l, j) <= l.spots[i].at
  }

  /** The layout of the subscriber's PVs. */
  function LayoutOf(pvs: seq<Pv>, maxArraySize: nat, sizes: seq<nat>, spots: seq<Spot>): Layout
  {
    Layout(sizes, spots,
           seq(|pvs|, i requires 0 <= i < |pvs| =>
             if IsConnected(pvs, maxArraySize, i) then Some(Value(pvs[i])) else None))
  }

  /** Wherever the threads found them, the connected PVs have room and are apart, even where the ranges of
      two threads overlap. */
  lemma LaidOutWell(pvs: seq<Pv>, maxArraySize: nat, sizes: seq<nat>, spots: seq<Spot>)
    requires |sizes| > 0 && WorkSplit.Sized(pvs, maxArraySize, |sizes|, sizes)
    requires Spotted(pvs, maxArraySize, |sizes|, spots)
    ensures GoodLayout(LayoutOf(pvs, maxArraySize, sizes, spots))
  {
    var l := LayoutOf(pvs, maxArraySize, sizes, spots);
    forall i | 0 <= i < |spots| && Has(l, i) ensures Fits(l, i) {
      assert SpotFrom(pvs, maxArraySize, |sizes|, spots[i], i);
      SpotFits(pvs, maxArraySize, |sizes|, sizes, spots[i], i);
    }
    forall i, j | 0 <= i < j < |spots| && Has(l, i) && Has(l, j) ensures Apart(l, i, j) {
      if spots[i].thread == spots[j].thread { SpotsApart(pvs, maxArraySize, |sizes|, spots, i, j); }
    }
  }

  ghost predicate Shaped(l: Layout, mems: seq<seq<Byte>>)
  {
    |mems| == |l.sizes| && forall t | 0 <= t < |mems| :: |mems[t]| == l.sizes[t]
  }

  /** One of the two subscriptions of a PV reports. */
  datatype News = NewValue(i: nat, bytes: seq<Byte>) | NewStamp(i: nat, bytes: seq<Byte>)

  predicate GoodNews(l: Layout, e: News)
  {
    Has(l, e.i) && |e.bytes| == if e.NewValue? then l.lengths[e.i].value else STAMP
  }

  /** Where the bytes go: to the spot, or behind the value. */
  function Target(l: Layout, e: News): nat
    requires GoodNews(l, e)
  {
    l.spots[e.i].at + if e.NewValue? then 0 else l.lengths[e.i].value
  }

  function Part(mems: seq<seq<Byte>>, t: nat, from: nat, length: nat): (p: seq<Byte>)
    requires t < |mems| && from + length <= |mems[t]|
    ensures |p| == length
  {
    mems[t][from..from + length]
  }

  function Copied(mems: seq<seq<Byte>>, t: nat, at: nat, bytes: seq<Byte>): (m: seq<seq<Byte>>)
    requires t < |mems| && at + |bytes| <= |mems[t]|
    ensures |m| == |mems| && forall u | 0 <= u < |m| :: |m[u]| == |mems[u]|
  {
    mems[t := Memory.Put(mems[t], at, bytes)]
  }

  /** Value and timestamp of a PV, where its spot says they are. */
  function ValueOf(l: Layout, mems: seq<seq<Byte>>, i: nat): (v: seq<Byte>)
    requires GoodLayout(l) && Shaped(l, mems) && Has(l, i)
    ensures |v| == l.lengths[i].value
  {
    assert Fits(l, i);
    Part(mems, l.spots[i].thread, l.spots[i].at, l.lengths[i].value)
  }

  function StampOf(l: Layout, mems: seq<seq<Byte>>, i: nat): (v: seq<Byte>)
    requires GoodLayout(l) && Shaped(l, mems) && Has(l, i)
    ensures |v| == STAMP
  {
    assert Fits(l, i);
    Part(mems, l.spots[i].thread, l.spots[i].at + l.lengths[i].value, STAMP)
  }

  lemma ReadFrom(l: Layout, mems: seq<seq<Byte>>, i: nat, t: nat, at: nat, length: nat)
    requires GoodLayout(l) && Shaped(l, mems) && Has(l, i) && l.spots[i] == Spot(t, at) && l.lengths[i] == Some(length)
    ensures t < |mems| && at + length + STAMP <= |mems[t]|
    ensures ValueOf(l, mems, i) == mems[t][at..at + length]
    ensures StampOf(l, mems, i) == mems[t][at + length..at + length + STAMP]
  {
    assert Fits(l, i);
  }

  /** The memories after a callback. */
  function Deliver(l: Layout, mems: seq<seq<Byte>>, e: News): (m: seq<seq<Byte>>)
    requires GoodLayout(l) && Shaped(l, mems) && GoodNews(l, e)
    ensures Shaped(l, m)
  {
    assert Fits(l, e.i);
    Copied(mems, l.spots[e.i].thread, Target(l, e), e.bytes)
  }

  lemma SameOrApart(l: Layout, i: nat, j: nat)
    requires GoodLayout(l) && Has(l, i) && Has(l, j)
    ensures Fits(l, i) && Fits(l, j) && (i == j || Apart(l, i, j))
  {
    assert j < i ==> Apart(l, j, i);
  }

  /** A callback changes the value or the timestamp of its PV and nothing of any other. */
  lemma ValueLands(l: Layout, mems: seq<seq<Byte>>, e: News, i: nat)
    requires GoodLayout(l) && Shaped(l, mems) && GoodNews(l, e) && Has(l, i)
    ensures ValueOf(l, Deliver(l, mems, e), i) == if e.NewValue? && e.i == i then e.bytes else ValueOf(l, mems, i)
  {
    SameOrApart(l, i, e.i);
    PartOfCopied(mems, l.spots[e.i].thread, Target(l, e), e.bytes, l.spots[i].thread, l.spots[i].at,
      l.lengths[i].value);
  }

  lemma StampLands(l: Layout, mems: seq<seq<Byte>>, e: News, i: nat)
    requires GoodLayout(l) && Shaped(l, mems) && GoodNews(l, e) && Has(l, i)
    ensures StampOf(l, Deliver(l, mems, e), i) == if e.NewStamp? && e.i == i then e.bytes else StampOf(l, mems, i)
  {
    SameOrApart(l, i, e.i);
    PartOfCopied(mems, l.spots[e.i].thread, Target(l, e), e.bytes, l.spots[i].thread,
      l.spots[i].at + l.lengths[i].value, STAMP);
  }

  lemma PartOfCopied(mems: seq<seq<Byte>>, t: nat, at: nat, bytes: seq<Byte>, u: nat, from: nat, length: nat)
    requires t < |mems| && u < |mems| && at + |bytes| <= |mems[t]| && from + length <= |mems[u]|
    ensures var m := Copied(mems, t, at, bytes);
      && from + length <= |m[u]|
      && (t != u || at + |bytes| <= from || from + length <= at ==>
        Part(m, u, from, length) == Part(mems, u, from, length))
      && (t == u && at == from && |bytes| == length ==> Part(m, u, from, length) == bytes)
  {
  }

  // ----- runs

  ghost predicate AllGood(l: Layout, es: seq<News>)
  {
    forall k | 0 <= k < |es| :: GoodNews(l, es[k])
  }

  ghost function Delivered(l: Layout, mems: seq<seq<Byte>>, es: seq<News>): (m: seq<seq<Byte>>)
    requires GoodLayout(l) && Shaped(l, mems) && AllGood(l, es)
    ensures Shaped(l, m)
  {
    if es == [] then mems else Deliver(l, Delivered(l, mems, es[..|es| - 1]), es[|es| - 1])
  }

  /** The last value reported of PV i, and the last timestamp. */
  function LastValue(es: seq<News>, i: nat, first: seq<Byte>): seq<Byte>
  {
    if es == [] then first
    else
      var e := es[|es| - 1];
      if e.NewValue? && e.i == i then e.bytes else LastValue(es[..|es| - 1], i, first)
  }

  function LastStamp(es: seq<News>, i: nat, first: seq<Byte>): seq<Byte>
  {
    if es == [] then first
    else
      var e := es[|es| - 1];
      if e.NewStamp? && e.i == i then e.bytes else LastStamp(es[..|es| - 1], i, first)
  }

  /** Over any run of callbacks every connected PV has what was reported last of it. */
  lemma {:induction false} HoldsTheLast(l: Layout, mems: seq<seq<Byte>>, es: seq<News>, i: nat)
    requires GoodLayout(l) && Shaped(l, mems) && AllGood(l, es) && Has(l, i)
    ensures ValueOf(l, Delivered(l, mems, es), i) == LastValue(es, i, ValueOf(l, mems, i))
    ensures StampOf(l, Delivered(l, mems, es), i) == LastStamp(es, i, StampOf(l, mems, i))
  {
    if es != [] {
      HoldsTheLast(l, mems, es[..|es| - 1], i);
      ValueLands(l, Delivered(l, mems, es[..|es| - 1]), es[|es| - 1], i);
      StampLands(l, Delivered(l, mems, es[..|es| - 1]), es[|es| - 1], i);
    }
  }
}
