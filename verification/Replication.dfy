/** The diode end to end: the bytes of the sender's records, cut anyhow, leave the receiver's memory
    holding exactly the values sent. */
module Replication {
  import opened Wrappers
  import opened Bytes
  import opened Records
  import opened Incremental
  import opened DiodeParser
  import opened RoundTrip
  import opened NameSearch
  import opened ReceiverStore
  import opened Delivery
  import opened Transport
  import opened Queues

  ghost predicate FromNumbering(sender: seq<Name>, rs: seq<Record>)
  {
    forall k | 0 <= k < |rs| :: rs[k].index < |sender| && sender[rs[k].index] == rs[k].name
  }

  lemma PartLooks(lim: Limits, r: Record, e: seq<Byte>, p: seq<Byte>)
    requires WellFormed(lim, r) && HasParts(e, r) && (p < e || e <= p)
    ensures forall x | x in Step(lim, p, 0).looked :: x == Looked(r.index, r.name)
  {
    if e <= p {
      StepOnRecord(lim, r, e, p, 0);
    } else {
      StepOnPart(lim, r, e, p, 0);
    }
  }

  lemma RecordsLookGood(lim: Limits, r: Record, e: seq<Byte>, sender: seq<Name>)
    requires WellFormed(lim, r) && HasParts(e, r)
    requires r.index < |sender| && sender[r.index] == r.name
    ensures LooksGood(Stepping(lim), e, x => Numbers(sender, x))
  {
    forall p, x | (e <= p || p < e) && x in Stepping(lim)(p).looked ensures Numbers(sender, x) {
      PartLooks(lim, r, e, p);
    }
  }

  /** However the bytes of records are cut, the parser comes to exactly these records, with nothing left,
      and looks up nothing but their names. */
  lemma {:induction false} SentIsSeen(c: Setup, rs: seq<Record>, pieces: seq<seq<Byte>>, sender: seq<Name>)
    requires AllWellFormed(LimitsOf(c), rs) && FromNumbering(sender, rs)
    requires Flatten(pieces) == Flatten(Encodings(LimitsOf(c), rs))
    ensures SoundSteps(c, Stepping(LimitsOf(c)))
    ensures var got := Run(Stepping(LimitsOf(c)), [], pieces);
      got.records == rs && got.rest == [] && AllNumbered(sender, got.looked)
  {
    var lim := LimitsOf(c);
    var es, step := Encodings(lim, rs), Stepping(lim);
    ReceivesWhatWasSent(lim, rs, pieces);
    RecordsAreAStream(lim, rs, es);
    NothingWhole(lim, rs);
    assert [] + Flatten(pieces) == Flatten(pieces);
    var good: Looked -> bool := x => Numbers(sender, x);
    forall i | 0 <= i < |es| ensures LooksGood(step, es[i], good) {
      EncodeHasParts(rs[i]);
      RecordsLookGood(lim, rs[i], es[i], sender);
    }
    RunLooks(step, es, rs, good, [], pieces);
    forall x | x in Run(step, [], pieces).looked ensures Numbers(sender, x) {
      assert good(x);
    }
  }

  /** The receiver's store after the transfer is a function of the records alone: each is stored
      where a search for its name leads, whatever the cut and whatever was cached before. */
  lemma {:induction false} CutDoesNotMatter(c: Setup, rc: Receiver, rs: seq<Record>, pieces: seq<seq<Byte>>,
                                            sender: seq<Name>)
    requires GoodReceiver(c, rc) && |sender| <= |c.names| && Agrees(c.cmp, c.names, rc.mapping, sender)
    requires AllWellFormed(LimitsOf(c), rs) && FromNumbering(sender, rs) && Stamped(rs)
    requires Flatten(pieces) == Flatten(Encodings(LimitsOf(c), rs))
    ensures SoundSteps(c, Stepping(LimitsOf(c)))
    ensures var r := Serve(c, Stepping(LimitsOf(c)), rc, [], pieces);
      r.1 == [] && r.0.store == StoreAll(c, rc.store, rs) && Agrees(c.cmp, c.names, r.0.mapping, sender)
  {
    SentIsSeen(c, rs, pieces, sender);
    ServeFollows(c, Stepping(LimitsOf(c)), rc, [], pieces, sender);
  }

  /** The record carries the whole value of the PV its name leads to. */
  predicate Carries(c: Setup, r: Record, i: nat)
    requires |c.names| == |c.pvs|
  {
    && Find(c.cmp, c.names, r.name) == Some(i)
    && i < |c.pvs| && r.offset == 0 && |r.data| == c.pvs[i].totalSize > 0 && |r.stamp| == STAMP
  }

  ghost predicate HoldsValue(c: Setup, s: Store, i: nat, data: seq<Byte>, stamp: seq<Byte>)
    requires GoodSetup(c) && Sized(c.pvs, c.total, s)
  {
    i < |c.pvs| && End(c.pvs[i]) <= c.total && Value(c.pvs[i], s.memory) == data && Stamp(c.pvs[i], s.memory) == stamp
  }

  lemma RecordStored(c: Setup, s: Store, r: Record, i: nat)
    requires GoodSetup(c) && Sized(c.pvs, c.total, s) && Carries(c, r, i)
    ensures HoldsValue(c, StoreOne(c, s, Some(i), r), i, r.data, r.stamp)
  {
    var pv := c.pvs[i];
    RegionsInOrder(c.pvs, c.total, i, |c.pvs|);
    WholeFits(pv, r);
    FittingRecordIsStored(c.convert, i, pv, s.memory, r);
    WholeValue(Value(pv, s.memory), r.data);
  }

  lemma WholeValue(v: seq<Byte>, data: seq<Byte>)
    requires |v| == |data|
    ensures v[..0] + data + v[|data|..] == data
  {
  }

  lemma OneStored(c: Setup, s: Store, r: Record, i: nat)
    requires GoodSetup(c) && Sized(c.pvs, c.total, s) && Carries(c, r, i)
    ensures var s' := StoreOne(c, s, Some(i), r);
      && HoldsValue(c, s', i, r.data, r.stamp) && s'.strayed == s.strayed
      && forall j, d, t | 0 <= j < |c.pvs| && j != i && HoldsValue(c, s, j, d, t) :: HoldsValue(c, s', j, d, t)
  {
    RecordStored(c, s, r, i);
    forall j, d, t | 0 <= j < |c.pvs| && j != i && HoldsValue(c, s, j, d, t)
      ensures HoldsValue(c, StoreOne(c, s, Some(i), r), j, d, t)
    {
      OthersUntouched(c.pvs, c.total, c.convert, s, i, r, j);
    }
  }

  ghost predicate CarriesOwn(c: Setup, r: Record)
    requires |c.names| == |c.pvs|
  {
    var i := Find(c.cmp, c.names, r.name);
    i.Some? && Carries(c, r, i.value)
  }

  ghost predicate LeadsTo(c: Setup, rs: seq<Record>, i: nat)
  {
    exists k :: 0 <= k < |rs| && Find(c.cmp, c.names, rs[k].name) == Some(i)
  }

  lemma {:induction false} OneMoreStored(c: Setup, s: Store, rs: seq<Record>, r: Record)
    requires GoodSetup(c) && Sized(c.pvs, c.total, s) && Stamped(rs + [r])
    ensures Stamped(rs) && |r.stamp| == STAMP
    ensures StoreAll(c, s, rs + [r]) == StoreOne(c, StoreAll(c, s, rs), Find(c.cmp, c.names, r.name), r)
  {
    forall k | 0 <= k < |rs| ensures |rs[k].stamp| == STAMP { assert (rs + [r])[k] == rs[k]; }
    assert (rs + [r])[|rs|] == r && Stamped([r]);
    StoreAllAppend(c, s, rs, [r]);
    assert [r][1..] == [];
  }

  lemma LeadsToMore(c: Setup, rs: seq<Record>, r: Record, i: nat)
    ensures LeadsTo(c, rs + [r], i) <==> LeadsTo(c, rs, i) || Find(c.cmp, c.names, r.name) == Some(i)
  {
    var more := rs + [r];
    if Find(c.cmp, c.names, r.name) == Some(i) { assert more[|rs|] == r; }
    if k :| 0 <= k < |rs| && Find(c.cmp, c.names, rs[k].name) == Some(i) { assert more[k] == rs[k]; }
  }

  /** The PV holds one of the records that are for it; if none is, it is as it was. */
  ghost predicate HoldsOneOf(c: Setup, was: Store, now: Store, rs: seq<Record>, i: nat)
    requires GoodSetup(c) && Sized(c.pvs, c.total, was) && Sized(c.pvs, c.total, now)
  {
    if LeadsTo(c, rs, i) then
      exists k :: 0 <= k < |rs| && IsHeld(c, now, rs[k], i)
    else forall d, t | HoldsValue(c, was, i, d, t) :: HoldsValue(c, now, i, d, t)
  }

  ghost predicate IsHeld(c: Setup, s: Store, r: Record, i: nat)
    requires GoodSetup(c) && Sized(c.pvs, c.total, s)
  {
    Find(c.cmp, c.names, r.name) == Some(i) && HoldsValue(c, s, i, r.data, r.stamp)
  }

  lemma HoldsOneMore(c: Setup, was: Store, mid: Store, rs: seq<Record>, r: Record, i: nat)
    requires GoodSetup(c) && Sized(c.pvs, c.total, was) && Sized(c.pvs, c.total, mid) && i < |c.pvs|
    requires CarriesOwn(c, r) && HoldsOneOf(c, was, mid, rs, i)
    ensures var now := StoreOne(c, mid, Find(c.cmp, c.names, r.name), r);
      HoldsOneOf(c, was, now, rs + [r], i) && now.strayed == mid.strayed
  {
    var at := Find(c.cmp, c.names, r.name).value;
    var now, more := StoreOne(c, mid, Some(at), r), rs + [r];
    OneStored(c, mid, r, at);
    LeadsToMore(c, rs, r, i);
    if at == i {
      assert IsHeld(c, now, more[|rs|], i);
    } else if LeadsTo(c, rs, i) {
      var k :| 0 <= k < |rs| && IsHeld(c, mid, rs[k], i);
      assert IsHeld(c, now, more[k], i);
    }
  }

  /** What storing these records does to a PV, and to what is outside the memory. */
  ghost predicate Comes(c: Setup, s: Store, rs: seq<Record>, i: nat)
    requires GoodSetup(c) && Sized(c.pvs, c.total, s)
  {
    Stamped(rs) && StoreAll(c, s, rs).strayed == s.strayed && HoldsOneOf(c, s, StoreAll(c, s, rs), rs, i)
  }

  lemma ComesMore(c: Setup, s: Store, rs: seq<Record>, r: Record, i: nat)
    requires GoodSetup(c) && Sized(c.pvs, c.total, s) && i < |c.pvs| && CarriesOwn(c, r) && Comes(c, s, rs, i)
    ensures Comes(c, s, rs + [r], i)
  {
    assert Stamped(rs + [r]);
    OneMoreStored(c, s, rs, r);
    HoldsOneMore(c, s, StoreAll(c, s, rs), rs, r, i);
  }

  /** After any records, each the whole value of a PV, a PV holds one of those that were for it; a PV that
      none was for, and what is outside the memory, are as before. */
  lemma HoldsWhatWasStored(c: Setup, s: Store, rs: seq<Record>, i: nat)
    requires GoodSetup(c) && Sized(c.pvs, c.total, s) && i < |c.pvs|
    requires forall k | 0 <= k < |rs| :: CarriesOwn(c, rs[k])
    ensures Comes(c, s, rs, i)
    decreases |rs|
  {
    if rs != [] {
      var front, r := rs[..|rs| - 1], rs[|rs| - 1];
      assert CarriesOwn(c, r);
      HoldsWhatWasStored(c, s, front, i);
      ComesMore(c, s, front, r, i);
      FrontAndLast(rs);
    }
  }

  /** Every record's PV holds the record's value and timestamp, and every other PV, and what is outside
      the memory, is as it was. */
  ghost predicate Replicated(c: Setup, was: Store, now: Store, rs: seq<Record>, places: seq<nat>)
    requires GoodSetup(c) && Sized(c.pvs, c.total, was) && Sized(c.pvs, c.total, now) && |places| == |rs|
  {
    && (forall k | 0 <= k < |rs| :: HoldsValue(c, now, places[k], rs[k].data, rs[k].stamp))
    && (forall j, d, t | 0 <= j < |c.pvs| && j !in places && HoldsValue(c, was, j, d, t) :: HoldsValue(c, now, j, d, t))
    && now.strayed == was.strayed
  }

  lemma OneMoreReplicated(c: Setup, was: Store, first: Store, now: Store, rs: seq<Record>, places: seq<nat>)
    requires GoodSetup(c) && Sized(c.pvs, c.total, was) && Sized(c.pvs, c.total, first) && Sized(c.pvs, c.total, now)
    requires |places| == |rs| > 0 && NoDuplicates(places) && first.strayed == was.strayed
    requires HoldsValue(c, first, places[0], rs[0].data, rs[0].stamp)
    requires forall j, d, t | 0 <= j < |c.pvs| && j != places[0] && HoldsValue(c, was, j, d, t) ::
      HoldsValue(c, first, j, d, t)
    requires Replicated(c, first, now, rs[1..], places[1..])
    ensures Replicated(c, was, now, rs, places)
  {
    forall k | 0 <= k < |rs| ensures HoldsValue(c, now, places[k], rs[k].data, rs[k].stamp) {
      if k > 0 { assert HoldsValue(c, now, places[1..][k - 1], rs[1..][k - 1].data, rs[1..][k - 1].stamp); }
    }
  }

  /** Storing records for different PVs leaves each of them holding its record's value and
      timestamp, and every other PV as it was. */
  lemma {:induction false} AllStored(c: Setup, s: Store, rs: seq<Record>, places: seq<nat>)
    requires GoodSetup(c) && Sized(c.pvs, c.total, s) && |places| == |rs| && NoDuplicates(places)
    requires forall k | 0 <= k < |rs| :: Carries(c, rs[k], places[k])
    ensures Stamped(rs)
    ensures Replicated(c, s, StoreAll(c, s, rs), rs, places)
    decreases |rs|
  {
    if rs != [] {
      var s1 := StoreOne(c, s, Some(places[0]), rs[0]);
      assert Carries(c, rs[0], places[0]);
      OneStored(c, s, rs[0], places[0]);
      forall k | 0 <= k < |rs| - 1 ensures Carries(c, rs[1..][k], places[1..][k]) {
        assert Carries(c, rs[k + 1], places[k + 1]);
      }
      AllStored(c, s1, rs[1..], places[1..]);
      OneMoreReplicated(c, s, s1, StoreAll(c, s, rs), rs, places);
    }
  }

  /** The promise of the diode: send the whole value of any PVs, cut the bytes in any way, and the
      receiver holds exactly those values and timestamps, and is otherwise unchanged. */
  lemma {:induction false} DiodeReplicates(c: Setup, rc: Receiver, rs: seq<Record>, places: seq<nat>,
                                           pieces: seq<seq<Byte>>, sender: seq<Name>)
    requires GoodReceiver(c, rc) && |sender| <= |c.names| && Agrees(c.cmp, c.names, rc.mapping, sender)
    requires AllWellFormed(LimitsOf(c), rs) && FromNumbering(sender, rs)
    requires |places| == |rs| && NoDuplicates(places)
    requires forall k | 0 <= k < |rs| :: Carries(c, rs[k], places[k])
    requires Flatten(pieces) == Flatten(Encodings(LimitsOf(c), rs))
    ensures SoundSteps(c, Stepping(LimitsOf(c)))
    ensures Replicated(c, rc.store, Serve(c, Stepping(LimitsOf(c)), rc, [], pieces).0.store, rs, places)
    ensures Agrees(c.cmp, c.names, Serve(c, Stepping(LimitsOf(c)), rc, [], pieces).0.mapping, sender)
  {
    AllStored(c, rc.store, rs, places);
    CutDoesNotMatter(c, rc, rs, pieces, sender);
  }

  /** The same over the socket: whichever chunks the records' bytes are sent in, and in whichever
      spelling their sizes, the service of the request leaves the receiver with the values sent and
      takes exactly the body off the socket. */
  lemma {:induction false} ChunkedRequestReplicates(c: Setup, rc: Receiver, rs: seq<Record>, places: seq<nat>,
                                                    ks: seq<Chunk>, next: seq<Byte>, other: Fallback, sender: seq<Name>)
    requires GoodReceiver(c, rc) && |sender| <= |c.names| && Agrees(c.cmp, c.names, rc.mapping, sender)
    requires AllWellFormed(LimitsOf(c), rs) && FromNumbering(sender, rs)
    requires |places| == |rs| && NoDuplicates(places)
    requires forall k | 0 <= k < |rs| :: Carries(c, rs[k], places[k])
    requires (forall k | k in ks :: GoodChunk(k)) && Flatten(Data(ks)) == Flatten(Encodings(LimitsOf(c), rs))
    ensures SoundSteps(c, Stepping(LimitsOf(c)))
    ensures var t := Chunked(other, OnTheWire(ks) + next);
      && t.ok && t.left == next
      && Replicated(c, rc.store, Serve(c, Stepping(LimitsOf(c)), rc, [], t.pieces).0.store, rs, places)
  {
    ChunksComeThrough(other, ks, next);
    DiodeReplicates(c, rc, rs, places, Data(ks), sender);
  }

  /** The same for a request that announces the length of its body. */
  lemma {:induction false} CountedRequestReplicates(c: Setup, rc: Receiver, rs: seq<Record>, places: seq<nat>,
                                                    body: seq<Byte>, next: seq<Byte>, sender: seq<Name>)
    requires GoodReceiver(c, rc) && |sender| <= |c.names| && Agrees(c.cmp, c.names, rc.mapping, sender)
    requires AllWellFormed(LimitsOf(c), rs) && FromNumbering(sender, rs)
    requires |places| == |rs| && NoDuplicates(places)
    requires forall k | 0 <= k < |rs| :: Carries(c, rs[k], places[k])
    requires body == Flatten(Encodings(LimitsOf(c), rs))
    ensures SoundSteps(c, Stepping(LimitsOf(c)))
    ensures var t := Counted(|body|, PIECE, body + next);
      && t.ok && t.left == next
      && Replicated(c, rc.store, Serve(c, Stepping(LimitsOf(c)), rc, [], t.pieces).0.store, rs, places)
  {
    CountedComesThrough(body, next, PIECE);
    DiodeReplicates(c, rc, rs, places, Counted(|body|, PIECE, body + next).pieces, sender);
  }
}
