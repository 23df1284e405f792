/** Whole rounds of the diode: what all the pool threads send, each over a connection of its own, served
    in any interleaving; and what a run of the schedule leaves in the receiver. */
module Rounds {
  import opened Wrappers
  import opened Bytes
  import opened Records
  import opened Incremental
  import opened DiodeParser
  import opened NameSearch
  import opened ReceiverStore
  import opened Delivery
  import opened Replication
  import opened Queues
  import opened Slices
  import opened Sending
  import opened EndToEnd
  import C = Connections
  import Completeness
  import R = Ring
  import W = Waiting

  lemma StepsAreSound(c: Setup)
    ensures SoundSteps(c, Stepping(LimitsOf(c)))
  {
    forall p ensures Sound(LimitsOf(c), Stepping(LimitsOf(c))(p)) && |Stepping(LimitsOf(c))(p).rest| <= |p| {
      assert Stepping(LimitsOf(c))(p) == Step(LimitsOf(c), p, 0);
    }
  }

  // ----- what a thread sends of its share

  ghost predicate InRange(share: seq<nat>, pvs: seq<Descriptor>)
  {
    forall j | 0 <= j < |share| :: share[j] < |pvs|
  }

  /** The record is the whole value of a connected PV, as the copied memory has it. */
  ghost predicate WholeOf(pvs: seq<Descriptor>, memory: seq<Byte>, v: nat, r: Record)
  {
    v < |pvs| && pvs[v].total > 0 && Sendable(pvs, |memory|) && r == RecordOf(pvs, memory, Piece(v, 0, pvs[v].total))
  }

  lemma {:induction false} CompleteInside(pvs: seq<Descriptor>, share: seq<nat>)
    requires InRange(share, pvs)
    ensures AllInside(pvs, Complete(share, Totals(pvs)))
  {
    CompleteAre(share, pvs);
  }

  ghost function ShareRecords(pvs: seq<Descriptor>, memory: seq<Byte>, share: seq<nat>): (rs: seq<Record>)
    requires Sendable(pvs, |memory|) && InRange(share, pvs)
  {
    CompleteInside(pvs, share);
    RecordsOf(pvs, memory, Complete(share, Totals(pvs)))
  }

  lemma {:induction false} ShareRecordsAre(pvs: seq<Descriptor>, memory: seq<Byte>, share: seq<nat>)
    requires Sendable(pvs, |memory|) && InRange(share, pvs)
    ensures var rs, vs := ShareRecords(pvs, memory, share), Connected(share, pvs);
      |rs| == |vs| && forall k | 0 <= k < |rs| :: vs[k] in share && WholeOf(pvs, memory, vs[k], rs[k])
  {
    CompleteInside(pvs, share);
    CompleteAre(share, pvs);
  }

  lemma ShareHasRecord(pvs: seq<Descriptor>, memory: seq<Byte>, share: seq<nat>, v: nat) returns (k: nat)
    requires Sendable(pvs, |memory|) && InRange(share, pvs) && v in share && pvs[v].total > 0
    ensures var rs := ShareRecords(pvs, memory, share); k < |rs| && WholeOf(pvs, memory, v, rs[k])
  {
    var j :| 0 <= j < |share| && share[j] == v;
    CompleteInside(pvs, share);
    Completeness.CompleteHas(share, Totals(pvs), j);
    var ps := Complete(share, Totals(pvs));
    k :| 0 <= k < |ps| && ps[k] == Piece(v, 0, pvs[v].total);
  }

  /** A record of a connected PV is one the receiver takes, for that PV and no other. */
  lemma WholeIsCarried(c: Setup, pvs: seq<Descriptor>, memory: seq<Byte>, v: nat, r: Record)
    requires |c.names| == |c.pvs| && Paired(c, pvs) && WholeOf(pvs, memory, v, r)
    ensures WellFormed(LimitsOf(c), r) && CarriesOwn(c, r) && r.index == v && r.name == pvs[v].name
    ensures Find(c.cmp, c.names, r.name) == Some(Place(c, pvs[v]))
    ensures r.data == ValueBytes(pvs[v], memory) && r.stamp == StampBytes(pvs[v], memory)
  {
    CarriesWhole(c, pvs, memory, v);
  }

  lemma PlaceIsOwn(c: Setup, pvs: seq<Descriptor>, u: nat, v: nat)
    requires GoodSetup(c) && Paired(c, pvs) && u < |pvs| && v < |pvs| && pvs[u].total > 0 && pvs[v].total > 0
    requires Place(c, pvs[u]) == Place(c, pvs[v])
    ensures u == v
  {
    assert PairedPv(c, pvs[u]) && PairedPv(c, pvs[v]);
    FindIsExact(c.cmp, c.names, pvs[u].name);
    FindIsExact(c.cmp, c.names, pvs[v].name);
  }

  /** The pieces are a cut of what the thread writes for its share; for an empty share it writes nothing. */
  ghost predicate CutOf(pvs: seq<Descriptor>, memory: seq<Byte>, share: seq<nat>, max: nat, pieces: seq<seq<Byte>>)
    requires InRange(share, pvs)
  {
    var bodies := Bodies(Writer(pvs, memory), Requests(share, Totals(pvs), 0, 0, max));
    Flatten(pieces) == if bodies == [] then [] else bodies[0]
  }

  ghost predicate SizesFit(pvs: seq<Descriptor>, max: nat)
  {
    forall v | 0 <= v < |pvs| :: pvs[v].total <= max
  }

  /** A cut of a share is a cut of the encodings of its records. */
  lemma {:induction false} CutIsEncodings(c: Setup, pvs: seq<Descriptor>, memory: seq<Byte>, share: seq<nat>, max: nat,
                                          pieces: seq<seq<Byte>>)
    requires |c.names| == |c.pvs| && Paired(c, pvs) && Sendable(pvs, |memory|) && SizesFit(pvs, max)
    requires InRange(share, pvs) && CutOf(pvs, memory, share, max, pieces)
    ensures var rs := ShareRecords(pvs, memory, share);
      && AllWellFormed(LimitsOf(c), rs) && FromNumbering(Names(pvs), rs)
      && Flatten(pieces) == Flatten(Encodings(LimitsOf(c), rs))
  {
    var rs, ps := ShareRecords(pvs, memory, share), Complete(share, Totals(pvs));
    ShareRecordsAre(pvs, memory, share);
    CompleteInside(pvs, share);
    forall k | 0 <= k < |rs|
      ensures WellFormed(LimitsOf(c), rs[k]) && rs[k].index < |pvs| && pvs[rs[k].index].name == rs[k].name {
      WholeIsCarried(c, pvs, memory, Connected(share, pvs)[k], rs[k]);
    }
    BodyIsEncodings(LimitsOf(c), pvs, memory, ps);
    OneRecordEach(share, Totals(pvs), max);
    if share != [] { OneBody(Writer(pvs, memory), ps); }
  }

  // ----- the share of each thread

  function Position(order: seq<nat>, t: nat): (j: nat)
    ensures j <= |order| && (t in order ==> j < |order| && order[j] == t)
  {
    if order == [] || order[0] == t then 0 else 1 + Position(order[1..], t)
  }

  /** What thread t claimed, when the threads claimed in this order. */
  function ShareOf(ring: seq<nat>, vars: nat, threads: nat, order: seq<nat>, t: nat): seq<nat>
    requires threads > 0
  {
    var j := Position(order, t);
    if j < |order| then Share(ring, vars, threads, order, j) else []
  }

  lemma {:induction false} PositionIs(order: seq<nat>, j: nat)
    requires NoDuplicates(order) && j < |order|
    ensures Position(order, order[j]) == j
  {
    if j > 0 {
      assert order[1..][j - 1] == order[j];
      PositionIs(order[1..], j - 1);
    }
  }

  /** Every dispatched PV is in the share of some thread, and the shares have no others. */
  lemma SomeThreadHas(ring: seq<nat>, vars: nat, threads: nat, order: seq<nat>, v: nat) returns (t: nat)
    requires threads > 0 && ClaimOrder(order, threads) && |order| == threads && vars <= |ring| && v in ring[..vars]
    ensures t < threads && v in ShareOf(ring, vars, threads, order, t)
  {
    SharesAreTheDispatched(ring, vars, threads, order);
    var j := InSomeShare(ring, vars, threads, order, threads, v);
    t := order[j];
    PositionIs(order, j);
  }

  lemma InSomeShare(ring: seq<nat>, vars: nat, threads: nat, order: seq<nat>, k: nat, v: nat) returns (j: nat)
    requires threads > 0 && k <= |order| && v in Together(ring, vars, threads, order, k)
    ensures j < k && v in Share(ring, vars, threads, order, j)
  {
    if v in Share(ring, vars, threads, order, k - 1) {
      j := k - 1;
    } else {
      j := InSomeShare(ring, vars, threads, order, k - 1, v);
    }
  }

  lemma SharesAreDispatched(ring: seq<nat>, vars: nat, threads: nat, order: seq<nat>, t: nat, v: nat)
    requires threads > 0 && ClaimOrder(order, threads) && |order| == threads && vars <= |ring|
    requires v in ShareOf(ring, vars, threads, order, t)
    ensures v in ring[..vars]
  {
    var j := Position(order, t);
    ClaimsFit(vars, threads, order);
    ClaimsGrow(vars, threads, order, j + 1);
    NextClaim(vars, threads, order, j);
    var first := Claimed(vars, threads, order[..j]);
    var share := Share(ring, vars, threads, order, j);
    var i :| 0 <= i < |share| && share[i] == v;
    assert ring[..vars][first + i] == v;
  }

  // ----- what arrived

  ghost predicate HoldsPv(c: Setup, s: Store, d: Descriptor, memory: seq<Byte>)
    requires GoodSetup(c) && Sized(c.pvs, c.total, s)
  {
    d.offset + d.total + STAMP <= |memory|
      && HoldsValue(c, s, Place(c, d), ValueBytes(d, memory), StampBytes(d, memory))
  }

  /** The receiver keeps one of the connected PVs sent at this place. */
  ghost predicate PlacedAt(c: Setup, pvs: seq<Descriptor>, sent: seq<nat>, j: nat)
  {
    exists v :: v in sent && v < |pvs| && pvs[v].total > 0 && Place(c, pvs[v]) == j
  }

  /** Every connected PV that was sent is held with its value and timestamp; the rest is as before. */
  ghost predicate Arrived(c: Setup, was: Store, now: Store, pvs: seq<Descriptor>, memory: seq<Byte>, sent: seq<nat>)
    requires GoodSetup(c) && Sized(c.pvs, c.total, was) && Sized(c.pvs, c.total, now)
  {
    && now.strayed == was.strayed
    && (forall v | v in sent && v < |pvs| && pvs[v].total > 0 :: HoldsPv(c, now, pvs[v], memory))
    && (forall j, d, t | 0 <= j < |c.pvs| && !PlacedAt(c, pvs, sent, j) && HoldsValue(c, was, j, d, t) ::
          HoldsValue(c, now, j, d, t))
  }

  // ----- what is in the store when the connections are done

  ghost predicate StreamsStored(log: seq<C.Entry>, streams: seq<seq<Record>>)
  {
    && (forall i | 0 <= i < |log| :: log[i].conn < |streams|)
    && forall t | 0 <= t < |streams| :: C.Of(log, t) == streams[t]
  }

  lemma {:induction false} OfHas(log: seq<C.Entry>, i: nat)
    requires i < |log|
    ensures log[i].record in C.Of(log, log[i].conn)
  {
    if i < |log| - 1 { OfHas(log[..|log| - 1], i); }
  }

  lemma HasOf(log: seq<C.Entry>, t: nat, r: Record) returns (i: nat)
    requires r in C.Of(log, t)
    ensures i < |log| && log[i].record == r
  {
    if log[|log| - 1].conn == t && log[|log| - 1].record == r {
      i := |log| - 1;
    } else {
      i := HasOf(log[..|log| - 1], t, r);
    }
  }

  /** Every record of the streams is the whole value of a connected PV, from one of the copies. */
  ghost predicate FromCopies(pvs: seq<Descriptor>, copies: seq<seq<Byte>>, r: Record)
  {
    exists i, v :: 0 <= i < |copies| && WholeOf(pvs, copies[i], v, r)
  }

  ghost predicate AllFromCopies(pvs: seq<Descriptor>, copies: seq<seq<Byte>>, streams: seq<seq<Record>>)
  {
    forall t, r | 0 <= t < |streams| && r in streams[t] :: FromCopies(pvs, copies, r)
  }

  lemma StoredFromCopies(pvs: seq<Descriptor>, copies: seq<seq<Byte>>, log: seq<C.Entry>,
                         streams: seq<seq<Record>>, k: nat)
    requires StreamsStored(log, streams) && AllFromCopies(pvs, copies, streams) && k < |log|
    ensures FromCopies(pvs, copies, C.StoredIn(log)[k])
  {
    OfHas(log, k);
  }

  /** So a PV that some stream has a record of is held as one of the copies has it. */
  lemma HeldFromCopies(c: Setup, was: Store, pvs: seq<Descriptor>, copies: seq<seq<Byte>>,
                       log: seq<C.Entry>, streams: seq<seq<Record>>, t: nat, r: Record, v: nat, m: seq<Byte>)
    returns (i: nat)
    requires GoodSetup(c) && Paired(c, pvs) && Sized(c.pvs, c.total, was)
    requires StreamsStored(log, streams) && AllFromCopies(pvs, copies, streams)
    requires t < |streams| && r in streams[t] && WholeOf(pvs, m, v, r)
    ensures Stamped(C.StoredIn(log)) && StoreAll(c, was, C.StoredIn(log)).strayed == was.strayed
    ensures i < |copies| && HoldsPv(c, StoreAll(c, was, C.StoredIn(log)), pvs[v], copies[i])
  {
    var rs := C.StoredIn(log);
    var j := HasOf(log, t, r);
    WholeIsCarried(c, pvs, m, v, r);
    AllCarryOwn(c, pvs, copies, log, streams);
    HoldsWhatWasStored(c, was, rs, Place(c, pvs[v]));
    assert Find(c.cmp, c.names, rs[j].name) == Some(Place(c, pvs[v]));
    var k :| 0 <= k < |rs| && IsHeld(c, StoreAll(c, was, rs), rs[k], Place(c, pvs[v]));
    StoredFromCopies(pvs, copies, log, streams, k);
    var i', u :| 0 <= i' < |copies| && WholeOf(pvs, copies[i'], u, rs[k]);
    WholeIsCarried(c, pvs, copies[i'], u, rs[k]);
    PlaceIsOwn(c, pvs, u, v);
    i := i';
  }

  lemma AllCarryOwn(c: Setup, pvs: seq<Descriptor>, copies: seq<seq<Byte>>, log: seq<C.Entry>,
                    streams: seq<seq<Record>>)
    requires |c.names| == |c.pvs| && Paired(c, pvs)
    requires StreamsStored(log, streams) && AllFromCopies(pvs, copies, streams)
    ensures forall k | 0 <= k < |log| :: CarriesOwn(c, C.StoredIn(log)[k])
  {
    forall k | 0 <= k < |log| ensures CarriesOwn(c, C.StoredIn(log)[k]) {
      StoredFromCopies(pvs, copies, log, streams, k);
      var i, u :| 0 <= i < |copies| && WholeOf(pvs, copies[i], u, C.StoredIn(log)[k]);
      WholeIsCarried(c, pvs, copies[i], u, C.StoredIn(log)[k]);
    }
  }

  /** The connections of several threads, each with a cut of what its thread sends. */
  ghost predicate Cuts(c: Setup, pvs: seq<Descriptor>, streams: seq<seq<Record>>, starts: seq<seq<seq<Byte>>>)
  {
    |streams| == |starts| && forall t | 0 <= t < |starts| :: CutsOne(c, pvs, streams[t], starts[t])
  }

  ghost predicate CutsOne(c: Setup, pvs: seq<Descriptor>, rs: seq<Record>, pieces: seq<seq<Byte>>)
  {
    && AllWellFormed(LimitsOf(c), rs) && FromNumbering(Names(pvs), rs)
    && Flatten(pieces) == Flatten(Encodings(LimitsOf(c), rs))
  }

  lemma AllNumberedAtStart(c: Setup, pvs: seq<Descriptor>, streams: seq<seq<Record>>, starts: seq<seq<seq<Byte>>>)
    requires Cuts(c, pvs, streams, starts)
    ensures SoundSteps(c, Stepping(LimitsOf(c))) && C.AllStartNumbered(Stepping(LimitsOf(c)), starts, Names(pvs))
    ensures forall t | 0 <= t < |starts| :: Run(Stepping(LimitsOf(c)), [], starts[t]).records == streams[t]
  {
    StepsAreSound(c);
    forall t | 0 <= t < |starts|
      ensures AllNumbered(Names(pvs), Run(Stepping(LimitsOf(c)), [], starts[t]).looked)
      ensures Run(Stepping(LimitsOf(c)), [], starts[t]).records == streams[t]
    {
      assert CutsOne(c, pvs, streams[t], starts[t]);
      SentIsSeen(c, streams[t], starts[t], Names(pvs));
    }
  }

  /** The run of the connections from rc, in an interleaving in which all get done. */
  ghost predicate Completes(c: Setup, rc: Receiver, starts: seq<seq<seq<Byte>>>, schedule: seq<nat>)
    requires GoodReceiver(c, rc)
  {
    StepsAreSound(c);
    var step, s := Stepping(LimitsOf(c)), C.Start(rc, starts);
    C.Feasible(c, step, s, schedule) && C.AllDone(C.After(c, step, s, schedule))
  }

  ghost function Served(c: Setup, rc: Receiver, starts: seq<seq<seq<Byte>>>, schedule: seq<nat>): (s: C.State)
    requires GoodReceiver(c, rc) && Completes(c, rc, starts, schedule)
    ensures GoodReceiver(c, s.rc)
  {
    StepsAreSound(c);
    C.After(c, Stepping(LimitsOf(c)), C.Start(rc, starts), schedule)
  }

  lemma {:induction false} ServedStores(c: Setup, rc: Receiver, pvs: seq<Descriptor>, streams: seq<seq<Record>>,
                                        starts: seq<seq<seq<Byte>>>, schedule: seq<nat>)
    requires GoodReceiver(c, rc) && |pvs| <= |c.names| && Agrees(c.cmp, c.names, rc.mapping, Names(pvs))
    requires Cuts(c, pvs, streams, starts) && Completes(c, rc, starts, schedule)
    ensures var s := Served(c, rc, starts, schedule);
      && StreamsStored(s.log, streams) && Stamped(C.StoredIn(s.log))
      && s.rc.store == StoreAll(c, rc.store, C.StoredIn(s.log)) && Agrees(c.cmp, c.names, s.rc.mapping, Names(pvs))
  {
    AllNumberedAtStart(c, pvs, streams, starts);
    C.EveryInterleaving(c, Stepping(LimitsOf(c)), rc, starts, Names(pvs), schedule);
    var log := Served(c, rc, starts, schedule).log;
    forall i | 0 <= i < |log| ensures log[i].conn < |streams| { assert log[i] in log; }
  }

  // ----- rounds

  /** A round: the first `vars` PVs of the ring are dispatched from a copy of the memory; the threads claim
      their shares in some order; `cuts` are the pieces in which each thread's request arrives. */
  datatype Round = Round(ring: seq<nat>, vars: nat, memory: seq<Byte>, order: seq<nat>, cuts: seq<seq<seq<Byte>>>)

  function ThreadShare(threads: nat, x: Round, t: nat): seq<nat>
    requires threads > 0
  {
    ShareOf(x.ring, x.vars, threads, x.order, t)
  }

  /** Every thread has claimed its share, and its request is the one it writes for it. */
  ghost predicate RoundSent(pvs: seq<Descriptor>, max: nat, threads: nat, x: Round)
    requires threads > 0
  {
    && x.vars <= |x.ring| && ClaimOrder(x.order, threads) && |x.order| == threads && |x.cuts| == threads
    && Sendable(pvs, |x.memory|) && InRange(x.ring, pvs)
    && forall t | 0 <= t < threads :: ThreadSent(pvs, max, threads, x, t)
  }

  ghost predicate ThreadSent(pvs: seq<Descriptor>, max: nat, threads: nat, x: Round, t: nat)
    requires threads > 0 && t < |x.cuts|
  {
    var share := ThreadShare(threads, x, t);
    InRange(share, pvs) && CutOf(pvs, x.memory, share, max, x.cuts[t])
  }

  ghost predicate AllSent(pvs: seq<Descriptor>, max: nat, threads: nat, xs: seq<Round>)
    requires threads > 0
  {
    forall i | 0 <= i < |xs| :: RoundSent(pvs, max, threads, xs[i])
  }

  /** The records of one thread over some rounds, and the pieces they arrive in: its connection is kept. */
  ghost function ThreadRecords(pvs: seq<Descriptor>, max: nat, threads: nat, xs: seq<Round>, t: nat): seq<Record>
    requires threads > 0 && AllSent(pvs, max, threads, xs) && t < threads
  {
    if xs == [] then []
    else
      assert ThreadSent(pvs, max, threads, xs[0], t);
      ShareRecords(pvs, xs[0].memory, ThreadShare(threads, xs[0], t)) + ThreadRecords(pvs, max, threads, xs[1..], t)
  }

  ghost function ThreadPieces(pvs: seq<Descriptor>, max: nat, threads: nat, xs: seq<Round>, t: nat): seq<seq<Byte>>
    requires threads > 0 && AllSent(pvs, max, threads, xs) && t < threads
  {
    if xs == [] then [] else xs[0].cuts[t] + ThreadPieces(pvs, max, threads, xs[1..], t)
  }

  lemma EncodingsJoin(c: Setup, pvs: seq<Descriptor>, a: seq<Record>, p: seq<seq<Byte>>, b: seq<Record>,
                      q: seq<seq<Byte>>)
    requires CutsOne(c, pvs, a, p) && CutsOne(c, pvs, b, q)
    ensures CutsOne(c, pvs, a + b, p + q)
  {
    assert AllWellFormed(LimitsOf(c), a + b) && FromNumbering(Names(pvs), a + b);
    assert Encodings(LimitsOf(c), a + b) == Encodings(LimitsOf(c), a) + Encodings(LimitsOf(c), b);
    FlattenJoins(p, q);
    FlattenJoins(Encodings(LimitsOf(c), a), Encodings(LimitsOf(c), b));
  }

  lemma {:induction false} ThreadCuts(c: Setup, pvs: seq<Descriptor>, max: nat, threads: nat, xs: seq<Round>, t: nat)
    requires |c.names| == |c.pvs| && Paired(c, pvs) && SizesFit(pvs, max)
    requires threads > 0 && AllSent(pvs, max, threads, xs) && t < threads
    ensures CutsOne(c, pvs, ThreadRecords(pvs, max, threads, xs, t), ThreadPieces(pvs, max, threads, xs, t))
  {
    if xs != [] {
      var share := ThreadShare(threads, xs[0], t);
      assert RoundSent(pvs, max, threads, xs[0]) && ThreadSent(pvs, max, threads, xs[0], t);
      CutIsEncodings(c, pvs, xs[0].memory, share, max, xs[0].cuts[t]);
      ThreadCuts(c, pvs, max, threads, xs[1..], t);
      EncodingsJoin(c, pvs, ShareRecords(pvs, xs[0].memory, share), xs[0].cuts[t],
        ThreadRecords(pvs, max, threads, xs[1..], t), ThreadPieces(pvs, max, threads, xs[1..], t));
    }
  }

  /** What a thread sends of the first round, and what of the others. */
  lemma {:induction false} FirstRound(pvs: seq<Descriptor>, max: nat, threads: nat, xs: seq<Round>, t: nat)
    requires xs != [] && threads > 0 && AllSent(pvs, max, threads, xs) && t < threads
    ensures Sendable(pvs, |xs[0].memory|) && InRange(ThreadShare(threads, xs[0], t), pvs)
    ensures AllSent(pvs, max, threads, xs[1..])
    ensures ThreadRecords(pvs, max, threads, xs, t)
      == ShareRecords(pvs, xs[0].memory, ThreadShare(threads, xs[0], t)) + ThreadRecords(pvs, max, threads, xs[1..], t)
  {
    assert RoundSent(pvs, max, threads, xs[0]) && ThreadSent(pvs, max, threads, xs[0], t);
  }

  lemma ShareComesFrom(pvs: seq<Descriptor>, memory: seq<Byte>, share: seq<nat>, r: Record)
    returns (v: nat)
    requires Sendable(pvs, |memory|) && InRange(share, pvs) && r in ShareRecords(pvs, memory, share)
    ensures v in share && WholeOf(pvs, memory, v, r)
  {
    var rs := ShareRecords(pvs, memory, share);
    var k :| 0 <= k < |rs| && rs[k] == r;
    ShareRecordsAre(pvs, memory, share);
    v := Connected(share, pvs)[k];
  }

  /** Where a record of a thread comes from. */
  lemma ComesFrom(pvs: seq<Descriptor>, max: nat, threads: nat, xs: seq<Round>, t: nat, r: Record)
    returns (i: nat, v: nat)
    requires threads > 0 && AllSent(pvs, max, threads, xs) && t < threads
      && r in ThreadRecords(pvs, max, threads, xs, t)
    ensures i < |xs| && v in ThreadShare(threads, xs[i], t) && WholeOf(pvs, xs[i].memory, v, r)
  {
    FirstRound(pvs, max, threads, xs, t);
    if r in ShareRecords(pvs, xs[0].memory, ThreadShare(threads, xs[0], t)) {
      i := 0;
      v := ShareComesFrom(pvs, xs[0].memory, ThreadShare(threads, xs[0], t), r);
    } else {
      i, v := ComesFrom(pvs, max, threads, xs[1..], t, r);
      i := i + 1;
    }
  }

  /** And what a thread has a record of. */
  lemma HasRecordOf(pvs: seq<Descriptor>, max: nat, threads: nat, xs: seq<Round>, t: nat, i: nat, v: nat)
    returns (r: Record)
    requires threads > 0 && AllSent(pvs, max, threads, xs) && t < threads
    requires i < |xs| && v in ThreadShare(threads, xs[i], t) && v < |pvs| && pvs[v].total > 0
    ensures r in ThreadRecords(pvs, max, threads, xs, t) && WholeOf(pvs, xs[i].memory, v, r)
    decreases i
  {
    FirstRound(pvs, max, threads, xs, t);
    if i == 0 {
      var k := ShareHasRecord(pvs, xs[0].memory, ThreadShare(threads, xs[0], t), v);
      r := ShareRecords(pvs, xs[0].memory, ThreadShare(threads, xs[0], t))[k];
    } else {
      r := HasRecordOf(pvs, max, threads, xs[1..], t, i - 1, v);
    }
  }

  ghost function Streams(pvs: seq<Descriptor>, max: nat, threads: nat, xs: seq<Round>): (s: seq<seq<Record>>)
    requires threads > 0 && AllSent(pvs, max, threads, xs)
    ensures |s| == threads && forall t | 0 <= t < threads :: s[t] == ThreadRecords(pvs, max, threads, xs, t)
  {
    seq(threads, t requires 0 <= t < threads => ThreadRecords(pvs, max, threads, xs, t))
  }

  ghost function Starts(pvs: seq<Descriptor>, max: nat, threads: nat, xs: seq<Round>): (s: seq<seq<seq<Byte>>>)
    requires threads > 0 && AllSent(pvs, max, threads, xs)
    ensures |s| == threads && forall t | 0 <= t < threads :: s[t] == ThreadPieces(pvs, max, threads, xs, t)
  {
    seq(threads, t requires 0 <= t < threads => ThreadPieces(pvs, max, threads, xs, t))
  }

  function Copies(xs: seq<Round>): (m: seq<seq<Byte>>)
    ensures |m| == |xs| && forall i | 0 <= i < |xs| :: m[i] == xs[i].memory
  {
    seq(|xs|, i requires 0 <= i < |xs| => xs[i].memory)
  }

  lemma StreamsAre(c: Setup, pvs: seq<Descriptor>, max: nat, threads: nat, xs: seq<Round>)
    requires |c.names| == |c.pvs| && Paired(c, pvs) && SizesFit(pvs, max) && threads > 0
      && AllSent(pvs, max, threads, xs)
    ensures Cuts(c, pvs, Streams(pvs, max, threads, xs), Starts(pvs, max, threads, xs))
    ensures AllFromCopies(pvs, Copies(xs), Streams(pvs, max, threads, xs))
  {
    var streams, starts := Streams(pvs, max, threads, xs), Starts(pvs, max, threads, xs);
    forall t | 0 <= t < threads ensures CutsOne(c, pvs, streams[t], starts[t]) {
      ThreadCuts(c, pvs, max, threads, xs, t);
    }
    forall t, r | 0 <= t < threads && r in streams[t] ensures FromCopies(pvs, Copies(xs), r) {
      var i, v := ComesFrom(pvs, max, threads, xs, t, r);
      assert WholeOf(pvs, Copies(xs)[i], v, r);
    }
  }

  /** The threads' connections over some rounds, in an interleaving in which all requests are served. */
  ghost predicate RoundsServed(c: Setup, rc: Receiver, pvs: seq<Descriptor>, max: nat, threads: nat, xs: seq<Round>,
                               schedule: seq<nat>)
    requires GoodReceiver(c, rc)
  {
    threads > 0 && AllSent(pvs, max, threads, xs) && Completes(c, rc, Starts(pvs, max, threads, xs), schedule)
  }

  ghost function ReceiverAfter(c: Setup, rc: Receiver, pvs: seq<Descriptor>, max: nat, threads: nat, xs: seq<Round>,
                               schedule: seq<nat>): (r: Receiver)
    requires GoodReceiver(c, rc) && RoundsServed(c, rc, pvs, max, threads, xs, schedule)
    ensures GoodReceiver(c, r)
  {
    Served(c, rc, Starts(pvs, max, threads, xs), schedule).rc
  }

  /** A PV dispatched in one of the rounds is held as one of the rounds' copies has it. */
  lemma DispatchedArrives(c: Setup, rc: Receiver, pvs: seq<Descriptor>, max: nat, threads: nat,
                          xs: seq<Round>, schedule: seq<nat>, j: nat, v: nat)
    returns (i: nat)
    requires GoodReceiver(c, rc) && Paired(c, pvs) && Agrees(c.cmp, c.names, rc.mapping, Names(pvs))
      && SizesFit(pvs, max)
    requires RoundsServed(c, rc, pvs, max, threads, xs, schedule)
    requires j < |xs| && v in xs[j].ring[..xs[j].vars] && v < |pvs| && pvs[v].total > 0
    ensures i < |xs| && HoldsPv(c, ReceiverAfter(c, rc, pvs, max, threads, xs, schedule).store, pvs[v], xs[i].memory)
  {
    var streams, starts := Streams(pvs, max, threads, xs), Starts(pvs, max, threads, xs);
    StreamsAre(c, pvs, max, threads, xs);
    ServedStores(c, rc, pvs, streams, starts, schedule);
    assert RoundSent(pvs, max, threads, xs[j]);
    var t := SomeThreadHas(xs[j].ring, xs[j].vars, threads, xs[j].order, v);
    var r := HasRecordOf(pvs, max, threads, xs, t, j, v);
    i := HeldFromCopies(c, rc.store, pvs, Copies(xs), Served(c, rc, starts, schedule).log, streams, t, r, v,
      xs[j].memory);
  }

  /** A place where none of the dispatched PVs is kept is as it was. */
  lemma OthersStay(c: Setup, rc: Receiver, pvs: seq<Descriptor>, max: nat, threads: nat, xs: seq<Round>,
                   schedule: seq<nat>, at: nat)
    requires GoodReceiver(c, rc) && Paired(c, pvs) && Agrees(c.cmp, c.names, rc.mapping, Names(pvs))
      && SizesFit(pvs, max)
    requires RoundsServed(c, rc, pvs, max, threads, xs, schedule) && at < |c.pvs|
    requires forall j | 0 <= j < |xs| :: !PlacedAt(c, pvs, xs[j].ring[..xs[j].vars], at)
    ensures var now := ReceiverAfter(c, rc, pvs, max, threads, xs, schedule).store;
      && now.strayed == rc.store.strayed
      && forall d, t | HoldsValue(c, rc.store, at, d, t) :: HoldsValue(c, now, at, d, t)
  {
    var streams, starts := Streams(pvs, max, threads, xs), Starts(pvs, max, threads, xs);
    StreamsAre(c, pvs, max, threads, xs);
    ServedStores(c, rc, pvs, streams, starts, schedule);
    var log := Served(c, rc, starts, schedule).log;
    AllCarryOwn(c, pvs, Copies(xs), log, streams);
    HoldsWhatWasStored(c, rc.store, C.StoredIn(log), at);
    forall k | 0 <= k < |log| ensures Find(c.cmp, c.names, log[k].record.name) != Some(at) {
      OfHas(log, k);
      LeadsElsewhere(c, pvs, max, threads, xs, log[k].conn, log[k].record, at);
    }
  }

  lemma {:induction false} LeadsElsewhere(c: Setup, pvs: seq<Descriptor>, max: nat, threads: nat, xs: seq<Round>,
                                          t: nat, r: Record, at: nat)
    requires |c.names| == |c.pvs| && Paired(c, pvs) && threads > 0 && AllSent(pvs, max, threads, xs) && t < threads
    requires r in ThreadRecords(pvs, max, threads, xs, t)
    requires forall j | 0 <= j < |xs| ::
      RoundSent(pvs, max, threads, xs[j]) && !PlacedAt(c, pvs, xs[j].ring[..xs[j].vars], at)
    ensures Find(c.cmp, c.names, r.name) != Some(at)
  {
    var i, v := ComesFrom(pvs, max, threads, xs, t, r);
    WholeIsCarried(c, pvs, xs[i].memory, v, r);
    SharesAreDispatched(xs[i].ring, xs[i].vars, threads, xs[i].order, t, v);
    assert !PlacedAt(c, pvs, xs[i].ring[..xs[i].vars], at);
  }

  /** A round reaches the receiver: whatever the order in which the threads claim their shares, however their
      requests are cut, and however the receiver's threads interleave while they serve them, every connected
      PV that was dispatched is then held as the sender's copy has it, and everything else as before. */
  lemma RoundReachesReceiver(c: Setup, rc: Receiver, pvs: seq<Descriptor>, max: nat, threads: nat,
                             x: Round, schedule: seq<nat>)
    requires GoodReceiver(c, rc) && Paired(c, pvs) && Agrees(c.cmp, c.names, rc.mapping, Names(pvs))
      && SizesFit(pvs, max)
    requires RoundsServed(c, rc, pvs, max, threads, [x], schedule)
    ensures x.vars <= |x.ring|
    ensures var r := ReceiverAfter(c, rc, pvs, max, threads, [x], schedule);
      && Arrived(c, rc.store, r.store, pvs, x.memory, x.ring[..x.vars])
      && Agrees(c.cmp, c.names, r.mapping, Names(pvs))
  {
    assert RoundSent(pvs, max, threads, [x][0]);
    var now := ReceiverAfter(c, rc, pvs, max, threads, [x], schedule).store;
    StreamsAre(c, pvs, max, threads, [x]);
    ServedStores(c, rc, pvs, Streams(pvs, max, threads, [x]), Starts(pvs, max, threads, [x]), schedule);
    StoredStays(c, rc.store, pvs, [x], Served(c, rc, Starts(pvs, max, threads, [x]), schedule).log,
      Streams(pvs, max, threads, [x]));
    forall v | v in x.ring[..x.vars] && v < |pvs| && pvs[v].total > 0 ensures HoldsPv(c, now, pvs[v], x.memory) {
      var i := DispatchedArrives(c, rc, pvs, max, threads, [x], schedule, 0, v);
    }
    forall at, d, t | 0 <= at < |c.pvs| && !PlacedAt(c, pvs, x.ring[..x.vars], at) && HoldsValue(c, rc.store, at, d, t)
      ensures HoldsValue(c, now, at, d, t)
    {
      OthersStay(c, rc, pvs, max, threads, [x], schedule, at);
    }
  }

  /** What is sent never strays. */
  lemma {:induction false} StoredStays(c: Setup, was: Store, pvs: seq<Descriptor>, xs: seq<Round>, log: seq<C.Entry>,
                                       streams: seq<seq<Record>>)
    requires GoodSetup(c) && Paired(c, pvs) && Sized(c.pvs, c.total, was)
    requires StreamsStored(log, streams) && AllFromCopies(pvs, Copies(xs), streams)
    ensures Stamped(C.StoredIn(log)) && StoreAll(c, was, C.StoredIn(log)).strayed == was.strayed
  {
    AllCarryOwn(c, pvs, Copies(xs), log, streams);
    var rs := C.StoredIn(log);
    if rs != [] {
      assert CarriesOwn(c, rs[0]);
      HoldsWhatWasStored(c, was, rs, Find(c.cmp, c.names, rs[0].name).value);
    }
  }

  // ----- runs of the schedule

  /** The rounds are those of a run of the schedule: what each cycle dispatches, from the copy it makes. */
  ghost predicate RoundsOf(k: R.Config, r: R.Run, es: seq<R.Input>, xs: seq<Round>)
    requires R.Kept(k, r) && W.AllGood(k, es)
    decreases |es|
  {
    |xs| == |es| &&
    (es == [] ||
     (R.CycleKeeps(k, r, es[0]);
      var p := R.PreparedBy(k, r.s, r.sends, es[0]);
      xs[0].ring == p.s.ring && xs[0].vars == p.sending && RoundsOf(k, R.Cycle(k, r, es[0]), es[1..], xs[1..])))
  }

  lemma DispatchedInRound(k: R.Config, r: R.Run, es: seq<R.Input>, xs: seq<Round>, v: nat) returns (j: nat)
    requires R.Kept(k, r) && W.AllGood(k, es) && RoundsOf(k, r, es, xs) && W.Dispatched(k, r, es, v)
    ensures j < |xs| && xs[j].vars <= |xs[j].ring| && v in xs[j].ring[..xs[j].vars]
    decreases |es|
  {
    R.CycleKeeps(k, r, es[0]);
    if v in R.Sent(R.PreparedBy(k, r.s, r.sends, es[0])) {
      j := 0;
    } else {
      j := DispatchedInRound(k, R.Cycle(k, r, es[0]), es[1..], xs[1..], v);
      j := j + 1;
    }
  }

  /** The promise of the whole diode: the byte budget cuts no cycle, in every round every thread claims its
      share and writes its request, and all requests are served. Then, whatever changes and whoever
      reconnects, however the requests are cut and the receiver's threads interleave, within one round and
      across rounds, the receiver holds of every connected PV a value and timestamp that the sender copied
      within the last reset + chunks + 1 cycles. */
  lemma EveryPvArrives(k: R.Config, r: R.Run, es: seq<R.Input>, c: Setup, rc: Receiver,
                       pvs: seq<Descriptor>, max: nat, threads: nat, xs: seq<Round>, schedule: seq<nat>, v: nat)
    returns (i: nat)
    requires R.Kept(k, r) && W.AllGood(k, es) && W.Grants(k, r.s.sizes, k.m) && k.n == |pvs|
    requires |es| + R.Min(r.sends, k.reset) >= k.reset + k.chunks + 1
    requires GoodReceiver(c, rc) && Paired(c, pvs) && Agrees(c.cmp, c.names, rc.mapping, Names(pvs))
      && SizesFit(pvs, max)
    requires RoundsOf(k, r, es, xs) && RoundsServed(c, rc, pvs, max, threads, xs, schedule)
    requires v < |pvs| && pvs[v].total > 0
    ensures i < |xs| && HoldsPv(c, ReceiverAfter(c, rc, pvs, max, threads, xs, schedule).store, pvs[v], xs[i].memory)
  {
    W.NobodyWaitsLong(k, r, es, v);
    var j := DispatchedInRound(k, r, es, xs, v);
    i := DispatchedArrives(c, rc, pvs, max, threads, xs, schedule, j, v);
  }
}
