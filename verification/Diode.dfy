/** The whole diode, from the callbacks of the subscriber to the memory of the receiver. */
module Diode {
  import opened Wrappers
  import opened Bytes
  import opened NameSearch
  import opened ReceiverStore
  import opened Delivery
  import opened Replication
  import opened Sending
  import opened EndToEnd
  import opened Rounds
  import opened Callbacks
  import Split = WorkSplit

  /** A subscriber that is done initialising: what the library reported of its PVs, and the order in which
      its threads ran. */
  datatype Subscriber = Subscriber(pvs: seq<Split.Pv>, maxArraySize: nat, sizes: seq<nat>, order: seq<nat>)

  /** Its threads share no PV. */
  ghost predicate Initialised(u: Subscriber)
  {
    && |u.sizes| > 0 && Split.Sized(u.pvs, u.maxArraySize, |u.sizes|, u.sizes)
    && Placement.EachOnce(u.order, |u.sizes|) && |u.pvs| / |u.sizes| + |u.pvs| % |u.sizes| >= |u.sizes|
  }

  ghost function Spots(u: Subscriber): (s: seq<Placement.Spot>)
    requires Initialised(u)
    ensures Placement.Spotted(u.pvs, u.maxArraySize, |u.sizes|, s)
    ensures forall i | 0 <= i < |s| :: s[i] == Placement.SpotAfter(u.pvs, u.maxArraySize, |u.sizes|, u.order, i)
  {
    seq(|u.pvs|, i requires 0 <= i < |u.pvs| => Placement.SpotAfter(u.pvs, u.maxArraySize, |u.sizes|, u.order, i))
  }

  ghost function Plan(u: Subscriber): (l: Layout)
    requires Initialised(u)
    ensures GoodLayout(l)
  {
    LaidOutWell(u.pvs, u.maxArraySize, u.sizes, Spots(u));
    LayoutOf(u.pvs, u.maxArraySize, u.sizes, Spots(u))
  }

  /** The descriptors it hands the sender: the sizes it kept, and the remapped offsets. */
  ghost predicate HandsOver(u: Subscriber, ds: seq<Descriptor>)
    requires Initialised(u)
  {
    |ds| == |u.pvs| && forall i | 0 <= i < |ds| ::
      && ds[i].total == Split.Value(Split.Kept(u.pvs[i], u.maxArraySize))
      && ds[i].offset == Placement.Before(|u.pvs|, u.sizes, i) + Spots(u)[i].at
  }

  /** What the sender finds of a PV in a snapshot is what its callbacks find at its spot. */
  lemma {:induction false} SnapshotShows(u: Subscriber, ds: seq<Descriptor>, mems: seq<seq<Byte>>, v: nat)
    requires Initialised(u) && HandsOver(u, ds) && Shaped(Plan(u), mems) && v < |ds| && ds[v].total > 0
    ensures Has(Plan(u), v) && ds[v].offset + ds[v].total + STAMP <= |Flatten(mems)|
    ensures ValueBytes(ds[v], Flatten(mems)) == ValueOf(Plan(u), mems, v)
    ensures StampBytes(ds[v], Flatten(mems)) == StampOf(Plan(u), mems, v)
  {
    PlacedByOwner(u, ds, v);
    OwnersBytes(u, ds[v], mems, v);
  }

  lemma {:induction false} OwnersBytes(u: Subscriber, d: Descriptor, mems: seq<seq<Byte>>, v: nat)
    requires Initialised(u) && Shaped(Plan(u), mems) && v < |u.pvs|
    requires d.total == Split.Value(Split.Kept(u.pvs[v], u.maxArraySize)) > 0
    requires d.offset == Split.Final(u.pvs, u.maxArraySize, |u.sizes|, u.sizes, v)
    requires Has(Plan(u), v) && Plan(u).lengths[v] == Some(d.total) && Plan(u).spots[v]
      == Placement.Spot(Split.Owner(|u.pvs|, |u.sizes|, v), Split.Local(u.pvs, u.maxArraySize, |u.sizes|, v))
    ensures d.offset + d.total + STAMP <= |Flatten(mems)|
    ensures ValueBytes(d, Flatten(mems)) == ValueOf(Plan(u), mems, v)
    ensures StampBytes(d, Flatten(mems)) == StampOf(Plan(u), mems, v)
  {
    var t, local := Split.Owner(|u.pvs|, |u.sizes|, v), Split.Local(u.pvs, u.maxArraySize, |u.sizes|, v);
    SnapshotHolds(d, u.pvs, u.maxArraySize, |u.sizes|, u.sizes, mems, v);
    ReadFrom(Plan(u), mems, v, t, local, d.total);
    assert StampOf(Plan(u), mems, v) == mems[t][local + d.total..local + d.total + STAMP];
  }

  lemma PlacedByOwner(u: Subscriber, ds: seq<Descriptor>, v: nat)
    requires Initialised(u) && HandsOver(u, ds) && v < |ds|
    ensures ds[v].offset == Split.Final(u.pvs, u.maxArraySize, |u.sizes|, u.sizes, v)
    ensures Plan(u).spots[v]
      == Placement.Spot(Split.Owner(|u.pvs|, |u.sizes|, v), Split.Local(u.pvs, u.maxArraySize, |u.sizes|, v))
    ensures ds[v].total > 0 ==> Has(Plan(u), v) && Plan(u).lengths[v] == Some(ds[v].total)
  {
    Placement.OwnerPlaces(u.pvs, u.maxArraySize, |u.sizes|, u.sizes, u.order, v);
  }

  // ----- what was reported

  ghost function Blank(u: Subscriber): (m: seq<seq<Byte>>)
    requires Initialised(u)
    ensures Shaped(Plan(u), m) && forall t | 0 <= t < |m| :: m[t] == Zeros(u.sizes[t])
  {
    seq(|u.sizes|, t requires 0 <= t < |u.sizes| => Zeros(u.sizes[t]))
  }

  /** The memory of the rounds are snapshots: `told[i]` is all that was reported before that of round i. */
  ghost predicate Snapshots(u: Subscriber, told: seq<seq<News>>, xs: seq<Round>)
    requires Initialised(u)
  {
    |told| == |xs| && forall i | 0 <= i < |xs| :: SnapshotOf(u, told[i], xs[i].memory)
  }

  ghost predicate SnapshotOf(u: Subscriber, es: seq<News>, memory: seq<Byte>)
    requires Initialised(u)
  {
    AllGood(Plan(u), es) && memory == Flatten(Delivered(Plan(u), Blank(u), es))
  }

  /** The receiver holds of PV v the value and the timestamp reported last among these; what was never
      reported is zero. */
  ghost predicate HoldsReported(c: Setup, s: Store, ds: seq<Descriptor>, v: nat, es: seq<News>)
    requires GoodSetup(c) && Sized(c.pvs, c.total, s) && v < |ds|
  {
    HoldsValue(c, s, Place(c, ds[v]), LastValue(es, v, Zeros(ds[v].total)), LastStamp(es, v, Zeros(STAMP)))
  }

  lemma ZerosPart(n: nat, from: nat, length: nat)
    requires from + length <= n
    ensures Zeros(n)[from..from + length] == Zeros(length)
  {
  }

  lemma BlankIsZero(u: Subscriber, v: nat)
    requires Initialised(u) && Has(Plan(u), v)
    ensures ValueOf(Plan(u), Blank(u), v) == Zeros(Plan(u).lengths[v].value)
    ensures StampOf(Plan(u), Blank(u), v) == Zeros(STAMP)
  {
    var l := Plan(u);
    assert Fits(l, v);
    var s, n := l.spots[v], l.lengths[v].value;
    ZerosPart(u.sizes[s.thread], s.at, n);
    ZerosPart(u.sizes[s.thread], s.at + n, STAMP);
  }

  lemma HeldIsReported(u: Subscriber, ds: seq<Descriptor>, es: seq<News>, memory: seq<Byte>, c: Setup, s: Store, v: nat)
    requires Initialised(u) && HandsOver(u, ds) && SnapshotOf(u, es, memory) && v < |ds| && ds[v].total > 0
    requires GoodSetup(c) && Sized(c.pvs, c.total, s) && HoldsPv(c, s, ds[v], memory)
    ensures HoldsReported(c, s, ds, v, es)
  {
    SnapshotShows(u, ds, Delivered(Plan(u), Blank(u), es), v);
    HoldsTheLast(Plan(u), Blank(u), es, v);
    BlankIsZero(u, v);
  }

  /** One round: of every connected PV that was dispatched the receiver holds what was reported last before
      the snapshot. */
  lemma RoundCarriesReported(u: Subscriber, ds: seq<Descriptor>, told: seq<News>, c: Setup,
                             rc: Receiver, max: nat, threads: nat, x: Round, schedule: seq<nat>, v: nat)
    requires Initialised(u) && HandsOver(u, ds) && SnapshotOf(u, told, x.memory)
    requires GoodReceiver(c, rc) && Paired(c, ds) && Agrees(c.cmp, c.names, rc.mapping, Names(ds)) && SizesFit(ds, max)
    requires RoundsServed(c, rc, ds, max, threads, [x], schedule)
    requires x.vars <= |x.ring| && v in x.ring[..x.vars] && v < |ds| && ds[v].total > 0
    ensures HoldsReported(c, ReceiverAfter(c, rc, ds, max, threads, [x], schedule).store, ds, v, told)
  {
    RoundReachesReceiver(c, rc, ds, max, threads, x, schedule);
    HeldIsReported(u, ds, told, x.memory, c, ReceiverAfter(c, rc, ds, max, threads, [x], schedule).store, v);
  }

  /** From the callbacks to the receiver, over any run: when the byte budget cuts no cycle, in every round every
      thread claims its share and writes its request, and all requests are served, the receiver holds of every
      connected PV the value and the timestamp that had been reported last when one of the last
      reset + chunks + 1 snapshots was taken. */
  lemma EveryReportArrives(u: Subscriber, told: seq<seq<News>>, k: R.Config, r: R.Run,
                           es: seq<R.Input>, c: Setup, rc: Receiver, ds: seq<Descriptor>, max: nat,
                           threads: nat, xs: seq<Round>, schedule: seq<nat>, v: nat)
    returns (i: nat)
    requires Initialised(u) && HandsOver(u, ds) && Snapshots(u, told, xs)
    requires R.Kept(k, r) && W.AllGood(k, es) && W.Grants(k, r.s.sizes, k.m) && k.n == |ds|
    requires |es| + R.Min(r.sends, k.reset) >= k.reset + k.chunks + 1
    requires GoodReceiver(c, rc) && Paired(c, ds) && Agrees(c.cmp, c.names, rc.mapping, Names(ds)) && SizesFit(ds, max)
    requires RoundsOf(k, r, es, xs) && RoundsServed(c, rc, ds, max, threads, xs, schedule)
    requires v < |ds| && ds[v].total > 0
    ensures i < |xs| && HoldsReported(c, ReceiverAfter(c, rc, ds, max, threads, xs, schedule).store, ds, v, told[i])
  {
    i := EveryPvArrives(k, r, es, c, rc, ds, max, threads, xs, schedule, v);
    assert SnapshotOf(u, told[i], xs[i].memory);
    HeldIsReported(u, ds, told[i], xs[i].memory, c, ReceiverAfter(c, rc, ds, max, threads, xs, schedule).store, v);
  }
}
