/** The diode from the sender's copied memory to the receiver's: what a pool thread writes for the
    share it claimed is what the receiver then holds. */
module EndToEnd {
  import opened Bytes
  import opened Records
  import opened DiodeParser
  import opened NameSearch
  import opened ReceiverStore
  import opened Delivery
  import opened Replication
  import opened Queues
  import opened Slices
  import opened Sending
  import WorkSplit

  function Names(pvs: seq<Descriptor>): (names: seq<Name>)
    ensures |names| == |pvs| && forall i | 0 <= i < |pvs| :: names[i] == pvs[i].name
  {
    seq(|pvs|, i requires 0 <= i < |pvs| => pvs[i].name)
  }

  /** The receiver's configuration fits the sender's: every connected PV is in its table with the
      same size, within the receiver's bounds, and has a name the format carries. */
  ghost predicate Paired(c: Setup, pvs: seq<Descriptor>)
    requires |c.names| == |c.pvs|
  {
    && |pvs| <= |c.names| && TotalOrder(c.cmp) && Sorted(c.cmp, c.names)
    && (forall i, j | 0 <= i < j < |pvs| :: pvs[i].name != pvs[j].name)
    && forall v | 0 <= v < |pvs| && pvs[v].total > 0 :: PairedPv(c, pvs[v])
  }

  ghost predicate PairedPv(c: Setup, d: Descriptor)
    requires |c.names| == |c.pvs|
  {
    && d.name in c.names && |d.name| <= PV_NAME_MAX_SIZE && QUOTE !in d.name && DOT !in d.name && 0 !in d.name
    && d.total < c.maxSize
    && (Find(c.cmp, c.names, d.name).Some? ==> c.pvs[Find(c.cmp, c.names, d.name).value].totalSize == d.total)
  }

  /** Where the receiver keeps the PV. */
  function Place(c: Setup, d: Descriptor): nat
  {
    var r := Find(c.cmp, c.names, d.name);
    if r.Some? then r.value else 0
  }

  function ValueBytes(d: Descriptor, memory: seq<Byte>): seq<Byte>
    requires d.offset + d.total + STAMP <= |memory|
  {
    memory[d.offset..d.offset + d.total]
  }

  function StampBytes(d: Descriptor, memory: seq<Byte>): seq<Byte>
    requires d.offset + d.total + STAMP <= |memory|
  {
    memory[d.offset + d.total..d.offset + d.total + STAMP]
  }

  /** The connected PVs of a share, in order. */
  function Connected(share: seq<nat>, pvs: seq<Descriptor>): (vs: seq<nat>)
    requires forall j | 0 <= j < |share| :: share[j] < |pvs|
    ensures forall k | 0 <= k < |vs| :: vs[k] in share && vs[k] < |pvs| && pvs[vs[k]].total > 0
  {
    if share == [] then []
    else (if pvs[share[0]].total > 0 then [share[0]] else []) + Connected(share[1..], pvs)
  }

  lemma {:induction false} ConnectedAre(share: seq<nat>, pvs: seq<Descriptor>)
    requires NoDuplicates(share) && forall j | 0 <= j < |share| :: share[j] < |pvs|
    ensures NoDuplicates(Connected(share, pvs))
    ensures forall v | v in share && pvs[v].total > 0 :: v in Connected(share, pvs)
  {
    if share != [] {
      ConnectedAre(share[1..], pvs);
      assert share == [share[0]] + share[1..];
      assert share[0] !in share[1..];
    }
  }

  lemma {:induction false} CompleteAre(share: seq<nat>, pvs: seq<Descriptor>)
    requires forall j | 0 <= j < |share| :: share[j] < |pvs|
    ensures var vs, ps := Connected(share, pvs), Complete(share, Totals(pvs));
      |ps| == |vs| && forall k | 0 <= k < |vs| :: ps[k] == Piece(vs[k], 0, pvs[vs[k]].total)
  {
    if share != [] {
      CompleteAre(share[1..], pvs);
    }
  }

  function RecordsOf(pvs: seq<Descriptor>, memory: seq<Byte>, ps: seq<Piece>): (rs: seq<Record>)
    requires Sendable(pvs, |memory|) && AllInside(pvs, ps)
    ensures |rs| == |ps| && forall k | 0 <= k < |ps| :: rs[k] == RecordOf(pvs, memory, ps[k])
  {
    seq(|ps|, k requires 0 <= k < |ps| => RecordOf(pvs, memory, ps[k]))
  }

  lemma {:induction false} BodyIsEncodings(lim: Limits, pvs: seq<Descriptor>, memory: seq<Byte>, ps: seq<Piece>)
    requires Sendable(pvs, |memory|) && AllInside(pvs, ps) && AllWellFormed(lim, RecordsOf(pvs, memory, ps))
    ensures Body(Writer(pvs, memory), ps) == Flatten(Encodings(lim, RecordsOf(pvs, memory, ps)))
  {
    if ps != [] {
      var rs := RecordsOf(pvs, memory, ps);
      assert rs[1..] == RecordsOf(pvs, memory, ps[1..]);
      BodyIsEncodings(lim, pvs, memory, ps[1..]);
      assert Encodings(lim, rs)[1..] == Encodings(lim, rs[1..]);
    }
  }

  lemma CarriesWhole(c: Setup, pvs: seq<Descriptor>, memory: seq<Byte>, v: nat)
    requires |c.names| == |c.pvs| && Paired(c, pvs) && Sendable(pvs, |memory|) && v < |pvs| && pvs[v].total > 0
    ensures var r := RecordOf(pvs, memory, Piece(v, 0, pvs[v].total));
      && WellFormed(LimitsOf(c), r) && r.index == v && r.name == pvs[v].name
      && Carries(c, r, Place(c, pvs[v])) && c.names[Place(c, pvs[v])] == pvs[v].name
      && r.data == ValueBytes(pvs[v], memory) && r.stamp == StampBytes(pvs[v], memory)
  {
    assert PairedPv(c, pvs[v]);
    FindIsExact(c.cmp, c.names, pvs[v].name);
  }

  function Places(c: Setup, pvs: seq<Descriptor>, vs: seq<nat>): (places: seq<nat>)
    requires forall k | 0 <= k < |vs| :: vs[k] < |pvs|
    ensures |places| == |vs| && forall k | 0 <= k < |vs| :: places[k] == Place(c, pvs[vs[k]])
  {
    seq(|vs|, k requires 0 <= k < |vs| => Place(c, pvs[vs[k]]))
  }

  /** The records of connected PVs are ones the receiver takes, each for its own PV. */
  lemma RecordsFit(c: Setup, pvs: seq<Descriptor>, memory: seq<Byte>, vs: seq<nat>, ps: seq<Piece>)
    requires |c.names| == |c.pvs| && Paired(c, pvs) && Sendable(pvs, |memory|) && NoDuplicates(vs) && |ps| == |vs|
    requires forall k | 0 <= k < |vs| ::
      vs[k] < |pvs| && pvs[vs[k]].total > 0 && ps[k] == Piece(vs[k], 0, pvs[vs[k]].total)
    ensures AllInside(pvs, ps)
    ensures var rs := RecordsOf(pvs, memory, ps);
      && AllWellFormed(LimitsOf(c), rs) && FromNumbering(Names(pvs), rs) && NoDuplicates(Places(c, pvs, vs))
      && forall k | 0 <= k < |vs| ::
           && Carries(c, rs[k], Places(c, pvs, vs)[k])
           && rs[k].data == ValueBytes(pvs[vs[k]], memory) && rs[k].stamp == StampBytes(pvs[vs[k]], memory)
  {
    var rs, places := RecordsOf(pvs, memory, ps), Places(c, pvs, vs);
    forall k | 0 <= k < |vs|
      ensures WellFormed(LimitsOf(c), rs[k]) && Carries(c, rs[k], places[k]) && rs[k].index == vs[k]
      ensures rs[k].name == pvs[vs[k]].name && c.names[places[k]] == pvs[vs[k]].name
      ensures rs[k].data == ValueBytes(pvs[vs[k]], memory) && rs[k].stamp == StampBytes(pvs[vs[k]], memory)
    {
      CarriesWhole(c, pvs, memory, vs[k]);
    }
  }

  /** What the receiver must hold after the PVs `vs` were sent: their values and timestamps, and
      everything else as before. */
  ghost predicate Mirrors(c: Setup, was: Store, now: Store, pvs: seq<Descriptor>, memory: seq<Byte>, vs: seq<nat>)
    requires GoodSetup(c) && Sized(c.pvs, c.total, was) && Sized(c.pvs, c.total, now) && Sendable(pvs, |memory|)
    requires forall k | 0 <= k < |vs| :: vs[k] < |pvs| && pvs[vs[k]].total > 0
  {
    && (forall k | 0 <= k < |vs| ::
          HoldsValue(c, now, Place(c, pvs[vs[k]]), ValueBytes(pvs[vs[k]], memory), StampBytes(pvs[vs[k]], memory)))
    && now.strayed == was.strayed
    && forall j, d, t | 0 <= j < |c.pvs| && j !in Places(c, pvs, vs) && HoldsValue(c, was, j, d, t) ::
      HoldsValue(c, now, j, d, t)
  }

  /** A pool thread's share reaches the receiver: with records large enough for every PV, the thread
      writes one request, and whatever pieces its body arrives in, the receiver then holds for each
      connected PV of the share the value and the timestamp of the sender's copy, and everything
      else it held before. */
  lemma {:induction false} ShareReachesReceiver(c: Setup, rc: Receiver, pvs: seq<Descriptor>, memory: seq<Byte>,
                                                share: seq<nat>, max: nat, pieces: seq<seq<Byte>>)
    requires GoodReceiver(c, rc) && Paired(c, pvs) && Agrees(c.cmp, c.names, rc.mapping, Names(pvs))
    requires Sendable(pvs, |memory|) && NoDuplicates(share) && share != []
    requires forall j | 0 <= j < |share| :: share[j] < |pvs| && pvs[share[j]].total <= max
    requires var bodies := Bodies(Writer(pvs, memory), Requests(share, Totals(pvs), 0, 0, max));
      bodies != [] ==> Flatten(pieces) == bodies[0]
    ensures |Bodies(Writer(pvs, memory), Requests(share, Totals(pvs), 0, 0, max))| == 1
    ensures SoundSteps(c, Stepping(LimitsOf(c)))
    ensures var r := Serve(c, Stepping(LimitsOf(c)), rc, [], pieces).0;
      Mirrors(c, rc.store, r.store, pvs, memory, Connected(share, pvs)) && Agrees(c.cmp, c.names, r.mapping, Names(pvs))
    ensures forall v | v in share && pvs[v].total > 0 :: v in Connected(share, pvs)
  {
    OneRecordEach(share, Totals(pvs), max);
    ConnectedAre(share, pvs);
    CompleteAre(share, pvs);
    var ps, vs := Complete(share, Totals(pvs)), Connected(share, pvs);
    OneBody(Writer(pvs, memory), ps);
    RecordsReach(c, rc, pvs, memory, vs, ps, pieces);
  }

  lemma {:induction false} OneBody(writer: Piece -> seq<Byte>, ps: seq<Piece>)
    ensures Bodies(writer, [ps]) == [Body(writer, ps)]
  {
    assert [ps][1..] == [];
  }

  lemma {:induction false} RecordsReach(c: Setup, rc: Receiver, pvs: seq<Descriptor>, memory: seq<Byte>, vs: seq<nat>,
                                        ps: seq<Piece>, pieces: seq<seq<Byte>>)
    requires GoodReceiver(c, rc) && Paired(c, pvs) && Agrees(c.cmp, c.names, rc.mapping, Names(pvs))
    requires Sendable(pvs, |memory|) && NoDuplicates(vs) && |ps| == |vs|
    requires forall k | 0 <= k < |vs| ::
      vs[k] < |pvs| && pvs[vs[k]].total > 0 && ps[k] == Piece(vs[k], 0, pvs[vs[k]].total)
    requires Flatten(pieces) == Body(Writer(pvs, memory), ps)
    ensures SoundSteps(c, Stepping(LimitsOf(c)))
    ensures var r := Serve(c, Stepping(LimitsOf(c)), rc, [], pieces).0;
      Mirrors(c, rc.store, r.store, pvs, memory, vs) && Agrees(c.cmp, c.names, r.mapping, Names(pvs))
  {
    RecordsFit(c, pvs, memory, vs, ps);
    var rs, places := RecordsOf(pvs, memory, ps), Places(c, pvs, vs);
    BodyIsEncodings(LimitsOf(c), pvs, memory, ps);
    DiodeReplicates(c, rc, rs, places, pieces, Names(pvs));
    var now := Serve(c, Stepping(LimitsOf(c)), rc, [], pieces).0.store;
    forall k | 0 <= k < |vs|
      ensures HoldsValue(c, now, Place(c, pvs[vs[k]]), ValueBytes(pvs[vs[k]], memory), StampBytes(pvs[vs[k]], memory))
    {
      assert HoldsValue(c, now, places[k], rs[k].data, rs[k].stamp);
    }
  }

  // ----- the sender's copied memory is the subscriber's snapshot

  /** The descriptors the subscriber hands the sender, after the remap: the sizes kept of what the
      library reported, and the final offsets. */
  ghost predicate Described(ds: seq<Descriptor>, pvs: seq<WorkSplit.Pv>, maxArraySize: nat, threads: nat,
                            sizes: seq<nat>)
    requires threads > 0 && |sizes| == threads
  {
    |ds| == |pvs| && forall i | 0 <= i < |pvs| ::
      && ds[i].total == WorkSplit.Value(WorkSplit.Kept(pvs[i], maxArraySize))
      && ds[i].offset == WorkSplit.Final(pvs, maxArraySize, threads, sizes, i)
  }

  /** What is sent of a PV from the snapshot is what the thread that owns it keeps for it. */
  lemma {:induction false} SnapshotHolds(d: Descriptor, pvs: seq<WorkSplit.Pv>, maxArraySize: nat, threads: nat,
                                         sizes: seq<nat>, mems: seq<seq<Byte>>, i: nat)
    requires threads > 0 && WorkSplit.Sized(pvs, maxArraySize, threads, sizes) && i < |pvs|
    requires |mems| == threads && (forall t | 0 <= t < threads :: |mems[t]| == sizes[t])
    requires d.total == WorkSplit.Value(WorkSplit.Kept(pvs[i], maxArraySize)) > 0
    requires d.offset == WorkSplit.Final(pvs, maxArraySize, threads, sizes, i)
    ensures d.offset + d.total + STAMP <= |Flatten(mems)|
    ensures var t, local := WorkSplit.Owner(|pvs|, threads, i), WorkSplit.Local(pvs, maxArraySize, threads, i);
      && t < threads && local + d.total + STAMP <= |mems[t]|
      && ValueBytes(d, Flatten(mems)) == mems[t][local..local + d.total]
      && StampBytes(d, Flatten(mems)) == mems[t][local + d.total..local + d.total + STAMP]
  {
    WorkSplit.WithValue(pvs[i], maxArraySize);
    WorkSplit.AddressesItsOwn(pvs, maxArraySize, threads, sizes, mems, i);
    var t, local := WorkSplit.Owner(|pvs|, threads, i), WorkSplit.Local(pvs, maxArraySize, threads, i);
    SameParts(Flatten(mems), d.offset, mems[t], local, d.total);
  }

  /** Every PV with a value can be sent from the snapshot. */
  lemma {:induction false} SnapshotIsSendable(ds: seq<Descriptor>, pvs: seq<WorkSplit.Pv>, maxArraySize: nat,
                                              threads: nat, sizes: seq<nat>, mems: seq<seq<Byte>>)
    requires threads > 0 && WorkSplit.Sized(pvs, maxArraySize, threads, sizes)
      && Described(ds, pvs, maxArraySize, threads, sizes)
    requires |mems| == threads && (forall t | 0 <= t < threads :: |mems[t]| == sizes[t])
    requires |ds| <= 0x1_0000_0000 && |Flatten(mems)| < 0x1_0000_0000
    ensures Sendable(ds, |Flatten(mems)|)
  {
    forall i | 0 <= i < |ds| && ds[i].total > 0 ensures ds[i].offset + ds[i].total + STAMP <= |Flatten(mems)| {
      SnapshotHolds(ds[i], pvs, maxArraySize, threads, sizes, mems, i);
    }
  }

  lemma SameParts(a: seq<Byte>, at: nat, b: seq<Byte>, local: nat, total: nat)
    requires at + total + STAMP <= |a| && local + total + STAMP <= |b|
    requires a[at..at + (total + STAMP)] == b[local..local + (total + STAMP)]
    ensures a[at..at + total] == b[local..local + total]
    ensures a[at + total..at + total + STAMP] == b[local + total..local + total + STAMP]
  {
    assert a[at..at + total] == a[at..at + (total + STAMP)][..total];
    assert b[local..local + total] == b[local..local + (total + STAMP)][..total];
    assert a[at + total..at + total + STAMP] == a[at..at + (total + STAMP)][total..];
    assert b[local + total..local + total + STAMP] == b[local..local + (total + STAMP)][total..];
  }
}
