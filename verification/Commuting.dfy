/** Records for different PVs may be stored in any order, and so connections whose records are for
    different PVs may be served in any interleaving: the store is that of serving them in turn. */
module Commuting {
  import opened Bytes
  import opened Records
  import opened Incremental
  import opened DiodeParser
  import opened NameSearch
  import opened Queues
  import opened ReceiverStore
  import opened Delivery
  import C = Connections

  // ----- two updates

  ghost predicate SameRegion(pv: Pv, a: seq<Byte>, b: seq<Byte>)
  {
    End(pv) <= |a| == |b| && forall k | 0 <= k < |a| && InRegion(pv, k) :: a[k] == b[k]
  }

  lemma SameValue(pv: Pv, a: seq<Byte>, b: seq<Byte>)
    requires SameRegion(pv, a, b)
    ensures Value(pv, a) == Value(pv, b)
  {
    forall k | 0 <= k < pv.totalSize ensures Value(pv, a)[k] == Value(pv, b)[k] {
      assert InRegion(pv, pv.offset + k);
    }
  }

  lemma SamePut(pv: Pv, a: seq<Byte>, b: seq<Byte>, at: nat, bytes: seq<Byte>)
    requires SameRegion(pv, a, b) && at + |bytes| <= |a|
    ensures SameRegion(pv, Put(a, at, bytes), Put(b, at, bytes))
  {
  }

  /** What an update leaves in the region depends on nothing but the region. */
  lemma WritesLocally(convert: Conversion, i: nat, pv: Pv, a: seq<Byte>, b: seq<Byte>, r: Record)
    requires SameRegion(pv, a, b) && |r.stamp| == STAMP
    requires forall t, d, v :: |convert(i, t, d, v)| == |v|
    ensures SameRegion(pv, Written(convert, i, pv, a, r), Written(convert, i, pv, b, r))
  {
    if InBounds(pv, r) {
      CopiesLocally(pv, a, b, r);
    } else if r.offset == 0 && r.typeId < NUMBER_OF_TYPES {
      SameValue(pv, a, b);
      SamePut(pv, a, b, pv.offset, convert(i, r.typeId, r.data, Value(pv, a)));
    }
  }

  lemma CopiesLocally(pv: Pv, a: seq<Byte>, b: seq<Byte>, r: Record)
    requires SameRegion(pv, a, b) && |r.stamp| == STAMP && InBounds(pv, r)
    ensures SameRegion(pv, Copied(pv, a, r), Copied(pv, b, r))
  {
    SamePut(pv, Overlaid(a, pv.offset + r.offset, r.data), Overlaid(b, pv.offset + r.offset, r.data),
      pv.offset + pv.totalSize, r.stamp);
  }

  ghost predicate Disjoint(p: Pv, q: Pv)
  {
    End(p) <= q.offset || End(q) <= p.offset
  }

  lemma OtherRegionSame(convert: Conversion, j: nat, q: Pv, pv: Pv, m: seq<Byte>, r: Record)
    requires End(q) <= |m| && End(pv) <= |m| && |r.stamp| == STAMP && Disjoint(pv, q) && !Reaches(q, |m|, r)
    requires forall t, d, v :: |convert(j, t, d, v)| == |v|
    ensures SameRegion(pv, m, Written(convert, j, q, m, r))
  {
    WrittenOnlyThere(convert, j, q, m, r);
  }

  lemma WritesCommute(convert: Conversion, i: nat, p: Pv, r: Record, j: nat, q: Pv, x: Record, m: seq<Byte>)
    requires KeepsSize(convert) && End(p) <= |m| && End(q) <= |m| && Disjoint(p, q)
    requires |r.stamp| == STAMP && |x.stamp| == STAMP && !Reaches(p, |m|, r) && !Reaches(q, |m|, x)
    ensures Written(convert, j, q, Written(convert, i, p, m, r), x)
      == Written(convert, i, p, Written(convert, j, q, m, x), r)
  {
    var a, b := Written(convert, i, p, m, r), Written(convert, j, q, m, x);
    var ab, ba := Written(convert, j, q, a, x), Written(convert, i, p, b, r);
    WrittenOnlyThere(convert, i, p, m, r);
    WrittenOnlyThere(convert, j, q, m, x);
    WrittenOnlyThere(convert, j, q, a, x);
    WrittenOnlyThere(convert, i, p, b, r);
    OtherRegionSame(convert, j, q, p, m, x);
    OtherRegionSame(convert, i, p, q, m, r);
    WritesLocally(convert, i, p, m, b, r);
    WritesLocally(convert, j, q, m, a, x);
    forall k | 0 <= k < |m| ensures ab[k] == ba[k] {
      if InRegion(p, k) {
        assert !InRegion(q, k);
      } else if InRegion(q, k) {
        assert !InRegion(p, k);
      }
    }
  }

  /** An update in one piece: the value is put into the shadow copy, whether it differs or not. */
  lemma UpdateIs(pvs: seq<Pv>, convert: Conversion, s: Store, i: nat, r: Record)
    requires i < |pvs| && i < |s.flag| && |s.memory| == |s.prec|
    requires End(pvs[i]) <= |s.memory| && |r.stamp| == STAMP
    requires forall t, d, v :: |convert(i, t, d, v)| == |v|
    ensures var m := Written(convert, i, pvs[i], s.memory, r);
      var v := Value(pvs[i], m);
      Update(pvs, convert, s, i, r)
        == Store(m, Put(s.prec, pvs[i].offset, v), if v == Value(pvs[i], s.prec) then s.flag else s.flag[i := true],
                 s.strayed || Strays(pvs[i], r))
  {
    var v := Value(pvs[i], s.prec);
    PutSame(s.prec, pvs[i].offset, v);
  }

  lemma PutSame(m: seq<Byte>, at: nat, bytes: seq<Byte>)
    requires at + |bytes| <= |m| && bytes == m[at..at + |bytes|]
    ensures Put(m, at, bytes) == m
  {
  }

  lemma PutsCommute(m: seq<Byte>, a: nat, x: seq<Byte>, b: nat, y: seq<Byte>)
    requires a + |x| <= |m| && b + |y| <= |m| && (a + |x| <= b || b + |y| <= a)
    ensures Put(Put(m, a, x), b, y) == Put(Put(m, b, y), a, x)
  {
  }

  lemma PutKeepsValue(pv: Pv, m: seq<Byte>, at: nat, bytes: seq<Byte>)
    requires End(pv) <= |m| && at + |bytes| <= |m| && (at + |bytes| <= pv.offset || End(pv) <= at)
    ensures Value(pv, Put(m, at, bytes)) == Value(pv, m)
  {
  }

  lemma UpdatesCommute(pvs: seq<Pv>, total: nat, convert: Conversion, s: Store, i: nat, r: Record, j: nat, x: Record)
    requires Sized(pvs, total, s) && KeepsSize(convert) && |r.stamp| == STAMP && |x.stamp| == STAMP
    requires i < |pvs| && j < |pvs| && i != j && !Reaches(pvs[i], total, r) && !Reaches(pvs[j], total, x)
    ensures End(pvs[i]) <= total && End(pvs[j]) <= total
    ensures Update(pvs, convert, Update(pvs, convert, s, i, r), j, x)
      == Update(pvs, convert, Update(pvs, convert, s, j, x), i, r)
  {
    Apart(pvs, total, i, j);
    var p, q := pvs[i], pvs[j];
    UpdatedTwice(pvs, total, convert, s, i, r, j, x);
    UpdatedTwice(pvs, total, convert, s, j, x, i, r);
    WritesCommute(convert, i, p, r, j, q, x, s.memory);
    var v, w := Value(p, Written(convert, i, p, s.memory, r)), Value(q, Written(convert, j, q, s.memory, x));
    ShadowsCommute(p, q, s.prec, v, w);
    RaisedCommute(s.flag, i, v != Value(p, s.prec), j, w != Value(q, s.prec));
  }

  function Raised(flag: seq<bool>, i: nat, changed: bool): (f: seq<bool>)
    requires i < |flag|
    ensures |f| == |flag|
  {
    if changed then flag[i := true] else flag
  }

  lemma RaisedCommute(flag: seq<bool>, i: nat, a: bool, j: nat, b: bool)
    requires i < |flag| && j < |flag|
    ensures Raised(Raised(flag, i, a), j, b) == Raised(Raised(flag, j, b), i, a)
  {
  }

  /** Two updates of different PVs in one piece: each as if it were the only one. */
  lemma UpdatedTwice(pvs: seq<Pv>, total: nat, convert: Conversion, s: Store, i: nat, r: Record, j: nat, x: Record)
    requires Sized(pvs, total, s) && KeepsSize(convert) && |r.stamp| == STAMP && |x.stamp| == STAMP
    requires i < |pvs| && j < |pvs| && i != j && !Reaches(pvs[i], total, r) && !Reaches(pvs[j], total, x)
    ensures End(pvs[i]) <= total && End(pvs[j]) <= total
    ensures var p, q := pvs[i], pvs[j];
      var v, w := Value(p, Written(convert, i, p, s.memory, r)), Value(q, Written(convert, j, q, s.memory, x));
      Update(pvs, convert, Update(pvs, convert, s, i, r), j, x)
        == Store(Written(convert, j, q, Written(convert, i, p, s.memory, r), x),
                 Put(Put(s.prec, p.offset, v), q.offset, w),
                 Raised(Raised(s.flag, i, v != Value(p, s.prec)), j, w != Value(q, s.prec)),
                 s.strayed || Strays(p, r) || Strays(q, x))
  {
    Apart(pvs, total, i, j);
    var a := Update(pvs, convert, s, i, r);
    UpdateIs(pvs, convert, s, i, r);
    UpdateIs(pvs, convert, a, j, x);
    ValuesCommute(convert, j, pvs[j], x, i, pvs[i], r, s.memory);
    PutKeepsValue(pvs[j], s.prec, pvs[i].offset, Value(pvs[i], a.memory));
  }

  lemma ShadowsCommute(p: Pv, q: Pv, prec: seq<Byte>, v: seq<Byte>, w: seq<Byte>)
    requires End(p) <= |prec| && End(q) <= |prec| && Disjoint(p, q) && |v| == p.totalSize && |w| == q.totalSize
    ensures Put(Put(prec, p.offset, v), q.offset, w) == Put(Put(prec, q.offset, w), p.offset, v)
    ensures Value(q, Put(prec, p.offset, v)) == Value(q, prec) && Value(p, Put(prec, q.offset, w)) == Value(p, prec)
  {
    PutsCommute(prec, p.offset, v, q.offset, w);
    PutKeepsValue(q, prec, p.offset, v);
    PutKeepsValue(p, prec, q.offset, w);
  }

  /** The value of one PV after both updates is the one after its own. */
  lemma ValuesCommute(convert: Conversion, i: nat, p: Pv, r: Record, j: nat, q: Pv, x: Record, m: seq<Byte>)
    requires KeepsSize(convert) && End(p) <= |m| && End(q) <= |m| && Disjoint(p, q)
    requires |r.stamp| == STAMP && |x.stamp| == STAMP && !Reaches(q, |m|, x)
    ensures Value(p, Written(convert, i, p, Written(convert, j, q, m, x), r)) == Value(p, Written(convert, i, p, m, r))
  {
    OtherRegionSame(convert, j, q, p, m, x);
    WritesLocally(convert, i, p, m, Written(convert, j, q, m, x), r);
    SameValue(p, Written(convert, i, p, m, r), Written(convert, i, p, Written(convert, j, q, m, x), r));
  }

  // ----- any order

  ghost function StoreAt(c: Setup, s: Store, r: Record): (s': Store)
    requires GoodSetup(c) && Sized(c.pvs, c.total, s) && |r.stamp| == STAMP
    ensures Sized(c.pvs, c.total, s')
  {
    StoreOne(c, s, Find(c.cmp, c.names, r.name), r)
  }

  /** The record is stored in the region of the PV it is for and nowhere else in the buffer. */
  ghost predicate KeepsToItsOwn(c: Setup, r: Record)
    requires |c.names| == |c.pvs|
  {
    var i := Find(c.cmp, c.names, r.name);
    i.Some? ==> !Reaches(c.pvs[i.value], c.total, r)
  }

  /** The records are for different PVs, or one of them for none. */
  ghost predicate ForOthers(c: Setup, r: Record, x: Record)
    requires |c.names| == |c.pvs|
  {
    var i, j := Find(c.cmp, c.names, r.name), Find(c.cmp, c.names, x.name);
    (i.None? || j.None? || i != j) && KeepsToItsOwn(c, r) && KeepsToItsOwn(c, x)
  }

  ghost predicate AllForOthers(c: Setup, rs: seq<Record>)
    requires |c.names| == |c.pvs|
  {
    forall i, j | 0 <= i < j < |rs| :: ForOthers(c, rs[i], rs[j])
  }

  lemma TwoCommute(c: Setup, s: Store, r: Record, x: Record)
    requires GoodSetup(c) && Sized(c.pvs, c.total, s) && |r.stamp| == STAMP && |x.stamp| == STAMP && ForOthers(c, r, x)
    ensures StoreAt(c, StoreAt(c, s, r), x) == StoreAt(c, StoreAt(c, s, x), r)
  {
    var i, j := Find(c.cmp, c.names, r.name), Find(c.cmp, c.names, x.name);
    if i.Some? && j.Some? { UpdatesCommute(c.pvs, c.total, c.convert, s, i.value, r, j.value, x); }
  }

  lemma {:induction false} MovesToFront(c: Setup, s: Store, rs: seq<Record>, k: nat)
    requires GoodSetup(c) && Sized(c.pvs, c.total, s) && Stamped(rs) && k < |rs|
    requires forall j | 0 <= j < k :: ForOthers(c, rs[j], rs[k])
    ensures Stamped(rs[..k] + rs[k + 1..])
    ensures StoreAll(c, s, rs) == StoreAll(c, StoreAt(c, s, rs[k]), rs[..k] + rs[k + 1..])
    decreases k
  {
    if k == 0 {
      assert rs[..0] + rs[1..] == rs[1..];
    } else {
      var rest := rs[..k] + rs[k + 1..];
      assert rest[1..] == rs[1..][..k - 1] + rs[1..][k..];
      TwoCommute(c, s, rs[0], rs[k]);
      MovesToFront(c, StoreAt(c, s, rs[0]), rs[1..], k - 1);
    }
  }

  lemma FirstOccurrence(b: seq<Record>, r: Record) returns (k: nat)
    requires r in b
    ensures k < |b| && b[k] == r && forall j | 0 <= j < k :: b[j] != r
  {
    if b[0] == r {
      k := 0;
    } else {
      k := FirstOccurrence(b[1..], r);
      k := k + 1;
    }
  }

  lemma TakenOut(a: seq<Record>, b: seq<Record>, k: nat)
    requires multiset(a) == multiset(b) && a != [] && k < |b| && b[k] == a[0]
    ensures multiset(a[1..]) == multiset(b[..k] + b[k + 1..])
  {
    WithoutFirst(a);
    WithoutOne(b, k);
  }

  lemma WithoutFirst(s: seq<Record>)
    requires s != []
    ensures multiset(s[1..]) == multiset(s) - multiset{s[0]}
  {
    assert s == [s[0]] + s[1..];
  }

  /** Storing records for different PVs comes to the same in every order. */
  lemma {:induction false} OrderDoesNotMatter(c: Setup, s: Store, a: seq<Record>, b: seq<Record>)
    requires GoodSetup(c) && Sized(c.pvs, c.total, s) && Stamped(a) && Stamped(b)
    requires AllForOthers(c, a) && multiset(a) == multiset(b)
    ensures StoreAll(c, s, a) == StoreAll(c, s, b)
    decreases |a|
  {
    if a == [] {
      assert |multiset(b)| == |b|;
    } else {
      assert a[0] in multiset(b);
      var k := FirstOccurrence(b, a[0]);
      forall j | 0 <= j < k ensures ForOthers(c, b[j], b[k]) {
        assert b[j] in multiset(a);
        var t :| 0 <= t < |a| && a[t] == b[j];
        assert ForOthers(c, a[0], a[t]);
      }
      MovesToFront(c, s, b, k);
      TakenOut(a, b, k);
      OrderDoesNotMatter(c, StoreAt(c, s, a[0]), a[1..], b[..k] + b[k + 1..]);
    }
  }

  // ----- in turn

  /** The connections served one after the other, each from an empty payload. */
  ghost function ServeInTurn(c: Setup, step: Stepper<Looked, Record>, rc: Receiver, starts: seq<seq<seq<Byte>>>, n: nat)
    : (r: Receiver)
    requires GoodReceiver(c, rc) && SoundSteps(c, step) && n <= |starts|
    ensures GoodReceiver(c, r)
  {
    if n == 0 then rc else Serve(c, step, ServeInTurn(c, step, rc, starts, n - 1), [], starts[n - 1]).0
  }

  ghost function AllRecords(step: Stepper<Looked, Record>, starts: seq<seq<seq<Byte>>>, n: nat): seq<Record>
    requires Shrinks(step) && n <= |starts|
  {
    if n == 0 then [] else AllRecords(step, starts, n - 1) + Run(step, [], starts[n - 1]).records
  }

  /** Storing these records leads to this receiver, whose cache is right. */
  ghost predicate Leads(c: Setup, was: Store, rs: seq<Record>, now: Receiver, sender: seq<Name>)
    requires GoodReceiver(c, now) && Sized(c.pvs, c.total, was)
  {
    Stamped(rs) && now.store == StoreAll(c, was, rs) && Agrees(c.cmp, c.names, now.mapping, sender)
  }

  lemma {:induction false} InTurn(c: Setup, step: Stepper<Looked, Record>, rc: Receiver, starts: seq<seq<seq<Byte>>>,
                                  sender: seq<Name>, n: nat)
    requires GoodReceiver(c, rc) && SoundSteps(c, step) && |sender| <= |c.names| && n <= |starts|
    requires Agrees(c.cmp, c.names, rc.mapping, sender) && C.AllStartNumbered(step, starts, sender)
    ensures Leads(c, rc.store, AllRecords(step, starts, n), ServeInTurn(c, step, rc, starts, n), sender)
  {
    if n > 0 {
      InTurn(c, step, rc, starts, sender, n - 1);
      ServedAfter(c, step, ServeInTurn(c, step, rc, starts, n - 1), starts[n - 1], sender, rc.store,
        AllRecords(step, starts, n - 1));
    }
  }

  lemma {:induction false} ServedAfter(c: Setup, step: Stepper<Looked, Record>, rc: Receiver, pieces: seq<seq<Byte>>,
                                       sender: seq<Name>, was: Store, before: seq<Record>)
    requires GoodReceiver(c, rc) && SoundSteps(c, step) && |sender| <= |c.names|
    requires AllNumbered(sender, Run(step, [], pieces).looked)
    requires Sized(c.pvs, c.total, was) && Leads(c, was, before, rc, sender)
    ensures Leads(c, was, before + Run(step, [], pieces).records, Serve(c, step, rc, [], pieces).0, sender)
  {
    ServeFollows(c, step, rc, [], pieces, sender);
    StoreAllAppend(c, was, before, Run(step, [], pieces).records);
  }

  /** What the first n connections have stored, each one's records in order. */
  ghost function Gathered(log: seq<C.Entry>, n: nat): seq<Record>
  {
    if n == 0 then [] else Gathered(log, n - 1) + C.Of(log, n - 1)
  }

  ghost function Bag(log: seq<C.Entry>, n: nat): multiset<Record>
  {
    if n == 0 then multiset{} else Bag(log, n - 1) + multiset(C.Of(log, n - 1))
  }

  lemma {:induction false} BagIs(log: seq<C.Entry>, n: nat)
    ensures multiset(Gathered(log, n)) == Bag(log, n)
  {
    if n > 0 { BagIs(log, n - 1); }
  }

  /** How often the entry adds the record, if it is of one of these connections. */
  function Adds(e: C.Entry, r: Record, c: bool): nat
  {
    if c && e.record == r then 1 else 0
  }

  lemma {:induction false} BagMore(log: seq<C.Entry>, e: C.Entry, n: nat, r: Record)
    ensures Bag(log + [e], n)[r] == Bag(log, n)[r] + Adds(e, r, e.conn < n)
  {
    if n > 0 {
      BagMore(log, e, n - 1, r);
      OfMore(log, e, n - 1, r);
    }
  }

  lemma {:induction false} OfMore(log: seq<C.Entry>, e: C.Entry, k: nat, r: Record)
    ensures multiset(C.Of(log + [e], k))[r] == multiset(C.Of(log, k))[r] + Adds(e, r, e.conn == k)
  {
    C.LogGrows(log, e, k);
  }

  lemma {:induction false} BagOfNone(n: nat)
    ensures Bag([], n) == multiset{}
  {
    if n > 0 { BagOfNone(n - 1); }
  }

  /** What was stored is what the connections stored. */
  lemma {:induction false} LogIsBag(log: seq<C.Entry>, n: nat)
    requires forall i | 0 <= i < |log| :: log[i].conn < n
    ensures multiset(C.StoredIn(log)) == Bag(log, n)
  {
    if log == [] {
      BagOfNone(n);
    } else {
      var front, e := log[..|log| - 1], log[|log| - 1];
      assert log == front + [e];
      LogIsBag(front, n);
      C.LogGrows(front, e, 0);
      forall r ensures multiset(C.StoredIn(log))[r] == Bag(log, n)[r] {
        BagMore(front, e, n, r);
      }
    }
  }

  lemma {:induction false} GatheredIs(step: Stepper<Looked, Record>, log: seq<C.Entry>, starts: seq<seq<seq<Byte>>>,
                                      n: nat)
    requires Shrinks(step) && n <= |starts|
    requires forall k | 0 <= k < |starts| :: Complete(step, log, starts[k], k)
    ensures Gathered(log, n) == AllRecords(step, starts, n)
  {
    if n > 0 {
      GatheredIs(step, log, starts, n - 1);
      assert Complete(step, log, starts[n - 1], n - 1);
    }
  }

  /** The connection has stored all records of its stream. */
  ghost predicate Complete(step: Stepper<Looked, Record>, log: seq<C.Entry>, pieces: seq<seq<Byte>>, k: nat)
    requires Shrinks(step)
  {
    C.Of(log, k) == Run(step, [], pieces).records
  }

  /** Connections whose records are for different PVs: whatever the interleaving, the store at the end is
      the one that serving them in turn leaves. */
  lemma {:induction false} InterleavingIsInTurn(c: Setup, step: Stepper<Looked, Record>, rc: Receiver,
                                                starts: seq<seq<seq<Byte>>>, sender: seq<Name>, schedule: seq<nat>)
    requires GoodReceiver(c, rc) && SoundSteps(c, step) && |sender| <= |c.names|
    requires Agrees(c.cmp, c.names, rc.mapping, sender) && C.AllStartNumbered(step, starts, sender)
    requires C.Good(c, step, C.Start(rc, starts)) && C.Feasible(c, step, C.Start(rc, starts), schedule)
    requires C.AllDone(C.After(c, step, C.Start(rc, starts), schedule))
    requires AllForOthers(c, AllRecords(step, starts, |starts|))
    ensures C.After(c, step, C.Start(rc, starts), schedule).rc.store == ServeInTurn(c, step, rc, starts, |starts|).store
  {
    C.EveryInterleaving(c, step, rc, starts, sender, schedule);
    InTurn(c, step, rc, starts, sender, |starts|);
    var log := C.After(c, step, C.Start(rc, starts), schedule).log;
    LogIsBag(log, |starts|);
    BagIs(log, |starts|);
    assert forall k | 0 <= k < |starts| :: Complete(step, log, starts[k], k);
    GatheredIs(step, log, starts, |starts|);
    OrderDoesNotMatter(c, rc.store, AllRecords(step, starts, |starts|), C.StoredIn(log));
  }
}
