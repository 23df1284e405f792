/** What a stream does to the receiver: parsing, name resolution and storing together, and the proof
    that it depends on the records sent and not on the cut of their bytes. */
module Delivery {
  import opened Wrappers
  import opened Bytes
  import opened Records
  import opened Incremental
  import opened DiodeParser
  import opened NameSearch
  import opened ReceiverStore

  /** What does not change while the receiver serves clients. */
  datatype Setup = Setup(cmp: Comparison, names: seq<Name>, pvs: seq<Pv>, total: nat, maxSize: Word,
                         convert: Conversion)

  function LimitsOf(c: Setup): Limits
  {
    Limits(|c.names|, c.maxSize)
  }

  ghost predicate GoodSetup(c: Setup)
  {
    |c.names| == |c.pvs| && LaidOut(c.pvs, c.total) && KeepsSize(c.convert)
  }

  datatype Receiver = Receiver(store: Store, mapping: seq<Slot>)

  ghost predicate GoodReceiver(c: Setup, rc: Receiver)
  {
    && GoodSetup(c) && Sized(c.pvs, c.total, rc.store)
    && |c.names| <= |rc.mapping|
    && forall r | 0 <= r < |rc.mapping| && rc.mapping[r].Known? :: rc.mapping[r].index < |c.names|
  }

  ghost function StoreOne(c: Setup, s: Store, found: Option<nat>, r: Record): (s': Store)
    requires GoodSetup(c) && Sized(c.pvs, c.total, s) && |r.stamp| == STAMP
    requires found.Some? ==> found.value < |c.pvs|
    ensures Sized(c.pvs, c.total, s')
  {
    if found.None? then s
    else
      RegionsInOrder(c.pvs, c.total, found.value, |c.pvs|);
      Update(c.pvs, c.convert, s, found.value, r)
  }

  /** One step's effect: the name is resolved as soon as the header is there, the record is stored
      when all of it is. */
  ghost function Effect(c: Setup, rc: Receiver, o: Outcome<Looked, Record>): (rc': Receiver)
    requires GoodReceiver(c, rc) && Sound(LimitsOf(c), o)
    ensures GoodReceiver(c, rc') && |rc'.mapping| == |rc.mapping|
  {
    if o.looked == [] then rc
    else
      var res := Resolve(c.cmp, c.names, rc.mapping, o.looked[0].index, o.looked[0].name);
      Receiver(if o.Consumed? then StoreOne(c, rc.store, res.found, o.record) else rc.store, res.mapping)
  }

  ghost predicate SoundSteps(c: Setup, step: Stepper<Looked, Record>)
  {
    Shrinks(step) && forall p :: Sound(LimitsOf(c), step(p))
  }

  /** The consume loop: the receiver and the payload after it. */
  ghost function Consume(c: Setup, step: Stepper<Looked, Record>, rc: Receiver, p: seq<Byte>)
      : (r: (Receiver, seq<Byte>))
    requires GoodReceiver(c, rc) && SoundSteps(c, step)
    ensures GoodReceiver(c, r.0) && |r.0.mapping| == |rc.mapping|
    decreases |p|
  {
    var o := step(p);
    var rc' := Effect(c, rc, o);
    if o.Refill? then (rc', o.rest) else Consume(c, step, rc', o.rest)
  }

  /** The consume loop after every piece. */
  ghost function Serve(c: Setup, step: Stepper<Looked, Record>, rc: Receiver, p: seq<Byte>, pieces: seq<seq<Byte>>)
    : (r: (Receiver, seq<Byte>))
    requires GoodReceiver(c, rc) && SoundSteps(c, step)
    ensures GoodReceiver(c, r.0) && |r.0.mapping| == |rc.mapping|
    decreases |pieces|
  {
    if pieces == [] then (rc, p)
    else
      var first := Consume(c, step, rc, p + pieces[0]);
      Serve(c, step, first.0, first.1, pieces[1..])
  }

  // ----- the effect of the records alone

  ghost predicate Stamped(rs: seq<Record>)
  {
    forall k | 0 <= k < |rs| :: |rs[k].stamp| == STAMP
  }

  /** Each record stored where a search for its name leads. */
  ghost function StoreAll(c: Setup, s: Store, rs: seq<Record>): (s': Store)
    requires GoodSetup(c) && Sized(c.pvs, c.total, s) && Stamped(rs)
    ensures Sized(c.pvs, c.total, s')
    decreases |rs|
  {
    if rs == [] then s
    else StoreAll(c, StoreOne(c, s, Find(c.cmp, c.names, rs[0].name), rs[0]), rs[1..])
  }

  lemma {:induction false} StoreAllAppend(c: Setup, s: Store, a: seq<Record>, b: seq<Record>)
    requires GoodSetup(c) && Sized(c.pvs, c.total, s) && Stamped(a) && Stamped(b)
    ensures Stamped(a + b)
    ensures StoreAll(c, s, a + b) == StoreAll(c, StoreAll(c, s, a), b)
    decreases |a|
  {
    if a == [] {
      assert a + b == b;
    } else {
      assert (a + b)[1..] == a[1..] + b;
      StoreAllAppend(c, StoreOne(c, s, Find(c.cmp, c.names, a[0].name), a[0]), a[1..], b);
    }
  }

  /** The name leads to a PV for which the record passes the test although its bounds wrap. */
  ghost predicate Astray(c: Setup, r: Record)
    requires GoodSetup(c)
  {
    var found := Find(c.cmp, c.names, r.name);
    found.Some? && Strays(c.pvs[found.value], r)
  }

  /** Storing the record copies a byte to a place outside the value of the PV it is for. */
  ghost predicate LandsOutside(c: Setup, r: Record, at: nat)
    requires GoodSetup(c)
  {
    var found := Find(c.cmp, c.names, r.name);
    found.Some? && InBounds(c.pvs[found.value], r) && Lands(c.pvs[found.value], r, at)
      && !InValue(c.pvs[found.value], at)
  }

  lemma AstrayExactlyWhen(c: Setup, r: Record)
    requires GoodSetup(c)
    ensures Astray(c, r) <==> exists at: nat :: LandsOutside(c, r, at)
  {
    var found := Find(c.cmp, c.names, r.name);
    if found.Some? && InBounds(c.pvs[found.value], r) {
      var pv := c.pvs[found.value];
      StaysExactlyWhen(pv, r);
      if Astray(c, r) {
        var at: nat :| Lands(pv, r, at) && !InValue(pv, at);
        assert LandsOutside(c, r, at);
      }
    }
  }

  /** Whatever the records, none puts a byte outside the value of its PV exactly when no record that passes
      the test of bounds wraps, and the store remembers it. */
  lemma {:induction false} StraysExactlyWhen(c: Setup, s: Store, rs: seq<Record>)
    requires GoodSetup(c) && Sized(c.pvs, c.total, s) && Stamped(rs)
    ensures (forall k, at: nat | 0 <= k < |rs| :: !LandsOutside(c, rs[k], at)) <==> forall k | 0 <= k < |rs| ::
      !Astray(c, rs[k])
    ensures StoreAll(c, s, rs).strayed <==> s.strayed || exists k, at: nat ::
      0 <= k < |rs| && LandsOutside(c, rs[k], at)
  {
    forall k | 0 <= k < |rs| ensures Astray(c, rs[k]) <==> exists at: nat :: LandsOutside(c, rs[k], at) {
      AstrayExactlyWhen(c, rs[k]);
    }
    Remembers(c, s, rs);
  }

  lemma {:induction false} Remembers(c: Setup, s: Store, rs: seq<Record>)
    requires GoodSetup(c) && Sized(c.pvs, c.total, s) && Stamped(rs)
    ensures StoreAll(c, s, rs).strayed <==> s.strayed || exists k :: 0 <= k < |rs| && Astray(c, rs[k])
    decreases |rs|
  {
    if rs != [] {
      var s1 := StoreOne(c, s, Find(c.cmp, c.names, rs[0].name), rs[0]);
      assert s1.strayed <==> s.strayed || Astray(c, rs[0]);
      Remembers(c, s1, rs[1..]);
      if k :| 0 <= k < |rs[1..]| && Astray(c, rs[1..][k]) { assert Astray(c, rs[k + 1]); }
      if k :| 0 < k < |rs| && Astray(c, rs[k]) { assert Astray(c, rs[1..][k - 1]); }
    }
  }

  /** A sender that keeps its numbering. */
  ghost predicate Numbers(sender: seq<Name>, x: Looked)
  {
    x.index < |sender| && sender[x.index] == x.name
  }

  ghost predicate AllNumbered(sender: seq<Name>, looked: seq<Looked>)
  {
    forall x | x in looked :: Numbers(sender, x)
  }

  lemma EffectFollows(c: Setup, rc: Receiver, o: Outcome<Looked, Record>, sender: seq<Name>)
    requires GoodReceiver(c, rc) && Sound(LimitsOf(c), o)
    requires |sender| <= |c.names| && Agrees(c.cmp, c.names, rc.mapping, sender)
    requires AllNumbered(sender, o.looked)
    ensures var rc' := Effect(c, rc, o);
      && Agrees(c.cmp, c.names, rc'.mapping, sender)
      && rc'.store ==
           if o.Consumed? then StoreOne(c, rc.store, Find(c.cmp, c.names, o.record.name), o.record) else rc.store
  {
    if o.looked != [] {
      assert o.looked[0] in o.looked;
      assert Numbers(sender, o.looked[0]);
    }
  }

  lemma {:induction false} ConsumeFollows(c: Setup, step: Stepper<Looked, Record>, rc: Receiver, p: seq<Byte>,
                                          sender: seq<Name>)
    requires GoodReceiver(c, rc) && SoundSteps(c, step)
    requires |sender| <= |c.names| && Agrees(c.cmp, c.names, rc.mapping, sender)
    requires AllNumbered(sender, Drain(step, p).looked)
    ensures var d, r := Drain(step, p), Consume(c, step, rc, p);
      && Stamped(d.records) && r.1 == d.rest
      && r.0.store == StoreAll(c, rc.store, d.records)
      && Agrees(c.cmp, c.names, r.0.mapping, sender)
    decreases |p|
  {
    var o := step(p);
    EffectFollows(c, rc, o, sender);
    if o.Consumed? {
      var d := Drain(step, o.rest);
      forall x | x in d.looked ensures Numbers(sender, x) {
        assert x in o.looked + d.looked;
      }
      ConsumeFollows(c, step, Effect(c, rc, o), o.rest, sender);
      assert ([o.record] + d.records)[1..] == d.records;
    }
  }

  lemma {:induction false} ServeFollows(c: Setup, step: Stepper<Looked, Record>, rc: Receiver, p: seq<Byte>,
                                        pieces: seq<seq<Byte>>, sender: seq<Name>)
    requires GoodReceiver(c, rc) && SoundSteps(c, step)
    requires |sender| <= |c.names| && Agrees(c.cmp, c.names, rc.mapping, sender)
    requires AllNumbered(sender, Run(step, p, pieces).looked)
    ensures var d, r := Run(step, p, pieces), Serve(c, step, rc, p, pieces);
      && Stamped(d.records) && r.1 == d.rest
      && r.0.store == StoreAll(c, rc.store, d.records)
      && Agrees(c.cmp, c.names, r.0.mapping, sender)
    decreases |pieces|
  {
    if pieces != [] {
      var w := p + pieces[0];
      var first, later := Drain(step, w), Run(step, Drain(step, w).rest, pieces[1..]);
      forall x | x in first.looked || x in later.looked ensures Numbers(sender, x) {
        assert x in first.looked + later.looked;
      }
      ConsumeFollows(c, step, rc, w, sender);
      ServeFollows(c, step, Consume(c, step, rc, w).0, first.rest, pieces[1..], sender);
      StoreAllAppend(c, rc.store, first.records, later.records);
    }
  }
}
