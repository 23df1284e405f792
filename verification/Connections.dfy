/** Several connections served at once. Each has a payload of its own; the store and the cache are shared,
    and locked for one lookup, one entry or one record at a time. Every interleaving is a run. */
module Connections {
  import opened Wrappers
  import opened Bytes
  import opened Records
  import opened Incremental
  import opened DiodeParser
  import opened NameSearch
  import opened ReceiverStore
  import opened Delivery

  /** Where a connection is: it waits for a piece; looks at its payload; has read the cache, which said
      `slot`; or knows where the name leads. `step` is what it found in its payload. */
  datatype Pc =
    | Waiting
    | Scanning
    | Cached(step: Outcome<Looked, Record>, slot: Slot)
    | Resolved(step: Outcome<Looked, Record>, found: Option<nat>)

  datatype Connection = Connection(payload: seq<Byte>, pieces: seq<seq<Byte>>, pc: Pc)

  datatype Entry = Entry(conn: nat, record: Record)

  /** `log` remembers what was stored, by which connection. */
  datatype State = State(rc: Receiver, conns: seq<Connection>, log: seq<Entry>)

  predicate Done(conn: Connection)
  {
    conn.pc.Waiting? && conn.pieces == []
  }

  ghost predicate Enabled(s: State, k: nat)
  {
    k < |s.conns| && !Done(s.conns[k])
  }

  /** What may be assumed where a connection is. */
  ghost predicate GoodPc(c: Setup, step: Stepper<Looked, Record>, conn: Connection)
  {
    match conn.pc
    case Cached(o, slot) => o == step(conn.payload) && o.looked != [] && (slot.Known? ==> slot.index < |c.names|)
    case Resolved(o, found) => o == step(conn.payload) && o.looked != [] && (found.Some? ==> found.value < |c.names|)
    case _ => true
  }

  ghost predicate Good(c: Setup, step: Stepper<Looked, Record>, s: State)
  {
    && GoodReceiver(c, s.rc) && SoundSteps(c, step)
    && forall k | 0 <= k < |s.conns| :: GoodPc(c, step, s.conns[k])
  }

  /** The answer of the lookup: what the cache said, or a search, which is then entered. */
  function Answer(c: Setup, slot: Slot, name: Name): Option<nat>
  {
    if slot.Known? then Some(slot.index) else Find(c.cmp, c.names, name)
  }

  ghost function Entered(c: Setup, rc: Receiver, x: Looked, slot: Slot): (rc': Receiver)
    requires GoodReceiver(c, rc) && x.index < |c.names|
    ensures GoodReceiver(c, rc')
  {
    var found := Find(c.cmp, c.names, x.name);
    if slot.Known? || found.None? then rc else rc.(mapping := rc.mapping[x.index := Known(found.value)])
  }

  ghost function Next(c: Setup, step: Stepper<Looked, Record>, s: State, k: nat): (s': State)
    requires Good(c, step, s) && Enabled(s, k)
  {
    var conn := s.conns[k];
    match conn.pc
    case Waiting =>
      s.(conns := s.conns[k := Connection(conn.payload + conn.pieces[0], conn.pieces[1..], Scanning)])
    case Scanning =>
      var o := step(conn.payload);
      if o.looked == [] then s.(conns := s.conns[k := conn.(payload := o.rest, pc := Waiting)])
      else s.(conns := s.conns[k := conn.(pc := Cached(o, s.rc.mapping[o.looked[0].index]))])
    case Cached(o, slot) =>
      s.(rc := Entered(c, s.rc, o.looked[0], slot),
         conns := s.conns[k := conn.(pc := Resolved(o, Answer(c, slot, o.looked[0].name)))])
    case Resolved(o, found) =>
      if o.Refill? then s.(conns := s.conns[k := conn.(payload := o.rest, pc := Waiting)])
      else
        State(s.rc.(store := StoreOne(c, s.rc.store, found, o.record)),
              s.conns[k := conn.(payload := o.rest, pc := Scanning)], s.log + [Entry(k, o.record)])
  }

  lemma NextGood(c: Setup, step: Stepper<Looked, Record>, s: State, k: nat)
    requires Good(c, step, s) && Enabled(s, k)
    ensures Good(c, step, Next(c, step, s, k)) && |Next(c, step, s, k).conns| == |s.conns|
  {
    assert GoodPc(c, step, s.conns[k]);
    assert Sound(LimitsOf(c), step(s.conns[k].payload));
  }

  // ----- what every step keeps

  /** The records and lookups a connection has still to come. */
  ghost function Left(step: Stepper<Looked, Record>, conn: Connection): Progress<Looked, Record>
    requires Shrinks(step)
  {
    if conn.pc.Waiting? then Run(step, conn.payload, conn.pieces)
    else
      var first := Drain(step, conn.payload);
      var later := Run(step, first.rest, conn.pieces);
      Progress(later.rest, first.looked + later.looked, first.records + later.records)
  }

  function Of(log: seq<Entry>, k: nat): seq<Record>
  {
    if log == [] then []
    else Of(log[..|log| - 1], k) + if log[|log| - 1].conn == k then [log[|log| - 1].record] else []
  }

  function StoredIn(log: seq<Entry>): (rs: seq<Record>)
    ensures |rs| == |log| && forall i | 0 <= i < |log| :: rs[i] == log[i].record
  {
    seq(|log|, i requires 0 <= i < |log| => log[i].record)
  }

  /** What a connection knows is what a fresh search says. */
  ghost predicate Fresh(c: Setup, pc: Pc)
  {
    match pc
    case Cached(o, slot) =>
      o.looked != [] && (slot.Known? ==> Find(c.cmp, c.names, o.looked[0].name) == Some(slot.index))
    case Resolved(o, found) => o.looked != [] && found == Find(c.cmp, c.names, o.looked[0].name)
    case _ => true
  }

  /** The connection has stored a beginning of its records, and the rest is to come. */
  ghost predicate OnTheWay(c: Setup, step: Stepper<Looked, Record>, conn: Connection, sender: seq<Name>,
                           stored: seq<Record>, all: Progress<Looked, Record>)
    requires Shrinks(step)
  {
    && stored + Left(step, conn).records == all.records && Left(step, conn).rest == all.rest
    && AllNumbered(sender, Left(step, conn).looked) && Fresh(c, conn.pc)
  }

  ghost predicate Inv(c: Setup, step: Stepper<Looked, Record>, was: Store, starts: seq<seq<seq<Byte>>>,
                      sender: seq<Name>, s: State)
  {
    && Good(c, step, s) && |s.conns| == |starts| && |sender| <= |c.names|
    && Sized(c.pvs, c.total, was) && Stamped(StoredIn(s.log)) && s.rc.store == StoreAll(c, was, StoredIn(s.log))
    && Agrees(c.cmp, c.names, s.rc.mapping, sender) && (forall i | 0 <= i < |s.log| :: s.log[i].conn < |starts|)
    && forall k | 0 <= k < |starts| ::
         OnTheWay(c, step, s.conns[k], sender, Of(s.log, k), Run(step, [], starts[k]))
  }

  ghost function Start(rc: Receiver, starts: seq<seq<seq<Byte>>>): State
  {
    State(rc, seq(|starts|, k requires 0 <= k < |starts| => Connection([], starts[k], Waiting)), [])
  }

  /** All that the connections will look up is what a sender with this numbering says. */
  ghost predicate AllStartNumbered(step: Stepper<Looked, Record>, starts: seq<seq<seq<Byte>>>, sender: seq<Name>)
    requires Shrinks(step)
  {
    forall k | 0 <= k < |starts| :: AllNumbered(sender, Run(step, [], starts[k]).looked)
  }

  lemma StartInv(c: Setup, step: Stepper<Looked, Record>, rc: Receiver, starts: seq<seq<seq<Byte>>>, sender: seq<Name>)
    requires GoodReceiver(c, rc) && SoundSteps(c, step) && |sender| <= |c.names|
    requires Agrees(c.cmp, c.names, rc.mapping, sender) && AllStartNumbered(step, starts, sender)
    ensures Inv(c, step, rc.store, starts, sender, Start(rc, starts))
  {
    assert StoredIn([]) == [];
  }

  /** One step of one connection: what it leaves to come, and what it has stored more. */
  ghost function StoredBy(step: Stepper<Looked, Record>, conn: Connection): seq<Record>
  {
    if conn.pc.Resolved? && conn.pc.step.Consumed? then [conn.pc.step.record] else []
  }

  lemma StepsOn(c: Setup, step: Stepper<Looked, Record>, s: State, k: nat)
    requires Good(c, step, s) && Enabled(s, k)
    ensures var was, now := s.conns[k], Next(c, step, s, k).conns[k];
      && Left(step, was).records == StoredBy(step, was) + Left(step, now).records
      && Left(step, was).rest == Left(step, now).rest
      && forall x | x in Left(step, now).looked :: x in Left(step, was).looked
  {
    var was, now := s.conns[k], Next(c, step, s, k).conns[k];
    assert GoodPc(c, step, was);
    if was.pc.Waiting? {
      assert Left(step, was) == Left(step, now);
    } else if was.pc.Resolved? {
      DrainsOne(step, was.payload, was.pieces);
    } else {
      DrainsOne(step, was.payload, was.pieces);
    }
  }

  /** The first step of draining a payload. */
  lemma DrainsOne(step: Stepper<Looked, Record>, p: seq<Byte>, pieces: seq<seq<Byte>>)
    requires Shrinks(step)
    ensures var o, all := step(p), Left(step, Connection(p, pieces, Scanning));
      var next := Left(step, Connection(o.rest, pieces, if o.Refill? then Waiting else Scanning));
      && all.rest == next.rest && all.looked == o.looked + next.looked
      && all.records == (if o.Refill? then [] else [o.record]) + next.records
  {
    var o := step(p);
    if o.Consumed? {
      var d := Drain(step, o.rest);
      var later := Run(step, d.rest, pieces);
      assert ([o.record] + d.records) + later.records == [o.record] + (d.records + later.records);
      assert (o.looked + d.looked) + later.looked == o.looked + (d.looked + later.looked);
    }
  }

  lemma {:induction false} LogGrows(log: seq<Entry>, e: Entry, k: nat)
    ensures Of(log + [e], k) == Of(log, k) + if e.conn == k then [e.record] else []
    ensures StoredIn(log + [e]) == StoredIn(log) + [e.record]
  {
    assert (log + [e])[..|log|] == log;
  }

  lemma EnteredAgrees(c: Setup, rc: Receiver, x: Looked, slot: Slot, sender: seq<Name>)
    requires GoodReceiver(c, rc) && x.index < |c.names| && |sender| <= |c.names|
    requires Agrees(c.cmp, c.names, rc.mapping, sender) && Numbers(sender, x)
    requires slot.Known? ==> Find(c.cmp, c.names, x.name) == Some(slot.index)
    ensures Agrees(c.cmp, c.names, Entered(c, rc, x, slot).mapping, sender)
    ensures Answer(c, slot, x.name) == Find(c.cmp, c.names, x.name)
  {
  }

  lemma FirstLookedIsNumbered(c: Setup, step: Stepper<Looked, Record>, conn: Connection, sender: seq<Name>)
    requires SoundSteps(c, step) && !conn.pc.Waiting? && AllNumbered(sender, Left(step, conn).looked)
    ensures var o := step(conn.payload);
      o.looked != [] ==> Numbers(sender, o.looked[0]) && o.looked[0].index < |c.names|
  {
    DrainsOne(step, conn.payload, conn.pieces);
    var o := step(conn.payload);
    assert Sound(LimitsOf(c), o);
    if o.looked != [] { assert o.looked[0] in Left(step, conn).looked; }
  }

  /** The step itself: the cache still agrees, and what the connection knows is what a search says. */
  lemma StaysFresh(c: Setup, step: Stepper<Looked, Record>, s: State, k: nat, sender: seq<Name>)
    requires Good(c, step, s) && Enabled(s, k) && |sender| <= |c.names|
    requires Agrees(c.cmp, c.names, s.rc.mapping, sender)
    requires AllNumbered(sender, Left(step, s.conns[k]).looked) && Fresh(c, s.conns[k].pc)
    ensures var s' := Next(c, step, s, k);
      Agrees(c.cmp, c.names, s'.rc.mapping, sender) && Fresh(c, s'.conns[k].pc)
  {
    var conn := s.conns[k];
    assert GoodPc(c, step, conn);
    if !conn.pc.Waiting? { FirstLookedIsNumbered(c, step, conn, sender); }
    match conn.pc
    case Cached(o, slot) => EnteredAgrees(c, s.rc, o.looked[0], slot, sender);
    case _ =>
  }

  /** And the store: a record is stored where a search for its name leads. */
  lemma {:induction false} StoresOn(c: Setup, step: Stepper<Looked, Record>, was: Store, s: State, k: nat)
    requires Good(c, step, s) && Enabled(s, k) && Fresh(c, s.conns[k].pc)
    requires Sized(c.pvs, c.total, was) && Stamped(StoredIn(s.log)) && s.rc.store == StoreAll(c, was, StoredIn(s.log))
    ensures var s' := Next(c, step, s, k);
      Stamped(StoredIn(s'.log)) && s'.rc.store == StoreAll(c, was, StoredIn(s'.log))
  {
    var conn := s.conns[k];
    assert GoodPc(c, step, conn);
    assert Sound(LimitsOf(c), step(conn.payload));
    if StoredBy(step, conn) != [] {
      var r := conn.pc.step.record;
      LogGrows(s.log, Entry(k, r), k);
      assert Stamped([r]);
      StoreAllAppend(c, was, StoredIn(s.log), [r]);
      assert StoreAll(c, s.rc.store, [r]) == StoreOne(c, s.rc.store, Find(c.cmp, c.names, r.name), r) by {
        assert [r][1..] == [];
      }
    }
  }

  lemma {:induction false} StepLogs(c: Setup, step: Stepper<Looked, Record>, s: State, k: nat, j: nat)
    requires Good(c, step, s) && Enabled(s, k) && j < |s.conns|
    ensures var s' := Next(c, step, s, k);
      && Of(s'.log, j) == Of(s.log, j) + (if j == k then StoredBy(step, s.conns[k]) else [])
      && (forall i | 0 <= i < |s'.log| :: (i < |s.log| && s'.log[i] == s.log[i]) || s'.log[i].conn == k)
      && |s'.conns| == |s.conns| && (j != k ==> s'.conns[j] == s.conns[j])
  {
    if StoredBy(step, s.conns[k]) != [] { LogGrows(s.log, Entry(k, s.conns[k].pc.step.record), j); }
  }

  lemma Regrouped<T>(a: seq<T>, b: seq<T>, c: seq<T>)
    ensures a + (b + c) == a + b + c
  {
  }

  lemma {:induction false} OwnKeepsOn(c: Setup, step: Stepper<Looked, Record>, s: State, k: nat, sender: seq<Name>,
                                      all: Progress<Looked, Record>)
    requires Good(c, step, s) && Enabled(s, k) && |sender| <= |c.names|
    requires Agrees(c.cmp, c.names, s.rc.mapping, sender)
    requires OnTheWay(c, step, s.conns[k], sender, Of(s.log, k), all)
    ensures var s' := Next(c, step, s, k); OnTheWay(c, step, s'.conns[k], sender, Of(s'.log, k), all)
  {
    StepsOn(c, step, s, k);
    StaysFresh(c, step, s, k, sender);
    StepLogs(c, step, s, k, k);
    Regrouped(Of(s.log, k), StoredBy(step, s.conns[k]), Left(step, Next(c, step, s, k).conns[k]).records);
  }

  lemma {:induction false} OtherKeepsOn(c: Setup, step: Stepper<Looked, Record>, s: State, k: nat, sender: seq<Name>,
                                        j: nat, all: Progress<Looked, Record>)
    requires Good(c, step, s) && Enabled(s, k) && j < |s.conns| && j != k
    requires OnTheWay(c, step, s.conns[j], sender, Of(s.log, j), all)
    ensures var s' := Next(c, step, s, k);
      |s'.conns| == |s.conns| && OnTheWay(c, step, s'.conns[j], sender, Of(s'.log, j), all)
  {
    StepLogs(c, step, s, k, j);
    assert Of(s.log, j) + [] == Of(s.log, j);
  }

  lemma StepInv(c: Setup, step: Stepper<Looked, Record>, was: Store, starts: seq<seq<seq<Byte>>>,
                sender: seq<Name>, s: State, k: nat)
    requires Inv(c, step, was, starts, sender, s) && Enabled(s, k)
    ensures Inv(c, step, was, starts, sender, Next(c, step, s, k))
  {
    var s' := Next(c, step, s, k);
    assert OnTheWay(c, step, s.conns[k], sender, Of(s.log, k), Run(step, [], starts[k]));
    NextGood(c, step, s, k);
    StaysFresh(c, step, s, k, sender);
    StoresOn(c, step, was, s, k);
    StepLogs(c, step, s, k, k);
    forall j | 0 <= j < |starts|
      ensures OnTheWay(c, step, s'.conns[j], sender, Of(s'.log, j), Run(step, [], starts[j])) {
      if j == k { OwnKeepsOn(c, step, s, k, sender, Run(step, [], starts[k])); }
      else { OtherKeepsOn(c, step, s, k, sender, j, Run(step, [], starts[j])); }
    }
  }

  // ----- runs

  ghost predicate Feasible(c: Setup, step: Stepper<Looked, Record>, s: State, schedule: seq<nat>)
    requires Good(c, step, s)
    decreases |schedule|
  {
    schedule == [] ||
    (Enabled(s, schedule[0])
     && (NextGood(c, step, s, schedule[0]); Feasible(c, step, Next(c, step, s, schedule[0]), schedule[1..])))
  }

  ghost function After(c: Setup, step: Stepper<Looked, Record>, s: State, schedule: seq<nat>): (r: State)
    requires Good(c, step, s) && Feasible(c, step, s, schedule)
    ensures Good(c, step, r)
    decreases |schedule|
  {
    if schedule == [] then s
    else
      NextGood(c, step, s, schedule[0]);
      After(c, step, Next(c, step, s, schedule[0]), schedule[1..])
  }

  lemma {:induction false} RunInv(c: Setup, step: Stepper<Looked, Record>, was: Store, starts: seq<seq<seq<Byte>>>,
                                  sender: seq<Name>, s: State, schedule: seq<nat>)
    requires Inv(c, step, was, starts, sender, s) && Feasible(c, step, s, schedule)
    ensures Inv(c, step, was, starts, sender, After(c, step, s, schedule))
    decreases |schedule|
  {
    if schedule != [] {
      StepInv(c, step, was, starts, sender, s, schedule[0]);
      RunInv(c, step, was, starts, sender, Next(c, step, s, schedule[0]), schedule[1..]);
    }
  }

  ghost predicate AllDone(s: State)
  {
    forall k | 0 <= k < |s.conns| :: Done(s.conns[k])
  }

  /** In every interleaving, when all connections are done: each has stored exactly the records of its own
      stream, in order; the store is that of the records in the order they were stored, each where a search
      for its name leads; and the cache is still right. */
  lemma {:induction false} EveryInterleaving(c: Setup, step: Stepper<Looked, Record>, rc: Receiver,
                                             starts: seq<seq<seq<Byte>>>, sender: seq<Name>, schedule: seq<nat>)
    requires GoodReceiver(c, rc) && SoundSteps(c, step) && |sender| <= |c.names|
    requires Agrees(c.cmp, c.names, rc.mapping, sender) && AllStartNumbered(step, starts, sender)
    requires Feasible(c, step, Start(rc, starts), schedule) && AllDone(After(c, step, Start(rc, starts), schedule))
    ensures var s := After(c, step, Start(rc, starts), schedule);
      && Stamped(StoredIn(s.log)) && s.rc.store == StoreAll(c, rc.store, StoredIn(s.log))
      && Agrees(c.cmp, c.names, s.rc.mapping, sender) && |s.conns| == |starts|
      && (forall e | e in s.log :: e.conn < |starts|)
      && forall k | 0 <= k < |starts| :: Of(s.log, k) == Run(step, [], starts[k]).records
  {
    StartInv(c, step, rc, starts, sender);
    RunInv(c, step, rc.store, starts, sender, Start(rc, starts), schedule);
    var s := After(c, step, Start(rc, starts), schedule);
    forall k | 0 <= k < |starts| ensures Of(s.log, k) == Run(step, [], starts[k]).records {
      assert Done(s.conns[k]) && OnTheWay(c, step, s.conns[k], sender, Of(s.log, k), Run(step, [], starts[k]));
    }
  }
}
