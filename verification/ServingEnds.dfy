/** That serving several connections at once comes to an end, in every interleaving, and that what was looked up once
    is in the cache from then on. */
module ServingEnds {
  import opened Wrappers
  import opened Bytes
  import opened Records
  import opened Incremental
  import opened DiodeParser
  import NameSearch
  import opened Delivery
  import opened Connections

  // ----- how many steps are left

  function Total(pieces: seq<seq<Byte>>): nat
  {
    if pieces == [] then 0 else |pieces[0]| + 1 + Total(pieces[1..])
  }

  /** How many steps a connection can take at most: four for a byte, and for a piece. */
  function Most(conn: Connection): nat
  {
    4 * (|conn.payload| + Total(conn.pieces))
      + match conn.pc case Waiting => 0 case Scanning => 3 case Cached(_, _) => 2 case Resolved(_, _) => 1
  }

  function MostOfAll(conns: seq<Connection>): nat
  {
    if conns == [] then 0 else MostOfAll(conns[..|conns| - 1]) + Most(conns[|conns| - 1])
  }

  lemma {:induction false} OneChanges(conns: seq<Connection>, k: nat, conn: Connection)
    requires k < |conns|
    ensures MostOfAll(conns[k := conn]) == MostOfAll(conns) - Most(conns[k]) + Most(conn)
    decreases |conns|
  {
    var front := conns[..|conns| - 1];
    if k < |front| {
      OneChanges(front, k, conn);
      assert conns[k := conn][..|conns| - 1] == front[k := conn];
    } else {
      assert conns[k := conn][..|conns| - 1] == front;
    }
  }

  lemma OneLess(c: Setup, step: Stepper<Looked, Record>, s: State, k: nat)
    requires Good(c, step, s) && Enabled(s, k)
    ensures var s' := Next(c, step, s, k);
      && |s'.conns| == |s.conns| && s'.conns == s.conns[k := s'.conns[k]] && Most(s'.conns[k]) < Most(s.conns[k])
  {
    assert GoodPc(c, step, s.conns[k]);
    assert Sound(LimitsOf(c), step(s.conns[k].payload));
  }

  /** No schedule is longer than that. */
  lemma {:induction false} EveryScheduleEnds(c: Setup, step: Stepper<Looked, Record>, s: State, schedule: seq<nat>)
    requires Good(c, step, s) && Feasible(c, step, s, schedule)
    ensures |schedule| + MostOfAll(After(c, step, s, schedule).conns) <= MostOfAll(s.conns)
    decreases |schedule|
  {
    if schedule != [] {
      var k := schedule[0];
      NextGood(c, step, s, k);
      OneLess(c, step, s, k);
      OneChanges(s.conns, k, Next(c, step, s, k).conns[k]);
      EveryScheduleEnds(c, step, Next(c, step, s, k), schedule[1..]);
    }
  }

  /** Whatever has been done so far, serving can go on until all connections are done. */
  lemma {:induction false} CanBeDone(c: Setup, step: Stepper<Looked, Record>, s: State) returns (schedule: seq<nat>)
    requires Good(c, step, s)
    ensures Feasible(c, step, s, schedule) && AllDone(After(c, step, s, schedule))
    decreases MostOfAll(s.conns)
  {
    schedule := [];
    if !AllDone(s) {
      var k :| 0 <= k < |s.conns| && !Done(s.conns[k]);
      NextGood(c, step, s, k);
      OneLess(c, step, s, k);
      OneChanges(s.conns, k, Next(c, step, s, k).conns[k]);
      var later := CanBeDone(c, step, Next(c, step, s, k));
      assert ([k] + later)[1..] == later;
      schedule := [k] + later;
    }
  }

  // ----- what the cache keeps

  /** A connection that knows where its name leads has that index in the cache. */
  ghost predicate Remembered(s: State)
  {
    forall k | 0 <= k < |s.conns| :: RemembersOne(s.rc.mapping, s.conns[k].pc)
  }

  predicate RemembersOne(mapping: seq<NameSearch.Slot>, pc: Pc)
  {
    match pc
    case Cached(o, slot) =>
      slot.Known? && o.looked != [] ==> o.looked[0].index < |mapping| && mapping[o.looked[0].index].Known?
    case Resolved(o, found) =>
      found.Some? && o.looked != [] ==> o.looked[0].index < |mapping| && mapping[o.looked[0].index].Known?
    case _ => true
  }

  ghost predicate OnlyMore(was: seq<NameSearch.Slot>, now: seq<NameSearch.Slot>)
  {
    |now| == |was| && forall i | 0 <= i < |was| && was[i].Known? :: now[i].Known?
  }

  lemma StepRemembers(c: Setup, step: Stepper<Looked, Record>, s: State, k: nat)
    requires Good(c, step, s) && Enabled(s, k) && Remembered(s)
    ensures Remembered(Next(c, step, s, k)) && OnlyMore(s.rc.mapping, Next(c, step, s, k).rc.mapping)
  {
    var s' := Next(c, step, s, k);
    assert GoodPc(c, step, s.conns[k]) && RemembersOne(s.rc.mapping, s.conns[k].pc);
    assert Sound(LimitsOf(c), step(s.conns[k].payload));
    forall j | 0 <= j < |s'.conns| ensures RemembersOne(s'.rc.mapping, s'.conns[j].pc) {
      if j != k { assert s'.conns[j] == s.conns[j] && RemembersOne(s.rc.mapping, s.conns[j].pc); }
    }
  }

  /** In every interleaving an index whose lookup has led to a PV is in the cache from then on, and is not searched
      for again. */
  lemma {:induction false} RunRemembers(c: Setup, step: Stepper<Looked, Record>, s: State, schedule: seq<nat>)
    requires Good(c, step, s) && Feasible(c, step, s, schedule) && Remembered(s)
    ensures var r := After(c, step, s, schedule); Remembered(r) && OnlyMore(s.rc.mapping, r.rc.mapping)
    decreases |schedule|
  {
    if schedule != [] {
      NextGood(c, step, s, schedule[0]);
      StepRemembers(c, step, s, schedule[0]);
      RunRemembers(c, step, Next(c, step, s, schedule[0]), schedule[1..]);
    }
  }
}
