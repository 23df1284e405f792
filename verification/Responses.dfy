/** The Channel Access client's view of the server's byte stream: messages with a short or an extended
    header, the response each one is, and the ones too large for any buffer. */
module Responses {
  import opened Bytes
  import opened CaProtocol
  import opened Framing

  /** What the reader goes by: the size of its body buffer, the responses executed so far and what they
      made of the rest of the client, and whether the circuit is still up. */
  datatype Mode<H> = Mode(dataMax: nat, log: seq<Message>, handler: H, alive: bool)

  /** `small` is the size of the first buffer, `large` of the one that may replace it; `execute` is
      what the client does with a response, and whether it accepts it. */
  datatype Setting<!H> = Setting(small: nat, large: nat, execute: (H, Header, seq<Byte>) -> (H, bool))

  /** The buffer for a body of this size: the large one, if the small one is in use and too small. */
  function Buffer<H>(c: Setting<H>, dataMax: nat, size: nat): nat
  {
    if size > dataMax && dataMax == c.small && c.large >= size then c.large else dataMax
  }

  /** A message: executed if its body fits the buffer, skipped if it does not. */
  function Execute<H>(c: Setting<H>, m: Mode<H>, h: Header, body: seq<Byte>): Mode<H>
  {
    var max := Buffer(c, m.dataMax, h.size);
    if h.size > max then m.(dataMax := max)
    else
      var r := c.execute(m.handler, h, body);
      Mode(max, m.log + [Message(h, body)], r.0, r.1)
  }

  function Next<H>(c: Setting<H>, m: Mode<H>, p: seq<Byte>): (r: Move<Mode<H>>)
    ensures r.Take? ==> 0 < r.size <= |p|
  {
    var f := FindHeader(true, p);
    if !m.alive || f.NotYet? then Wait
    else if f.header.size % 8 != 0 then Take(f.length, m.(alive := false))
    else if |p| < f.length + f.header.size then Wait
    else Take(f.length + f.header.size, Execute(c, m, f.header, p[f.length..f.length + f.header.size]))
  }

  function Reading<H>(c: Setting<H>): Machine<Mode<H>>
  {
    (m, p) => Next(c, m, p)
  }

  lemma NextStays<H>(c: Setting<H>, m: Mode<H>, p: seq<Byte>, q: seq<Byte>)
    requires Next(c, m, p).Take? && p <= q
    ensures Next(c, m, q) == Next(c, m, p)
  {
    HeaderStays(true, p, q);
    var f := FindHeader(true, p);
    if f.header.size % 8 == 0 {
      assert q[f.length..f.length + f.header.size] == p[f.length..f.length + f.header.size];
    }
  }

  lemma ReadingIsStable<H(!new)>(c: Setting<H>)
    ensures Stable(Reading(c))
  {
    var f := Reading(c);
    forall m, p, q | f(m, p).Take? && p <= q ensures f(m, q) == f(m, p) {
      NextStays(c, m, p, q);
    }
  }

  // ----- what a server writes

  /** Responses one by one, until one is not accepted. */
  function ExecuteAll<H>(c: Setting<H>, m: Mode<H>, rs: seq<Message>): Mode<H>
    decreases |rs|
  {
    if rs == [] || !m.alive then m else ExecuteAll(c, Execute(c, m, rs[0].header, rs[0].body), rs[1..])
  }

  /** The reader executes exactly the responses that were written, in order, whatever headers they were
      written with, and whatever pieces their bytes arrive in. */
  lemma {:induction false} ExecutesWhatWasWritten<H(!new)>(c: Setting<H>, m: Mode<H>, rs: seq<Message>,
                                                           extended: seq<bool>, pieces: seq<seq<Byte>>)
    requires GoodMessages(rs, extended) && Flatten(pieces) == Wire(rs, extended)
    ensures Stable(Reading(c))
    ensures Served(Reading(c), m, [], pieces).0 == ExecuteAll(c, m, rs)
    ensures m.alive ==> ExecutedFitting(c, m, Served(Reading(c), m, [], pieces).0, rs)
  {
    if m.alive { ExecutesExactlyTheFitting(c, m, rs); }
    assert Flatten(pieces) == Wire(rs, extended) + [];
    ReadsWire(c, m, rs, extended, [], pieces);
    SettleNone(Reading(c), ExecuteAll(c, m, rs));
  }

  lemma TakesFirst<H>(c: Setting<H>, m: Mode<H>, r: Message, extended: bool, rest: seq<Byte>)
    requires GoodMessage(r, extended) && m.alive
    ensures var e := Encoded(r, extended);
      && Next(c, m, e + rest) == Take(|e|, Execute(c, m, r.header, r.body))
      && (e + rest)[|e|..] == rest
  {
    FindsEncoded(true, r, extended, rest);
  }

  lemma {:induction false} SettlesWire<H(!new)>(c: Setting<H>, m: Mode<H>, rs: seq<Message>, extended: seq<bool>,
                                                later: seq<Byte>)
    requires GoodMessages(rs, extended) && Stable(Reading(c))
    ensures Settle(Reading(c), m, Wire(rs, extended) + later).0 == Settle(Reading(c), ExecuteAll(c, m, rs), later).0
    decreases |rs|
  {
    if rs == [] {
      assert Wire(rs, extended) + later == later;
    } else if m.alive {
      var r, rest := rs[0], Wire(rs[1..], extended[1..]) + later;
      FirstAhead(rs, extended, later);
      TakesFirst(c, m, r, extended[0], rest);
      var now, e := Execute(c, m, r.header, r.body), Encoded(r, extended[0]);
      SettleOne(Reading(c), m, e + rest, |e|, now);
      SettlesWire(c, now, rs[1..], extended[1..], later);
    }
  }

  lemma ReadsWire<H(!new)>(c: Setting<H>, m: Mode<H>, rs: seq<Message>, extended: seq<bool>, later: seq<Byte>,
                           pieces: seq<seq<Byte>>)
    requires GoodMessages(rs, extended)
    requires Flatten(pieces) == Wire(rs, extended) + later
    ensures Stable(Reading(c))
    ensures Served(Reading(c), m, [], pieces).0 == Settle(Reading(c), ExecuteAll(c, m, rs), later).0
  {
    ReadingIsStable(c);
    CutIndependent(Reading(c), m, [], pieces);
    assert [] + Flatten(pieces) == Wire(rs, extended) + later;
    SettlesWire(c, m, rs, extended, later);
  }

  /** The largest body that will ever be executed: what the buffer is, or may yet become. */
  function Limit<H>(c: Setting<H>, dataMax: nat): nat
  {
    if dataMax == c.small && c.large > c.small then c.large else dataMax
  }

  function Fitting(rs: seq<Message>, limit: nat): seq<Message>
  {
    if rs == [] then [] else (if rs[0].header.size <= limit then [rs[0]] else []) + Fitting(rs[1..], limit)
  }

  /** The client's responses to these messages, one after the other, each to a message's own header and body,
      until one is not accepted: what it is left with, whether all were accepted, and to how many it responded. */
  function Answered<H>(c: Setting<H>, handler: H, ms: seq<Message>): (a: (H, bool, nat))
    ensures a.2 <= |ms|
    decreases |ms|
  {
    if ms == [] then (handler, true, 0)
    else
      var r := c.execute(handler, ms[0].header, ms[0].body);
      if !r.1 then (r.0, false, 1)
      else
        var later := Answered(c, r.0, ms[1..]);
        (later.0, later.1, 1 + later.2)
  }

  /** What was executed are the responses whose body fits the larger buffer, up to the first that is not
      accepted, and nothing else. */
  ghost predicate ExecutedFitting<H(!new)>(c: Setting<H>, was: Mode<H>, now: Mode<H>, rs: seq<Message>)
  {
    var ms := Fitting(rs, Limit(c, was.dataMax));
    var a := Answered(c, was.handler, ms);
    && now.log == was.log + ms[..a.2] && now.handler == a.0 && now.alive == a.1 && (a.1 ==> a.2 == |ms|)
  }

  lemma {:induction false} ExecutesExactlyTheFitting<H(!new)>(c: Setting<H>, m: Mode<H>, rs: seq<Message>)
    requires m.alive
    ensures ExecutedFitting(c, m, ExecuteAll(c, m, rs), rs)
    decreases |rs|
  {
    if rs != [] {
      var m' := Execute(c, m, rs[0].header, rs[0].body);
      OneExecuted(c, m, rs[0]);
      var later := Fitting(rs[1..], Limit(c, m.dataMax));
      if m'.alive {
        ExecutesExactlyTheFitting(c, m', rs[1..]);
        if rs[0].header.size <= Limit(c, m.dataMax) {
          FirstAnswered(c, m.handler, rs[0], later);
          JoinsTo(m.log, [rs[0]], later[..Answered(c, m'.handler, later).2]);
        } else {
          assert [] + later == later;
        }
      } else {
        FirstAnswered(c, m.handler, rs[0], later);
      }
    }
  }

  lemma FirstAnswered<H>(c: Setting<H>, handler: H, first: Message, later: seq<Message>)
    ensures var r, ms := c.execute(handler, first.header, first.body), [first] + later;
      if r.1 then
        var a := Answered(c, r.0, later);
        Answered(c, handler, ms) == (a.0, a.1, 1 + a.2) && ms[..1 + a.2] == [first] + later[..a.2]
      else Answered(c, handler, ms) == (r.0, false, 1) && ms[..1] == [first]
  {
    assert ([first] + later)[1..] == later;
  }

  lemma OneExecuted<H(!new)>(c: Setting<H>, m: Mode<H>, r: Message)
    requires m.alive
    ensures var m', fits := Execute(c, m, r.header, r.body), r.header.size <= Limit(c, m.dataMax);
      && Limit(c, m'.dataMax) == Limit(c, m.dataMax)
      && if fits then
           var e := c.execute(m.handler, r.header, r.body);
           m'.log == m.log + [r] && m'.handler == e.0 && m'.alive == e.1
         else m'.log == m.log && m'.handler == m.handler && m'.alive
  {
  }

  /** If the client accepts all responses, it executes exactly those whose body fits the larger of its
      buffers, once each and in order, whichever buffer is in use. */
  lemma {:induction false} SkipsTheOversized<H(!new)>(c: Setting<H>, m: Mode<H>, rs: seq<Message>)
    requires m.alive && forall h, hd, b :: c.execute(h, hd, b).1
    ensures ExecuteAll(c, m, rs).log == m.log + Fitting(rs, Limit(c, m.dataMax))
    decreases |rs|
  {
    if rs != [] {
      LimitStays(c, m, rs[0]);
      SkipsTheOversized(c, Execute(c, m, rs[0].header, rs[0].body), rs[1..]);
      var first := if rs[0].header.size <= Limit(c, m.dataMax) then [rs[0]] else [];
      JoinsTo(m.log, first, Fitting(rs[1..], Limit(c, m.dataMax)));
    }
  }

  lemma {:induction false} LargeStays<H(!new)>(c: Setting<H>, m: Mode<H>, rs: seq<Message>)
    requires m.dataMax == c.large > c.small
    ensures ExecuteAll(c, m, rs).dataMax == c.large
    decreases |rs|
  {
    if rs != [] && m.alive { LargeStays(c, Execute(c, m, rs[0].header, rs[0].body), rs[1..]); }
  }

  /** The large buffer replaces the small one exactly when one of the responses needs it and fits it. */
  lemma {:induction false} LargeExactlyWhen<H(!new)>(c: Setting<H>, m: Mode<H>, rs: seq<Message>)
    requires m.alive && m.dataMax == c.small && forall h, hd, b :: c.execute(h, hd, b).1
    ensures var needed := exists i :: 0 <= i < |rs| && c.small < rs[i].header.size <= c.large;
      ExecuteAll(c, m, rs).dataMax == if needed then c.large else c.small
    decreases |rs|
  {
    if rs != [] {
      var m' := Execute(c, m, rs[0].header, rs[0].body);
      LimitStays(c, m, rs[0]);
      if c.small < rs[0].header.size <= c.large {
        LargeStays(c, m', rs[1..]);
      } else {
        LargeExactlyWhen(c, m', rs[1..]);
        assert forall i | 1 <= i < |rs| :: rs[i] == rs[1..][i - 1];
      }
    }
  }

  lemma LimitStays<H(!new)>(c: Setting<H>, m: Mode<H>, r: Message)
    requires forall h, hd, b :: c.execute(h, hd, b).1
    ensures var m' := Execute(c, m, r.header, r.body);
      && (m.alive ==> m'.alive) && Limit(c, m'.dataMax) == Limit(c, m.dataMax)
      && m'.log == m.log + if r.header.size <= Limit(c, m.dataMax) then [r] else []
  {
  }

  lemma MisalignedIs<H>(c: Setting<H>, m: Mode<H>, r: Message, extended: bool, later: seq<Byte>)
    requires extended || (r.header.size < EXTENDED as int && r.header.count < 0x1_0000)
    requires m.alive && r.header.size % 8 != 0
    ensures Next(c, m, Encoded(r, extended) + later) == Take(HeaderLength(extended), m.(alive := false))
  {
    HeaderComesBack(true, r, extended, later);
  }

  lemma MisalignedSettles<H(!new)>(c: Setting<H>, m: Mode<H>, r: Message, extended: bool, later: seq<Byte>)
    requires (extended || (r.header.size < EXTENDED as int && r.header.count < 0x1_0000))
    requires r.header.size % 8 != 0 && Stable(Reading(c))
    ensures Settle(Reading(c), m, Encoded(r, extended) + later).0 == m.(alive := false)
  {
    if m.alive {
      var p := Encoded(r, extended) + later;
      MisalignedIs(c, m, r, extended, later);
      var n := Reading(c)(m, p).size;
      SettleOne(Reading(c), m, p, n, m.(alive := false));
    }
  }

  /** A response whose size is no multiple of 8 is never executed: the circuit goes down, and nothing after it
      counts, whatever the cut of the bytes. */
  lemma {:induction false} MisalignedEnds<H(!new)>(c: Setting<H>, m: Mode<H>, rs: seq<Message>, extended: seq<bool>,
                                                   r: Message, e: bool, later: seq<Byte>, pieces: seq<seq<Byte>>)
    requires GoodMessages(rs, extended)
    requires (e || (r.header.size < EXTENDED as int && r.header.count < 0x1_0000)) && r.header.size % 8 != 0
    requires Flatten(pieces) == Wire(rs, extended) + (Encoded(r, e) + later)
    ensures Stable(Reading(c))
    ensures Served(Reading(c), m, [], pieces).0 == ExecuteAll(c, m, rs).(alive := false)
  {
    ReadsWire(c, m, rs, extended, Encoded(r, e) + later, pieces);
    MisalignedSettles(c, ExecuteAll(c, m, rs), r, e, later);
  }
}
