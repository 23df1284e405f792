/** The Channel Access server's view of a client's byte stream: requests dispatched one by one, and
    those too large for the receive buffer thrown away. */
module Requests {
  import opened Bytes
  import opened CaProtocol
  import opened Framing

  /** Whether the client may use the annex (which its own version request decides), the size of the
      receive buffer, the requests dispatched so far, what they made of the rest of the server, and
      whether the client is still served. */
  datatype Mode<H> = Mode(v49: bool, capacity: nat, log: seq<Message>, handler: H, alive: bool)

  datatype Verdict<H> = Verdict(handler: H, v49: bool, ok: bool)

  /** `expand` is what the buffer's capacity becomes when a message of the size given does not fit;
      `dispatch` what the request handlers do. */
  datatype Setting<!H> = Setting(expand: (nat, nat) -> nat, dispatch: (H, bool, Header, seq<Byte>) -> Verdict<H>)

  ghost predicate Grows<H>(c: Setting<H>)
  {
    forall capacity, size :: c.expand(capacity, size) >= capacity
  }

  function Capacity<H>(c: Setting<H>, capacity: nat, size: nat): nat
  {
    if size > capacity then c.expand(capacity, size) else capacity
  }

  /** A whole message: dispatched if it fits the buffer, otherwise gone. */
  function Dispatch<H>(c: Setting<H>, m: Mode<H>, h: Header, size: nat, body: seq<Byte>): Mode<H>
  {
    var capacity := Capacity(c, m.capacity, size);
    if size > capacity then m.(capacity := capacity)
    else
      var r := c.dispatch(m.handler, m.v49, h, body);
      Mode(r.v49, capacity, m.log + [Message(h, body)], r.handler, r.ok)
  }

  function Next<H>(c: Setting<H>, m: Mode<H>, p: seq<Byte>): (r: Move<Mode<H>>)
    ensures r.Take? ==> 0 < r.size <= |p|
  {
    var f := FindHeader(m.v49, p);
    if !m.alive || f.NotYet? then Wait
    else
      var size := f.length + f.header.size;
      if size % 8 != 0 then Take(f.length, m.(alive := false))
      else if |p| < size then Wait
      else Take(size, Dispatch(c, m, f.header, size, p[f.length..size]))
  }

  function Serving<H>(c: Setting<H>): Machine<Mode<H>>
  {
    (m, p) => Next(c, m, p)
  }

  lemma NextStays<H>(c: Setting<H>, m: Mode<H>, p: seq<Byte>, q: seq<Byte>)
    requires Next(c, m, p).Take? && p <= q
    ensures Next(c, m, q) == Next(c, m, p)
  {
    HeaderStays(m.v49, p, q);
    var f := FindHeader(m.v49, p);
    var size := f.length + f.header.size;
    if size % 8 == 0 {
      assert q[f.length..size] == p[f.length..size];
    }
  }

  lemma ServingIsStable<H(!new)>(c: Setting<H>)
    ensures Stable(Serving(c))
  {
    var f := Serving(c);
    forall m, p, q | f(m, p).Take? && p <= q ensures f(m, q) == f(m, p) {
      NextStays(c, m, p, q);
    }
  }

  // ----- what a client writes

  /** Requests one by one, until one is refused; `extended` says which carry the annex. */
  function DispatchAll<H>(c: Setting<H>, m: Mode<H>, rs: seq<Message>, extended: seq<bool>): Mode<H>
    requires |rs| == |extended|
    decreases |rs|
  {
    if rs == [] || !m.alive then m
    else DispatchAll(c, Dispatch(c, m, rs[0].header, HeaderLength(extended[0]) + |rs[0].body|, rs[0].body), rs[1..],
      extended[1..])
  }

  /** The client uses the annex only while the server reads it. */
  ghost predicate Understood<H>(c: Setting<H>, m: Mode<H>, rs: seq<Message>, extended: seq<bool>)
    requires |rs| == |extended|
    decreases |rs|
  {
    rs == [] || !m.alive ||
    ((extended[0] ==> m.v49) &&
     Understood(c, Dispatch(c, m, rs[0].header, HeaderLength(extended[0]) + |rs[0].body|, rs[0].body), rs[1..],
       extended[1..]))
  }

  lemma TakesFirst<H>(c: Setting<H>, m: Mode<H>, r: Message, extended: bool, rest: seq<Byte>)
    requires GoodMessage(r, extended) && (extended ==> m.v49) && m.alive
    ensures var e := Encoded(r, extended);
      && Next(c, m, e + rest) == Take(|e|, Dispatch(c, m, r.header, HeaderLength(extended) + |r.body|, r.body))
      && (e + rest)[|e|..] == rest
  {
    var e := Encoded(r, extended);
    FindsEncoded(m.v49, r, extended, rest);
    SameAlignment(r.header.size, extended);
    NextIs(c, m, e + rest, r.header, HeaderLength(extended), r.body);
    Past(e, rest);
  }

  lemma SameAlignment(size: nat, extended: bool)
    ensures (HeaderLength(extended) + size) % 8 == size % 8
  {
  }

  lemma NextIs<H>(c: Setting<H>, m: Mode<H>, p: seq<Byte>, h: Header, length: nat, body: seq<Byte>)
    requires m.alive && FindHeader(m.v49, p) == Found(h, length) && |body| == h.size
    requires (length + h.size) % 8 == 0 && length + h.size <= |p| && p[length..length + h.size] == body
    ensures Next(c, m, p) == Take(length + h.size, Dispatch(c, m, h, length + |body|, body))
  {
  }

  lemma {:induction false} SettlesWire<H(!new)>(c: Setting<H>, m: Mode<H>, rs: seq<Message>, extended: seq<bool>,
                                                later: seq<Byte>)
    requires GoodMessages(rs, extended) && Understood(c, m, rs, extended) && Stable(Serving(c))
    ensures Settle(Serving(c), m, Wire(rs, extended) + later).0
      == Settle(Serving(c), DispatchAll(c, m, rs, extended), later).0
    decreases |rs|
  {
    if rs == [] {
      assert Wire(rs, extended) + later == later;
    } else if m.alive {
      var r, rest := rs[0], Wire(rs[1..], extended[1..]) + later;
      FirstAhead(rs, extended, later);
      TakesFirst(c, m, r, extended[0], rest);
      var now, e := Dispatch(c, m, r.header, HeaderLength(extended[0]) + |r.body|, r.body), Encoded(r, extended[0]);
      SettleOne(Serving(c), m, e + rest, |e|, now);
      SettlesWire(c, now, rs[1..], extended[1..], later);
    }
  }

  lemma ServesWire<H(!new)>(c: Setting<H>, m: Mode<H>, rs: seq<Message>, extended: seq<bool>, later: seq<Byte>,
                            pieces: seq<seq<Byte>>)
    requires GoodMessages(rs, extended) && Understood(c, m, rs, extended)
    requires Flatten(pieces) == Wire(rs, extended) + later
    ensures Stable(Serving(c))
    ensures Served(Serving(c), m, [], pieces).0 == Settle(Serving(c), DispatchAll(c, m, rs, extended), later).0
  {
    ServingIsStable(c);
    CutIndependent(Serving(c), m, [], pieces);
    assert [] + Flatten(pieces) == Wire(rs, extended) + later;
    SettlesWire(c, m, rs, extended, later);
  }

  /** The requests that fit the receive buffer, header and body, as it has grown by then for them and for
      those before. */
  function Fitting<H>(c: Setting<H>, capacity: nat, rs: seq<Message>, extended: seq<bool>): seq<Message>
    requires |rs| == |extended|
    decreases |rs|
  {
    if rs == [] then []
    else
      var size := HeaderLength(extended[0]) + |rs[0].body|;
      var grown := if size > capacity then c.expand(capacity, size) else capacity;
      (if size <= grown then [rs[0]] else []) + Fitting(c, grown, rs[1..], extended[1..])
  }

  /** The handlers of these requests, one after the other, each with its own header and body, until one
      refuses: what they leave, and how many were called. */
  function Handled<H>(c: Setting<H>, handler: H, v49: bool, ms: seq<Message>): (r: (Verdict<H>, nat))
    ensures r.1 <= |ms|
    decreases |ms|
  {
    if ms == [] then (Verdict(handler, v49, true), 0)
    else
      var r := c.dispatch(handler, v49, ms[0].header, ms[0].body);
      if !r.ok then (r, 1)
      else
        var later := Handled(c, r.handler, r.v49, ms[1..]);
        (later.0, 1 + later.1)
  }

  /** What was dispatched are the requests that fit, up to the first that is refused, and nothing else. */
  ghost predicate DispatchedFitting<H(!new)>(c: Setting<H>, was: Mode<H>, now: Mode<H>, rs: seq<Message>,
                                             extended: seq<bool>)
    requires |rs| == |extended|
  {
    var ms := Fitting(c, was.capacity, rs, extended);
    var h := Handled(c, was.handler, was.v49, ms);
    && now.log == was.log + ms[..h.1] && Verdict(now.handler, now.v49, now.alive) == h.0
    && (now.alive ==> h.1 == |ms|)
  }

  lemma {:induction false} DispatchesExactlyTheFitting<H(!new)>(c: Setting<H>, m: Mode<H>, rs: seq<Message>,
                                                                extended: seq<bool>)
    requires m.alive && |rs| == |extended|
    ensures DispatchedFitting(c, m, DispatchAll(c, m, rs, extended), rs, extended)
    decreases |rs|
  {
    if rs != [] {
      var size := HeaderLength(extended[0]) + |rs[0].body|;
      var m' := Dispatch(c, m, rs[0].header, size, rs[0].body);
      var grown := if size > m.capacity then c.expand(m.capacity, size) else m.capacity;
      var later := Fitting(c, grown, rs[1..], extended[1..]);
      assert rs[0] == Message(rs[0].header, rs[0].body);
      if m'.alive {
        DispatchesExactlyTheFitting(c, m', rs[1..], extended[1..]);
        if size <= grown {
          FirstHandled(c, m.handler, m.v49, rs[0], later);
          JoinsTo(m.log, [rs[0]], later[..Handled(c, m'.handler, m'.v49, later).1]);
        } else {
          assert [] + later == later;
        }
      } else {
        FirstHandled(c, m.handler, m.v49, rs[0], later);
      }
    }
  }

  lemma FirstHandled<H>(c: Setting<H>, handler: H, v49: bool, first: Message, later: seq<Message>)
    ensures var r, ms := c.dispatch(handler, v49, first.header, first.body), [first] + later;
      if r.ok then
        var h := Handled(c, r.handler, r.v49, later);
        Handled(c, handler, v49, ms) == (h.0, 1 + h.1) && ms[..1 + h.1] == [first] + later[..h.1]
      else Handled(c, handler, v49, ms) == (r, 1) && ms[..1] == [first]
  {
    assert ([first] + later)[1..] == later;
  }

  /** Every request that fits is dispatched exactly once and in order, whatever the cut of the bytes. */
  lemma {:induction false} DispatchesWhatWasWritten<H(!new)>(c: Setting<H>, m: Mode<H>, rs: seq<Message>,
                                                             extended: seq<bool>, pieces: seq<seq<Byte>>)
    requires GoodMessages(rs, extended) && Understood(c, m, rs, extended) && Flatten(pieces) == Wire(rs, extended)
    ensures Stable(Serving(c))
    ensures Served(Serving(c), m, [], pieces).0 == DispatchAll(c, m, rs, extended)
    ensures m.alive ==> DispatchedFitting(c, m, Served(Serving(c), m, [], pieces).0, rs, extended)
  {
    if m.alive { DispatchesExactlyTheFitting(c, m, rs, extended); }
    assert Flatten(pieces) == Wire(rs, extended) + [];
    ServesWire(c, m, rs, extended, [], pieces);
    SettleNone(Serving(c), DispatchAll(c, m, rs, extended));
  }

  lemma MisalignedIs<H>(c: Setting<H>, m: Mode<H>, r: Message, extended: bool, later: seq<Byte>)
    requires (extended || (r.header.size < EXTENDED as int && r.header.count < 0x1_0000)) && (extended ==> m.v49)
    requires m.alive && r.header.size % 8 != 0
    ensures Next(c, m, Encoded(r, extended) + later) == Take(HeaderLength(extended), m.(alive := false))
  {
    HeaderComesBack(m.v49, r, extended, later);
    SameAlignment(r.header.size, extended);
  }

  lemma MisalignedSettles<H(!new)>(c: Setting<H>, m: Mode<H>, r: Message, extended: bool, later: seq<Byte>)
    requires (extended || (r.header.size < EXTENDED as int && r.header.count < 0x1_0000)) && (extended ==> m.v49)
    requires r.header.size % 8 != 0 && Stable(Serving(c))
    ensures Settle(Serving(c), m, Encoded(r, extended) + later).0 == m.(alive := false)
  {
    if m.alive {
      var p := Encoded(r, extended) + later;
      MisalignedIs(c, m, r, extended, later);
      var n := Serving(c)(m, p).size;
      SettleOne(Serving(c), m, p, n, m.(alive := false));
    }
  }

  /** A request whose size is no multiple of 8 is never dispatched: the client is served no more, and nothing
      after it counts, whatever the cut of the bytes. */
  lemma {:induction false} MisalignedEnds<H(!new)>(c: Setting<H>, m: Mode<H>, rs: seq<Message>, extended: seq<bool>,
                                                   r: Message, e: bool, later: seq<Byte>, pieces: seq<seq<Byte>>)
    requires GoodMessages(rs, extended) && Understood(c, m, rs, extended)
    requires (e || (r.header.size < EXTENDED as int && r.header.count < 0x1_0000)) && r.header.size % 8 != 0
    requires e ==> DispatchAll(c, m, rs, extended).v49
    requires Flatten(pieces) == Wire(rs, extended) + (Encoded(r, e) + later)
    ensures Stable(Serving(c))
    ensures Served(Serving(c), m, [], pieces).0 == DispatchAll(c, m, rs, extended).(alive := false)
  {
    ServesWire(c, m, rs, extended, Encoded(r, e) + later, pieces);
    MisalignedSettles(c, DispatchAll(c, m, rs, extended), r, e, later);
  }
}
