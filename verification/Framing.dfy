/** Framing in general: a machine that takes a whole message off the head of the bytes it has, or
    waits for more. What the messages look like, and how taking one changes the machine's mode, is
    left open; the mode also says how the next message is to be read. */
module Framing {
  import opened Bytes

  datatype Move<M> = Wait | Take(size: nat, mode: M)

  type Machine<!M> = (M, seq<Byte>) -> Move<M>

  /** One move of a machine: a message is gone, or nothing is, or the message taken ends it all. */
  ghost predicate Took<M(!new)>(n: Move<M>, was: (M, seq<Byte>), now: (M, seq<Byte>))
  {
    n.Take? && n.size <= |was.1| && now == (n.mode, was.1[n.size..])
  }

  ghost predicate Stayed<M(!new)>(n: Move<M>, was: (M, seq<Byte>), now: (M, seq<Byte>))
  {
    n.Wait? && now == was
  }

  ghost predicate Failed<M(!new)>(n: Move<M>, now: M, alive: bool)
  {
    n.Take? && now == n.mode && !alive
  }

  /** A message is taken for what it is, whatever follows it. */
  ghost predicate Stable<M(!new)>(f: Machine<M>)
  {
    && (forall m, p | f(m, p).Take? :: 0 < f(m, p).size <= |p|)
    && (forall m, p, q | f(m, p).Take? && p <= q :: f(m, q) == f(m, p))
  }

  /** Takes messages until the machine waits: the mode and the bytes then. */
  ghost function Settle<M(!new)>(f: Machine<M>, m: M, p: seq<Byte>): (r: (M, seq<Byte>))
    requires Stable(f)
    ensures f(r.0, r.1).Wait?
    decreases |p|
  {
    if f(m, p).Wait? then (m, p) else Settle(f, f(m, p).mode, p[f(m, p).size..])
  }

  /** The same after every piece that arrives. */
  ghost function Served<M(!new)>(f: Machine<M>, m: M, p: seq<Byte>, pieces: seq<seq<Byte>>): (M, seq<Byte>)
    requires Stable(f)
    decreases |pieces|
  {
    if pieces == [] then (m, p)
    else
      var r := Settle(f, m, p + pieces[0]);
      Served(f, r.0, r.1, pieces[1..])
  }

  lemma SettleNone<M(!new)>(f: Machine<M>, m: M)
    requires Stable(f)
    ensures Settle(f, m, []) == (m, [])
  {
  }

  lemma SettleOne<M(!new)>(f: Machine<M>, m: M, p: seq<Byte>, n: nat, now: M)
    requires Stable(f) && f(m, p) == Take(n, now) && n <= |p|
    ensures Settle(f, m, p) == Settle(f, now, p[n..])
  {
  }

  lemma {:induction false} SettleSplit<M(!new)>(f: Machine<M>, m: M, p: seq<Byte>, q: seq<Byte>)
    requires Stable(f)
    ensures Settle(f, m, p + q) == Settle(f, Settle(f, m, p).0, Settle(f, m, p).1 + q)
    decreases |p|
  {
    if f(m, p).Take? {
      assert p <= p + q;
      var n := f(m, p).size;
      assert (p + q)[n..] == p[n..] + q;
      SettleSplit(f, f(m, p).mode, p[n..], q);
    }
  }

  /** However the bytes are cut, the machine ends where it ends on the whole of them. */
  lemma {:induction false} CutIndependent<M(!new)>(f: Machine<M>, m: M, p: seq<Byte>, pieces: seq<seq<Byte>>)
    requires Stable(f) && f(m, p).Wait?
    ensures Served(f, m, p, pieces) == Settle(f, m, p + Flatten(pieces))
    decreases |pieces|
  {
    if pieces == [] {
      assert p + Flatten(pieces) == p;
    } else {
      var r := Settle(f, m, p + pieces[0]);
      CutIndependent(f, r.0, r.1, pieces[1..]);
      SettleSplit(f, m, p + pieces[0], Flatten(pieces[1..]));
      assert p + Flatten(pieces) == p + pieces[0] + Flatten(pieces[1..]);
    }
  }

  /** One more piece. */
  lemma {:induction false} ServedMore<M(!new)>(f: Machine<M>, m: M, p: seq<Byte>, pieces: seq<seq<Byte>>,
                                               piece: seq<Byte>)
    requires Stable(f)
    ensures var r := Served(f, m, p, pieces); Served(f, m, p, pieces + [piece]) == Settle(f, r.0, r.1 + piece)
    decreases |pieces|
  {
    var all := pieces + [piece];
    if pieces == [] {
      assert all[1..] == [];
    } else {
      var r := Settle(f, m, p + pieces[0]);
      ServedMore(f, r.0, r.1, pieces[1..], piece);
      assert all[0] == pieces[0] && all[1..] == pieces[1..] + [piece];
    }
  }

  lemma {:induction false} ServedInTwo<M(!new)>(f: Machine<M>, m: M, p: seq<Byte>, a: seq<seq<Byte>>, b: seq<seq<Byte>>)
    requires Stable(f)
    ensures var r := Served(f, m, p, a); Served(f, m, p, a + b) == Served(f, r.0, r.1, b)
    decreases |b|
  {
    if b == [] {
      assert a + b == a;
    } else {
      ServedInTwo(f, m, p, a + [b[0]], b[1..]);
      ServedMore(f, m, p, a, b[0]);
      assert a + b == a + [b[0]] + b[1..];
    }
  }

  /** A machine that takes nothing any more stays in its mode. */
  lemma {:induction false} StoppedStays<M(!new)>(f: Machine<M>, m: M, p: seq<Byte>, pieces: seq<seq<Byte>>)
    requires Stable(f) && forall q :: f(m, q).Wait?
    ensures Served(f, m, p, pieces).0 == m
    decreases |pieces|
  {
    if pieces != [] { StoppedStays(f, m, p + pieces[0], pieces[1..]); }
  }
}
