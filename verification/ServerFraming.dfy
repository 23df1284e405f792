/** The server's receive buffer and the loop over it: complete messages are dispatched where they lie,
    and what remains of one too large for the buffer is counted down across calls. */
module ServerFraming {
  import opened Bytes
  import opened CaProtocol
  import opened Framing
  import opened Requests

  class Client<H(!new)> {
    const c: Setting<H>
    /** The bytes received and not yet moved out, of which the first `stk` are done with. */
    var buf: seq<Byte>
    var stk: nat
    var maxstk: nat
    var recvBytesToDrain: nat
    var v49: bool
    var log: seq<Message>
    var handler: H
    var alive: bool
    /** What has been thrown away of the message being drained, and the capacity before it. */
    ghost var taken: seq<Byte>
    ghost var settled: nat

    ghost function View(): (Mode<H>, seq<Byte>)
      reads this
      requires stk <= |buf|
    {
      (Mode(v49, settled, log, handler, alive), taken + buf[stk..])
    }

    ghost function NextMove(): Move<Mode<H>>
      reads this
      requires stk <= |buf|
    {
      Next(c, View().0, View().1)
    }

    /** The capacity is as before, or already what the message at the head needs. */
    ghost predicate Reading()
      reads this
    {
      && recvBytesToDrain == 0 && taken == [] && stk <= |buf|
      && (maxstk == settled || Fits(c, v49, settled, maxstk, buf[stk..]))
    }

    ghost predicate Draining()
      reads this
    {
      && recvBytesToDrain > 0 && stk <= |buf|
      && Drains(c, v49, settled, maxstk, taken, recvBytesToDrain)
    }

    ghost predicate Valid()
      reads this
    {
      Grows(c) && stk <= |buf| <= maxstk && (alive ==> Reading() || Draining())
    }

    constructor (c: Setting<H>, handler: H, capacity: nat)
      requires Grows(c)
      ensures Valid() && alive && stk == 0 && buf == [] && View() == (Mode(false, capacity, [], handler, true), [])
    {
      this.c, this.handler := c, handler;
      buf, stk, maxstk, recvBytesToDrain, v49, log, alive := [], 0, capacity, 0, false, [], true;
      taken, settled := [], capacity;
      new;
      assert taken + buf[stk..] == [];
    }

    /** All that has arrived belongs to the message being drained, and more is to come. */
    method DrainPart()
      requires Valid() && alive && stk == 0 && recvBytesToDrain > |buf|
      modifies this`stk, this`recvBytesToDrain, this`taken
      ensures Valid() && stk == |buf| && recvBytesToDrain > 0 && Stayed(old(NextMove()), old(View()), View())
    {
      DrainedPart(c, View().0, maxstk, taken, recvBytesToDrain, buf);
      taken := taken + buf;
      recvBytesToDrain := recvBytesToDrain - |buf|;
      stk := |buf|;
    }

    /** The rest of the message has arrived. */
    method DrainLast()
      requires Valid() && alive && stk == 0 && 0 < recvBytesToDrain <= |buf|
      modifies this`stk, this`recvBytesToDrain, this`taken, this`settled
      ensures Valid() && Reading() && stk == old(recvBytesToDrain) && Took(old(NextMove()), old(View()), View())
    {
      DrainedLast(c, View().0, maxstk, taken, recvBytesToDrain, buf);
      stk := recvBytesToDrain;
      recvBytesToDrain := 0;
      taken, settled := [], maxstk;
    }

    /** Throws away what has arrived of the message being drained. */
    method Drain() returns (more: bool)
      requires Valid() && alive && stk == 0
      modifies this`stk, this`recvBytesToDrain, this`taken, this`settled
      ensures Valid() && (recvBytesToDrain > 0 ==> stk == |buf|)
      ensures old(recvBytesToDrain) == 0 ==> more && View() == old(View()) && Reading()
      ensures old(recvBytesToDrain) > 0 && recvBytesToDrain > 0 ==>
        !more && Stayed(old(NextMove()), old(View()), View())
      ensures old(recvBytesToDrain) > 0 && recvBytesToDrain == 0 ==>
        Took(old(NextMove()), old(View()), View()) && Reading()
      ensures !more && recvBytesToDrain == 0 ==> View().1 == []
    {
      if recvBytesToDrain > 0 {
        if recvBytesToDrain >= |buf| {
          if recvBytesToDrain > |buf| { DrainPart(); } else { DrainLast(); }
          assert buf[stk..] == [];
          return false;
        }
        DrainLast();
      }
      more := true;
    }

    /** The first complete header of the bytes left. */
    method ReadHeader(bytes_left: nat) returns (found: bool, msg: Header, length: nat)
      requires stk <= |buf| && bytes_left == |buf| - stk
      ensures found == FindHeader(v49, buf[stk..]).Found?
      ensures found ==> FindHeader(v49, buf[stk..]) == Found(msg, length)
    {
      found, msg, length := false, Header(0, 0, 0, 0, 0, 0), SHORT;
      if bytes_left < SHORT { return; }
      ghost var p := buf[stk..];
      msg := ShortHeader(buf[stk..stk + SHORT]);
      assert buf[stk..stk + SHORT] == p[..SHORT];
      if v49 && msg.size == EXTENDED as int {
        if bytes_left < SHORT + ANNEX { return; }
        msg := WithAnnex(msg, buf[stk + SHORT..stk + SHORT + ANNEX]);
        assert buf[stk + SHORT..stk + SHORT + ANNEX] == p[SHORT..SHORT + ANNEX];
        length := SHORT + ANNEX;
      }
      found := true;
    }

    /** The message does not fit: all that has arrived of it goes, the rest will when it comes. */
    method StartDraining(msgsize: nat, bytes_left: nat)
      requires Grows(c) && alive && stk <= |buf| <= maxstk < msgsize && recvBytesToDrain == 0 && taken == []
      requires bytes_left == |buf| - stk
      requires var f := FindHeader(v49, buf[stk..]); f.Found? && f.length + f.header.size == msgsize
      requires msgsize % 8 == 0 && maxstk == Capacity(c, settled, msgsize)
      modifies this`recvBytesToDrain, this`stk, this`taken
      ensures Valid() && Draining() && stk == |buf| && Stayed(old(NextMove()), old(View()), View())
    {
      assert msgsize >= bytes_left;
      HeadWaits(c, View().0, taken, buf, stk, msgsize);
      recvBytesToDrain := msgsize - bytes_left;
      taken := buf[stk..];
      stk := |buf|;
    }

    /** The whole message is there: its handler runs, and the buffer moves past it. */
    method DispatchMessage(msg: Header, length: nat, msgsize: nat)
      requires Valid() && alive && Reading() && msgsize <= |buf| - stk
        && msgsize <= maxstk == Capacity(c, settled, msgsize)
      requires FindHeader(v49, buf[stk..]) == Found(msg, length) && msgsize == length + msg.size && msgsize % 8 == 0
      modifies this`log, this`handler, this`v49, this`alive, this`stk, this`settled
      ensures Valid() && stk <= |buf| && (alive ==> Reading() && stk == old(stk) + msgsize)
      ensures alive ==> Took(old(NextMove()), old(View()), View())
      ensures !alive ==> Failed(old(NextMove()), View().0, alive)
    {
      TakesHead(c, View().0, taken, buf, stk, msg, length, msgsize);
      RunHandler(msg, msgsize, buf[stk + length..stk + msgsize]);
      if alive { stk := stk + msgsize; }
    }

    /** The handler of the request, and whether the client is served on. */
    method RunHandler(msg: Header, msgsize: nat, body: seq<Byte>)
      requires alive && stk <= |buf| && msgsize <= maxstk == Capacity(c, settled, msgsize)
      modifies this`log, this`handler, this`v49, this`alive, this`settled
      ensures View() == (Dispatch(c, old(View()).0, msg, msgsize, body), old(View()).1)
      ensures settled == maxstk
    {
      var r := c.dispatch(handler, v49, msg, body);
      log := log + [Message(msg, body)];
      handler, v49, alive := r.handler, r.v49, r.ok;
      settled := maxstk;
    }

    /** Expands the buffer if the message does not fit. */
    method ExpandRecvBuffer(msgsize: nat)
      requires Grows(c) && maxstk >= |buf|
      modifies this`maxstk
      ensures maxstk == Capacity(c, old(maxstk), msgsize) >= |buf|
    {
      if msgsize > maxstk { maxstk := c.expand(maxstk, msgsize); }
    }

    /** A message of a good size: it is drained, waited for or dispatched. */
    method TakeMessage(msg: Header, length: nat, msgsize: nat, bytes_left: nat) returns (go: bool)
      requires Valid() && alive && Reading() && bytes_left == |buf| - stk
      requires FindHeader(v49, buf[stk..]) == Found(msg, length) && msgsize == msg.size + length && msgsize % 8 == 0
      modifies this`maxstk, this`recvBytesToDrain, this`log, this`handler, this`v49, this`alive, this`stk, this`taken,
        this`settled
      ensures Valid() && stk <= |buf| && buf == old(buf)
      ensures go ==> alive && Reading() && stk > old(stk) && Took(old(NextMove()), old(View()), View())
      ensures !go && alive ==> Stayed(old(NextMove()), old(View()), View()) && (recvBytesToDrain > 0 ==> stk == |buf|)
      ensures !go && alive && recvBytesToDrain == 0 ==> |buf| - stk < maxstk
      ensures !go && !alive ==> Failed(old(NextMove()), View().0, alive)
    {
      ExpandRecvBuffer(msgsize);
      if msgsize > maxstk {
        StartDraining(msgsize, bytes_left);
        return false;
      }
      if msgsize > bytes_left {
        HeadWaits(c, View().0, taken, buf, stk, msgsize);
        return false;
      }
      DispatchMessage(msg, length, msgsize);
      go := alive;
    }

    /** One turn of the loop. */
    method OneMessage() returns (go: bool)
      requires Valid() && alive && Reading()
      modifies this`maxstk, this`recvBytesToDrain, this`log, this`handler, this`v49, this`alive, this`stk, this`taken,
        this`settled
      ensures Valid() && stk <= |buf| && buf == old(buf)
      ensures go ==> alive && Reading() && stk > old(stk) && Took(old(NextMove()), old(View()), View())
      ensures !go && alive ==> Stayed(old(NextMove()), old(View()), View()) && (recvBytesToDrain > 0 ==> stk == |buf|)
      ensures !go && alive && recvBytesToDrain == 0 ==> |buf| - stk < SHORT + ANNEX || |buf| - stk < maxstk
      ensures !go && !alive ==> Failed(old(NextMove()), View().0, alive)
    {
      assert taken + buf[stk..] == buf[stk..];
      var bytes_left := |buf| - stk;
      var found, msg, length := ReadHeader(bytes_left);
      if !found { return false; }
      var msgsize := msg.size + length;
      if msgsize % 8 != 0 {
        alive := false;
        return false;
      }
      go := TakeMessage(msg, length, msgsize, bytes_left);
    }

    /** What the server does with the bytes in its buffer: the machine's requests, until it waits or
        refuses. What is left is less than the buffer holds, so there is room to receive more. */
    method Camessage() returns (ok: bool)
      requires Valid() && alive && stk == 0
      modifies this
      ensures Valid() && ok == alive && stk <= |buf| && buf == old(buf)
      ensures Stable(Serving(c))
      ensures var s := Settle(Serving(c), old(View()).0, old(View()).1); if ok then View() == s else View().0 == s.0
      ensures ok && recvBytesToDrain > 0 ==> stk == |buf|
      ensures ok && maxstk >= SHORT + ANNEX ==> |buf| - stk < maxstk
    {
      ServingIsStable(c);
      ghost var settledView := Settle(Serving(c), View().0, View().1);
      ghost var first := View();
      var go := Drain();
      SettlesAfter(c, first, View());
      while go
        invariant Valid() && stk <= |buf| && buf == old(buf) && (go ==> alive && Reading())
        invariant if go then settledView == Settle(Serving(c), View().0, View().1)
          else if alive then settledView == View() else settledView.0 == View().0
        invariant !go && alive && recvBytesToDrain > 0 ==> stk == |buf|
        invariant !go && alive && recvBytesToDrain == 0 ==> |buf| - stk < SHORT + ANNEX || |buf| - stk < maxstk
        decreases if go then 1 + |buf| - stk else 0
      {
        ghost var before := View();
        go := OneMessage();
        SettlesAfter(c, before, View());
      }
      ok := alive;
    }

    /** A receive as the server's task makes it: no more than there is room for, then the requests, then
        what is left moved to the front. */
    method Receive(piece: seq<Byte>) returns (ok: bool)
      requires Valid() && alive && stk == 0 && |buf| + |piece| <= maxstk
      modifies this
      ensures Valid() && ok == alive && Stable(Serving(c))
      ensures ok ==> stk == 0 && (maxstk >= SHORT + ANNEX ==> |buf| < maxstk)
      ensures var s := Settle(Serving(c), old(View()).0, old(View()).1 + piece);
        if ok then View() == s else View().0 == s.0
    {
      Append(piece);
      ok := Camessage();
      if ok { Compact(); }
    }

    /** The task over a connection: at every receive some bytes are there, of which it takes as many as there is
        room for; `pieces` are what it took. */
    method ReceiveAll(input: seq<Byte>, ready: seq<nat>) returns (ok: bool, pieces: seq<seq<Byte>>, left: seq<Byte>)
      requires Valid() && alive && stk == 0
      modifies this
      ensures Valid() && ok == alive && Stable(Serving(c))
      ensures Flatten(pieces) + left == input
      ensures var s := Served(Serving(c), old(View()).0, old(View()).1, pieces);
        if ok then View() == s else View().0 == s.0
    {
      ServingIsStable(c);
      ghost var first := View();
      ok, pieces, left := true, [], input;
      var k := 0;
      while k < |ready| && ok
        invariant k <= |ready| && Valid() && ok == alive && (ok ==> stk == 0)
        invariant Flatten(pieces) + left == input
        invariant SameAs(Served(Serving(c), first.0, first.1, pieces))
        decreases |ready| - k
      {
        var n := Room(ready[k], |left|);
        ServedMore(Serving(c), first.0, first.1, pieces, left[..n]);
        FlattenMore(pieces, left, n);
        ok := Receive(left[..n]);
        pieces, left := pieces + [left[..n]], left[n..];
        k := k + 1;
      }
    }

    method Room(ready: nat, waiting: nat) returns (n: nat)
      requires |buf| <= maxstk
      ensures n <= waiting && |buf| + n <= maxstk && n <= ready
      ensures n == ready || n == waiting || |buf| + n == maxstk
    {
      n := if ready < waiting then ready else waiting;
      if n > maxstk - |buf| { n := maxstk - |buf|; }
    }

    /** The server is where the machine is; once the client is given up only the mode counts. */
    ghost predicate SameAs(s: (Mode<H>, seq<Byte>))
      reads this
      requires stk <= |buf|
    {
      if alive then View() == s else View().0 == s.0
    }

    method Append(piece: seq<Byte>)
      requires Valid() && alive && stk == 0 && |buf| + |piece| <= maxstk
      modifies this`buf
      ensures Valid() && buf == old(buf) + piece && View() == (old(View()).0, old(View()).1 + piece)
    {
      assert taken + buf[stk..] + piece == taken + (buf + piece)[stk..];
      ghost var p := buf[stk..];
      buf := buf + piece;
      MoreStillFits(c, v49, settled, maxstk, p, buf[stk..]);
    }

    /** What is left moves to the front. */
    method Compact()
      requires Valid() && alive && stk <= |buf|
      modifies this`buf, this`stk
      ensures Valid() && stk == 0 && buf == old(buf)[old(stk)..] && View() == old(View())
    {
      assert buf[stk..][0..] == buf[stk..];
      buf := buf[stk..];
      stk := 0;
    }
  }

  /** What one move of the machine is worth to where it settles. */
  lemma SettlesAfter<H(!new)>(c: Setting<H>, was: (Mode<H>, seq<Byte>), now: (Mode<H>, seq<Byte>))
    requires Stable(Serving(c))
    ensures Took(Next(c, was.0, was.1), was, now) ==>
      Settle(Serving(c), was.0, was.1) == Settle(Serving(c), now.0, now.1)
    ensures Stayed(Next(c, was.0, was.1), was, now) ==> Settle(Serving(c), was.0, was.1) == now
    ensures now.1 == [] ==> Settle(Serving(c), now.0, now.1) == now
  {
    var f := Serving(c);
    assert f(was.0, was.1) == Next(c, was.0, was.1) && f(now.0, now.1) == Next(c, now.0, now.1);
  }

  lemma {:induction false} FlattenMore(pieces: seq<seq<Byte>>, left: seq<Byte>, n: nat)
    requires n <= |left|
    ensures Flatten(pieces + [left[..n]]) + left[n..] == Flatten(pieces) + left
  {
    FlattenSnoc(pieces, left[..n]);
    assert left[..n] + left[n..] == left;
  }

  lemma SliceOfRest(b: seq<Byte>, s: nat, i: nat, j: nat)
    requires i <= j && s + j <= |b|
    ensures b[s..][i..j] == b[s + i..s + j]
  {
  }

  /** What the machine does with a whole message that lies in the buffer. */
  lemma TakesHead<H(!new)>(c: Setting<H>, m: Mode<H>, taken: seq<Byte>, buf: seq<Byte>, stk: nat,
                           msg: Header, length: nat, msgsize: nat)
    requires m.alive && taken == [] && stk + msgsize <= |buf| && msgsize % 8 == 0
    requires FindHeader(m.v49, buf[stk..]) == Found(msg, length) && msgsize == length + msg.size
    ensures Next(c, m, taken + buf[stk..])
      == Take(msgsize, Dispatch(c, m, msg, msgsize, buf[stk + length..stk + msgsize]))
    ensures msgsize <= |taken + buf[stk..]| && (taken + buf[stk..])[msgsize..] == taken + buf[stk + msgsize..]
  {
    assert taken + buf[stk..] == buf[stk..];
    SliceOfRest(buf, stk, length, msgsize);
  }

  /** And with one of which the end is missing. */
  lemma HeadWaits<H(!new)>(c: Setting<H>, m: Mode<H>, taken: seq<Byte>, buf: seq<Byte>, stk: nat, msgsize: nat)
    requires taken == [] && stk <= |buf| < stk + msgsize && msgsize % 8 == 0
    requires var f := FindHeader(m.v49, buf[stk..]); f.Found? && f.length + f.header.size == msgsize
    ensures Next(c, m, taken + buf[stk..]).Wait? && taken + buf[stk..] == buf[stk..] + buf[|buf|..]
  {
    assert taken + buf[stk..] == buf[stk..];
  }

  lemma DrainedPart<H(!new)>(c: Setting<H>, m: Mode<H>, maxstk: nat, taken: seq<Byte>, left: nat, buf: seq<Byte>)
    requires m.alive && Drains(c, m.v49, m.capacity, maxstk, taken, left) && |buf| < left
    ensures Next(c, m, taken + buf[0..]).Wait? && taken + buf[0..] == taken + buf + buf[|buf|..]
    ensures Drains(c, m.v49, m.capacity, maxstk, taken + buf, left - |buf|)
  {
    DrainsOn(c, m, maxstk, taken, left, buf);
    assert buf[0..] == buf;
  }

  lemma DrainedLast<H(!new)>(c: Setting<H>, m: Mode<H>, maxstk: nat, taken: seq<Byte>, left: nat, buf: seq<Byte>)
    requires m.alive && Drains(c, m.v49, m.capacity, maxstk, taken, left) && 0 < left <= |buf|
    ensures Next(c, m, taken + buf[0..]) == Take(|taken| + left, m.(capacity := maxstk))
    ensures (taken + buf[0..])[|taken| + left..] == [] + buf[left..]
  {
    DrainsOn(c, m, maxstk, taken, left, buf);
    assert buf[0..] == buf;
  }

  lemma MoreStillFits<H>(c: Setting<H>, v49: bool, settled: nat, maxstk: nat, p: seq<Byte>, q: seq<Byte>)
    requires p <= q
    ensures Fits(c, v49, settled, maxstk, p) ==> Fits(c, v49, settled, maxstk, q)
  {
    if Fits(c, v49, settled, maxstk, p) { HeaderStays(v49, p, q); }
  }

  /** The message at the head of the bytes fits the capacity it was given. */
  ghost predicate Fits<H>(c: Setting<H>, v49: bool, settled: nat, maxstk: nat, p: seq<Byte>)
  {
    var f := FindHeader(v49, p);
    f.Found? && f.length + f.header.size <= maxstk == Capacity(c, settled, f.length + f.header.size)
  }

  /** A message that does not fit, of which `taken` is gone and `left` bytes are still to go. */
  ghost predicate Drains<H>(c: Setting<H>, v49: bool, settled: nat, maxstk: nat, taken: seq<Byte>, left: nat)
  {
    var f := FindHeader(v49, taken);
    f.Found? && var size := f.length + f.header.size;
      size % 8 == 0 && maxstk == Capacity(c, settled, size) && size > maxstk && |taken| + left == size
  }

  /** More bytes of a message being drained: the machine still waits, or takes the message and only
      that. */
  lemma DrainsOn<H(!new)>(c: Setting<H>, m: Mode<H>, maxstk: nat, taken: seq<Byte>, left: nat, more: seq<Byte>)
    requires m.alive && Drains(c, m.v49, m.capacity, maxstk, taken, left) && left > 0
    ensures |more| < left ==>
      Next(c, m, taken + more).Wait? && Drains(c, m.v49, m.capacity, maxstk, taken + more, left - |more|)
    ensures |more| >= left ==>
      && Next(c, m, taken + more) == Take(|taken| + left, m.(capacity := maxstk))
      && (taken + more)[|taken| + left..] == more[left..]
  {
    HeaderStays(m.v49, taken, taken + more);
    if |more| >= left { PastAppend(taken, more, left); }
  }

  lemma PastAppend(a: seq<Byte>, b: seq<Byte>, k: nat)
    requires k <= |b|
    ensures (a + b)[|a| + k..] == b[k..]
  {
  }
}
