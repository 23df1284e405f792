/** The receive side of a circuit as the client runs it: a queue of received bytes, and the message in
    progress kept across calls as flags, a header and a count of body bytes. */
module ResponseReading {
  import opened Bytes
  import opened CaProtocol
  import opened Framing
  import opened Responses

  class Reader<H(!new)> {
    const c: Setting<H>
    var recvQue: seq<Byte>
    var curMsg: Header
    var oldMsgHeaderAvailable: bool
    var msgHeaderAvailable: bool
    var curData: seq<Byte>
    var curDataBytes: nat
    var curDataMax: nat
    var log: seq<Message>
    var handler: H
    var alive: bool
    /** What has been taken off the queue for the message in progress, and the buffer size before it. */
    ghost var taken: seq<Byte>
    ghost var settledMax: nat

    ghost function View(): (Mode<H>, seq<Byte>)
      reads this
    {
      (Mode(settledMax, log, handler, alive), taken + recvQue)
    }

    ghost function NextMove(): Move<Mode<H>>
      reads this
    {
      Next(c, View().0, View().1)
    }

    /** No header yet, or the first part of an extended one. */
    ghost predicate BeforeHeader()
      reads this
    {
      && !msgHeaderAvailable && curDataBytes == 0 && curData == [] && curDataMax == settledMax
      && (!oldMsgHeaderAvailable ==> taken == [])
      && (oldMsgHeaderAvailable ==> |taken| == SHORT && curMsg == ShortHeader(taken) && curMsg.size == EXTENDED as int)
    }

    ghost predicate HasHeader()
      reads this
    {
      msgHeaderAvailable && curDataBytes <= |taken| && FindHeader(true, taken) == Found(curMsg, |taken| - curDataBytes)
    }

    /** Part of a body is in the buffer that fits it, or has been thrown away. */
    ghost predicate InBody()
      reads this
    {
      && HasHeader() && curMsg.size % 8 == 0 && curDataBytes <= curMsg.size
      && curDataMax == Buffer(c, settledMax, curMsg.size)
      && (curMsg.size <= curDataMax ==> curData == taken[|taken| - curDataBytes..])
    }

    ghost predicate Valid()
      reads this
    {
      alive ==> BeforeHeader() || InBody()
    }

    constructor (c: Setting<H>, handler: H)
      ensures Valid() && alive && View() == (Mode(c.small, [], handler, true), []) && this.c == c
    {
      this.c, this.handler := c, handler;
      recvQue, curMsg, oldMsgHeaderAvailable, msgHeaderAvailable := [], Header(0, 0, 0, 0, 0, 0), false, false;
      curData, curDataBytes, curDataMax, log, alive, taken, settledMax := [], 0, c.small, [], true, [], c.small;
      new;
      assert taken + recvQue == [];
    }

    /** Completes the header, as far as the queue goes. */
    method FetchHeader() returns (available: bool)
      requires BeforeHeader()
      modifies this`recvQue, this`curMsg, this`oldMsgHeaderAvailable, this`msgHeaderAvailable, this`taken
      ensures View() == old(View())
      ensures available ==> HasHeader() && curDataBytes == 0
      ensures !available ==> BeforeHeader() && FindHeader(true, taken + recvQue).NotYet?
    {
      if !oldMsgHeaderAvailable {
        if |recvQue| < SHORT { assert taken + recvQue == recvQue; return false; }
        FetchFirstPart();
      }
      if curMsg.size == EXTENDED as int {
        if |recvQue| < ANNEX { NoAnnexYet(taken, recvQue); return false; }
        FetchAnnex();
      } else {
        ShortIsFound(taken);
      }
      msgHeaderAvailable := true;
      available := true;
    }

    method FetchFirstPart()
      requires BeforeHeader() && !oldMsgHeaderAvailable && SHORT <= |recvQue|
      modifies this`recvQue, this`curMsg, this`oldMsgHeaderAvailable, this`taken
      ensures oldMsgHeaderAvailable && |taken| == SHORT && curMsg == ShortHeader(taken) && View() == old(View())
    {
      var popped := Pop(SHORT);
      curMsg := ShortHeader(popped);
      oldMsgHeaderAvailable := true;
      assert taken == popped;
    }

    method FetchAnnex()
      requires |taken| == SHORT && curMsg == ShortHeader(taken) && curMsg.size == EXTENDED as int && ANNEX <= |recvQue|
      modifies this`recvQue, this`curMsg, this`taken
      ensures View() == old(View()) && FindHeader(true, taken) == Found(curMsg, |taken|)
    {
      ghost var first := taken;
      var annex := Pop(ANNEX);
      AnnexIsFound(first, annex);
      curMsg := WithAnnex(curMsg, annex);
    }

    method Pop(n: nat) returns (popped: seq<Byte>)
      requires n <= |recvQue|
      modifies this`recvQue, this`taken
      ensures popped == old(recvQue)[..n] && taken == old(taken) + popped && recvQue == old(recvQue)[n..]
      ensures taken + recvQue == old(taken) + old(recvQue)
    {
      popped := recvQue[..n];
      taken := taken + popped;
      recvQue := recvQue[n..];
    }

    /** Changes to the large buffer if the body needs it. */
    method GrowBuffer()
      modifies this`curDataMax
      ensures curDataMax == Buffer(c, old(curDataMax), curMsg.size)
    {
      if curMsg.size > curDataMax {
        if curDataMax == c.small && c.large >= curMsg.size { curDataMax := c.large; }
      }
    }

    /** Takes from the queue what it has of the body: into the buffer, or nowhere if it does not fit. */
    method FetchBody() returns (complete: bool)
      requires InBody()
      modifies this`recvQue, this`taken, this`curData, this`curDataBytes
      ensures InBody() && View() == old(View())
      ensures complete == (curDataBytes == curMsg.size)
      ensures !complete ==> recvQue == []
    {
      var n := if |recvQue| < curMsg.size - curDataBytes then |recvQue| else curMsg.size - curDataBytes;
      BodyGrows(taken, recvQue[..n], curMsg, curDataBytes);
      TakeBody(n);
      complete := curDataBytes == curMsg.size;
    }

    method TakeBody(n: nat)
      requires n <= |recvQue|
      modifies this`recvQue, this`taken, this`curData, this`curDataBytes
      ensures taken == old(taken) + old(recvQue)[..n] && recvQue == old(recvQue)[n..] && View() == old(View())
      ensures curData == if curMsg.size <= curDataMax then old(curData) + old(recvQue)[..n] else old(curData)
      ensures curDataBytes == old(curDataBytes) + n
    {
      var popped := Pop(n);
      if curMsg.size <= curDataMax { curData := curData + popped; }
      curDataBytes := curDataBytes + n;
    }

    /** The client's response to a message, if it fitted the buffer. */
    method Respond(ghost body: seq<Byte>)
      requires curDataMax == Buffer(c, settledMax, curMsg.size) && (curMsg.size <= curDataMax ==> curData == body)
      modifies this`log, this`handler, this`alive
      ensures Mode(curDataMax, log, handler, alive) == Execute(c, old(View()).0, curMsg, body)
    {
      if curMsg.size <= curDataMax {
        var r := c.execute(handler, curMsg, curData);
        log := log + [Message(curMsg, curData)];
        handler, alive := r.0, r.1;
      }
    }

    /** The client's response to a message; the next one starts afresh. */
    method FinishMessage()
      requires alive && curDataBytes == curMsg.size <= |taken| && curDataMax == Buffer(c, settledMax, curMsg.size)
      requires curMsg.size <= curDataMax ==> curData == taken[|taken| - curDataBytes..]
      modifies this
      ensures recvQue == old(recvQue) && (alive ==> BeforeHeader() && taken == [])
      ensures View().0 == Execute(c, old(View()).0, old(curMsg), old(taken)[old(|taken| - curDataBytes)..])
      ensures !alive ==> taken == []
    {
      Respond(taken[|taken| - curDataBytes..]);
      settledMax, taken := curDataMax, [];
      oldMsgHeaderAvailable, msgHeaderAvailable, curDataBytes, curData := false, false, 0, [];
    }

    /** The header is there: its body, as far as the queue goes, and the response once it is whole. */
    method BodyPart() returns (go: bool)
      requires HasHeader() && alive && curMsg.size % 8 == 0 && curDataBytes <= curMsg.size
      requires (curDataMax == settledMax && curDataBytes == 0 && curData == []) || InBody()
      modifies this
      ensures Valid() && (go ==> alive)
      ensures go ==> Took(old(NextMove()), old(View()), View()) && |recvQue| < |old(taken + recvQue)|
      ensures !go && alive ==> Stayed(old(NextMove()), old(View()), View())
      ensures !go && !alive ==> Took(old(NextMove()), old(View()), View())
    {
      GrowBuffer();
      var complete := FetchBody();
      if !complete {
        StillWaits(c, View().0, taken, recvQue, curMsg, curDataBytes);
        return false;
      }
      TakenWhole(c, View().0, taken, recvQue, curMsg, taken[|taken| - curDataBytes..]);
      FinishMessage();
      assert taken + recvQue == recvQue;
      return alive;
    }

    /** One turn of the loop: a message is finished, or the reader returns. */
    method OneMessage() returns (go: bool)
      requires Valid() && alive
      modifies this
      ensures Valid() && (go ==> alive)
      ensures go ==> Took(old(NextMove()), old(View()), View()) && |taken + recvQue| < |old(taken + recvQue)|
      ensures !go && alive ==> Stayed(old(NextMove()), old(View()), View())
      ensures !go && !alive ==> Failed(old(NextMove()), View().0, alive)
    {
      if !msgHeaderAvailable {
        var available := FetchHeader();
        if !available { return false; }
      }
      if curMsg.size % 8 != 0 {
        HeaderStays(true, taken, taken + recvQue);
        alive := false;
        return false;
      }
      go := BodyPart();
    }

    /** What the client does with the bytes it has: the machine's messages, until it waits or fails. */
    method ProcessIncoming() returns (ok: bool)
      requires Valid() && alive
      modifies this
      ensures Valid() && ok == alive
      ensures Stable(Reading(c))
      ensures var s := Settle(Reading(c), old(View()).0, old(View()).1); if ok then View() == s else View().0 == s.0
    {
      ReadingIsStable(c);
      ghost var settled := Settle(Reading(c), View().0, View().1);
      var go := true;
      while go
        invariant Valid() && (go ==> alive)
        invariant if go then settled == Settle(Reading(c), View().0, View().1)
          else if alive then settled == View() else settled.0 == View().0
        decreases if go then 1 + |taken + recvQue| else 0
      {
        go := OneMessage();
      }
      ok := alive;
    }

    /** A receive: the bytes join the queue, and what they complete is executed. Over a connection these
        calls are the machine serving the pieces, so how the bytes were cut makes no difference. */
    method Receive(piece: seq<Byte>) returns (ok: bool)
      requires Valid() && alive
      modifies this
      ensures Valid() && ok == alive
      ensures Stable(Reading(c))
      ensures var s := Settle(Reading(c), old(View()).0, old(View()).1 + piece);
        if ok then View() == s else View().0 == s.0
    {
      assert taken + recvQue + piece == taken + (recvQue + piece);
      recvQue := recvQue + piece;
      ok := ProcessIncoming();
    }

    /** The receive thread's loop over whatever pieces arrive, left when one cannot be processed. */
    method ReceiveAll(pieces: seq<seq<Byte>>) returns (ok: bool)
      requires Valid() && alive
      modifies this
      ensures Valid() && ok == alive
      ensures Stable(Reading(c))
      ensures var s := Served(Reading(c), old(View()).0, old(View()).1, pieces);
        if ok then View() == s else View().0 == s.0
    {
      ReadingIsStable(c);
      ghost var first := View();
      var k := 0;
      ok := true;
      assert pieces[..0] == [];
      while k < |pieces| && ok
        invariant k <= |pieces| && Valid() && ok == alive
        invariant SameAs(Served(Reading(c), first.0, first.1, pieces[..k]))
        decreases |pieces| - k
      {
        ServedMore(Reading(c), first.0, first.1, pieces[..k], pieces[k]);
        assert pieces[..k + 1] == pieces[..k] + [pieces[k]];
        ok := Receive(pieces[k]);
        k := k + 1;
      }
      RestIsIgnored(first, pieces, k);
    }

    /** The reader is where the machine is; once the circuit is down only the mode counts. */
    ghost predicate SameAs(s: (Mode<H>, seq<Byte>))
      reads this
    {
      if alive then View() == s else View().0 == s.0
    }

    lemma {:induction false} RestIsIgnored(first: (Mode<H>, seq<Byte>), pieces: seq<seq<Byte>>, k: nat)
      requires Stable(Reading(c)) && k <= |pieces| && (alive ==> k == |pieces|)
      requires SameAs(Served(Reading(c), first.0, first.1, pieces[..k]))
      ensures SameAs(Served(Reading(c), first.0, first.1, pieces))
    {
      assert pieces == pieces[..k] + pieces[k..];
      ServedInTwo(Reading(c), first.0, first.1, pieces[..k], pieces[k..]);
      if alive {
        assert pieces[..k] == pieces;
      } else {
        var s := Served(Reading(c), first.0, first.1, pieces[..k]);
        assert forall q :: Reading(c)(s.0, q) == Next(c, s.0, q);
        StoppedStays(Reading(c), s.0, s.1, pieces[k..]);
      }
    }
  }

  lemma NoAnnexYet(taken: seq<Byte>, queue: seq<Byte>)
    requires |taken| == SHORT && ShortHeader(taken).size == EXTENDED as int && |queue| < ANNEX
    ensures FindHeader(true, taken + queue).NotYet?
  {
    assert (taken + queue)[..SHORT] == taken;
  }

  lemma ShortIsFound(taken: seq<Byte>)
    requires |taken| == SHORT && ShortHeader(taken).size != EXTENDED as int
    ensures FindHeader(true, taken) == Found(ShortHeader(taken), SHORT)
  {
    assert taken[..SHORT] == taken;
  }

  lemma AnnexIsFound(taken: seq<Byte>, annex: seq<Byte>)
    requires |taken| == SHORT && ShortHeader(taken).size == EXTENDED as int && |annex| == ANNEX
    ensures FindHeader(true, taken + annex) == Found(WithAnnex(ShortHeader(taken), annex), SHORT + ANNEX)
  {
    assert (taken + annex)[..SHORT] == taken && (taken + annex)[SHORT..SHORT + ANNEX] == annex;
  }

  /** More of a body. */
  lemma BodyGrows(taken: seq<Byte>, more: seq<Byte>, h: Header, got: nat)
    requires got <= |taken| && FindHeader(true, taken) == Found(h, |taken| - got)
    ensures FindHeader(true, taken + more) == Found(h, |taken| - got)
    ensures (taken + more)[|taken| - got..] == taken[|taken| - got..] + more
  {
    HeaderStays(true, taken, taken + more);
  }

  lemma StillWaits<H>(c: Setting<H>, m: Mode<H>, taken: seq<Byte>, queue: seq<Byte>, h: Header, got: nat)
    requires h.size % 8 == 0 && got < h.size && got <= |taken| && queue == []
    requires FindHeader(true, taken) == Found(h, |taken| - got)
    ensures Next(c, m, taken + queue).Wait?
  {
    HeaderStays(true, taken, taken + queue);
  }

  lemma TakenWhole<H>(c: Setting<H>, m: Mode<H>, taken: seq<Byte>, queue: seq<Byte>, h: Header, body: seq<Byte>)
    requires m.alive && h.size % 8 == 0 && |body| == h.size <= |taken|
    requires FindHeader(true, taken) == Found(h, |taken| - h.size) && body == taken[|taken| - h.size..]
    ensures Next(c, m, taken + queue) == Take(|taken|, Execute(c, m, h, body))
    ensures (taken + queue)[|taken|..] == queue
  {
    HeaderStays(true, taken, taken + queue);
    assert (taken + queue)[|taken| - h.size..|taken|] == body;
  }
}
