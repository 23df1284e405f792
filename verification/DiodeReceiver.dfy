/** The receiver itself: the payload buffer shifted in place, the memory and its shadow written in
    place, and the service of one request, proved to have the effect Delivery describes. */
module DiodeReceiver {
  import opened Wrappers
  import opened Bytes
  import opened Records
  import opened Incremental
  import opened DiodeParser
  import opened NameSearch
  import opened ReceiverStore
  import opened Delivery
  import opened Transport
  import opened RequestBody

  /** The offsets of the PVs, one region after the other, and the size of the whole. */
  method Layout(pvs: array<Pv>) returns (total: nat)
    modifies pvs
    ensures LaidOut(pvs[..], total)
    ensures forall i | 0 <= i < pvs.Length :: pvs[i].totalSize == old(pvs[i].totalSize)
  {
    total := 0;
    for n := 0 to pvs.Length
      invariant forall i | 0 <= i < pvs.Length :: pvs[i].totalSize == old(pvs[i].totalSize)
      invariant forall i | 0 <= i < n :: pvs[i].offset == Base(pvs[..], i)
      invariant total == Base(pvs[..], n)
    {
      ghost var was := pvs[..];
      pvs[n] := pvs[n].(offset := total);
      total := total + (pvs[n].totalSize + STAMP);
      forall i | 0 <= i <= n ensures Base(pvs[..], i) == Base(was, i) {
        SameSizesSameBase(pvs[..], was, i);
      }
    }
  }

  lemma {:induction false} SameSizesSameBase(a: seq<Pv>, b: seq<Pv>, i: nat)
    requires |a| == |b| && i <= |a|
    requires forall k | 0 <= k < |a| :: a[k].totalSize == b[k].totalSize
    ensures Base(a, i) == Base(b, i)
  {
    if i > 0 { SameSizesSameBase(a, b, i - 1); }
  }

  /** Resynchronisation: payloads that do not open with a quote are shifted until they do. */
  method Synchronise(payload: StreamString) returns (ok: bool)
    requires payload.text != []
    modifies payload
    ensures Synced(payload.text, ok) == Resync(old(payload.text))
  {
    ghost var end := Resync(payload.text);
    ok := true;
    if payload.text[0] != QUOTE {
      var found, i := false, 0;
      while i < |payload.text| && !found
        invariant ok && if found then end == Synced(payload.text, true) else Skipped(payload.text, i, end)
        decreases |payload.text|, |payload.text| - i, !found
      {
        if payload.text[i] == QUOTE {
          QuoteSkipped(payload.text, i, end);
          payload.Consume(i);
          ok := |payload.text| >= |PATTERN|;
          if !ok { return; }
          found := payload.text[..|PATTERN|] != PATTERN;
          i := 1;
        } else {
          i := i + 1;
        }
      }
      if !found {
        payload.Consume(|payload.text|);
        ok := false;
      }
    }
  }

  /** Skipping to a quote from i on leads to this end. */
  ghost predicate Skipped(p: seq<Byte>, i: nat, end: Synced)
  {
    i <= |p| && SkipToQuote(p, i) == end
  }

  lemma QuoteSkipped(p: seq<Byte>, i: nat, end: Synced)
    requires Skipped(p, i, end) && i < |p| && p[i] == QUOTE
    ensures var q := p[i..];
      if |q| < 3 then end == Synced(q, false)
      else if q[..3] != PATTERN then end == Synced(q, true)
      else Skipped(q, 1, end)
  {
    assert NextQuote(p, i) == i;
  }

  /** The end of the name; a quote inside a name opens a new one. */
  method ScanName(payload: StreamString) returns (ok: bool, end: nat)
    requires payload.text != []
    modifies payload
    ensures ok == FindName(old(payload.text)).ok && payload.text == FindName(old(payload.text)).rest
    ensures ok ==> end == FindName(old(payload.text)).end
  {
    ghost var n := FindName(payload.text);
    var i := 1;
    while i < |payload.text|
      invariant 1 <= i <= |payload.text| && Scanned(payload.text, i, n)
      decreases |payload.text|, |payload.text| - i
    {
      if payload.text[i] == QUOTE {
        NameScanned(payload.text, i, n);
        var done;
        done, ok := AtQuote(payload, i);
        if done { return ok, if ok then i else 0; }
        i := 1;
      } else {
        NoQuote(payload.text, i, n);
        i := i + 1;
      }
    }
    NameScanned(payload.text, i, n);
    return false, 0;
  }

  /** The scan from i on leads to n. */
  ghost predicate Scanned(p: seq<Byte>, i: nat, n: Named)
  {
    1 <= i <= |p| && NextQuote(p, 1) == NextQuote(p, i) && FindName(p) == n
  }

  lemma NoQuote(p: seq<Byte>, i: nat, n: Named)
    requires Scanned(p, i, n) && i < |p| && p[i] != QUOTE
    ensures Scanned(p, i + 1, n)
  {
  }

  /** What the next quote tells of the name. */
  lemma NameScanned(p: seq<Byte>, i: nat, n: Named)
    requires Scanned(p, i, n) && (i < |p| ==> p[i] == QUOTE)
    ensures |p| - i < 3 ==> n == Named(p, 0, false)
    ensures Closes(p, i) ==> n == Named(p, i, true)
    ensures |p| - i >= 3 && !Closes(p, i) ==> Scanned(p[i..], 1, n)
  {
    assert NextQuote(p, i) == i;
  }

  /** The next quote closes the name, or is too near the end, or is taken for a new opening quote. */
  method AtQuote(payload: StreamString, i: nat) returns (done: bool, ok: bool)
    requires i <= |payload.text|
    modifies payload
    ensures ok == Closes(old(payload.text), i) && done == (ok || |old(payload.text)| - i < |PATTERN|)
    ensures payload.text == if done then old(payload.text) else old(payload.text)[i..]
  {
    if |payload.text| - i < |PATTERN| { return true, false; }
    if payload.text[i..i + |PATTERN|] == PATTERN { return true, true; }
    payload.Consume(i);
    done, ok := false, false;
  }

  class Server {
    const c: Setup
    const memory: array<Byte>
    const memoryPrec: array<Byte>
    const changeFlag: array<bool>
    const pvMapping: array<Slot>
    /** Bytes of a record went to places outside the region of its PV. */
    ghost var strayed: bool

    ghost function State(): Receiver
      reads this`strayed, memory, memoryPrec, changeFlag, pvMapping
    {
      Receiver(Store(memory[..], memoryPrec[..], changeFlag[..], strayed), pvMapping[..])
    }

    ghost predicate Valid()
      reads this`strayed, memory, memoryPrec, changeFlag, pvMapping
    {
      memory != memoryPrec && GoodReceiver(c, State())
    }

    /** The buffers as the receiver starts with them: zeroed, no flag set, nothing cached. */
    constructor (setup: Setup)
      requires GoodSetup(setup)
      ensures Valid() && c == setup
      ensures fresh(memory) && fresh(memoryPrec) && fresh(changeFlag) && fresh(pvMapping)
      ensures State() == Receiver(Store(Zeros(setup.total), Zeros(setup.total), seq(|setup.pvs|, _ => false), false),
                                  seq(2 * |setup.pvs|, _ => Unset))
    {
      c := setup;
      memory := new Byte[setup.total](_ => 0);
      memoryPrec := new Byte[setup.total](_ => 0);
      changeFlag := new bool[|setup.pvs|](_ => false);
      pvMapping := new Slot[2 * |setup.pvs|](_ => Unset);
      strayed := false;
    }

    /** Overwrites part of a buffer. */
    method Copy(buffer: array<Byte>, at: nat, bytes: seq<Byte>)
      requires at + |bytes| <= buffer.Length
      modifies buffer
      ensures buffer[..] == Put(old(buffer[..]), at, bytes)
    {
      for k := 0 to |bytes|
        invariant forall j | 0 <= j < buffer.Length ::
          buffer[j] == if at <= j < at + k then bytes[j - at] else old(buffer[j])
      {
        buffer[at + k] := bytes[k];
      }
    }

    /** The header behind the name that ends at `end`. */
    method ReadHeader(payload: StreamString, end: nat) returns (h: Parsed)
      requires 1 <= end && end + 3 <= |payload.text|
      modifies payload
      ensures h == DiodeParser.ReadHeader(LimitsOf(c), old(payload.text), end, 0)
      ensures payload.text == h.left
    {
      var nameSize := end - 1;
      if nameSize > PV_NAME_MAX_SIZE {
        payload.Consume(nameSize);
        return Wait(payload.text);
      }
      var dataPtr := end + |PATTERN|;
      if |payload.text| - (nameSize + |PATTERN|) < 13 { return Wait(payload.text); }
      var f := FieldsAt(payload.text + [payload.At(|payload.text|)], dataPtr);
      if f.index >= |c.names| || f.size >= c.maxSize {
        payload.Consume(|payload.text|);
        return Wait(payload.text);
      }
      return Head(payload.text, nameSize, LookupName(payload.text[1..end]), f.index, f.typeId, f.size, f.offset);
    }

    /** Name and header of the first record in the payload. */
    method ReadVarNameAndIndex(payload: StreamString) returns (h: Parsed)
      modifies payload
      ensures h == DiodeParser.ReadVarNameAndIndex(LimitsOf(c), old(payload.text), 0)
      ensures payload.text == h.left
    {
      if |payload.text| == 0 { return Wait([]); }
      var ok := Synchronise(payload);
      if !ok { return Wait(payload.text); }
      var end: nat;
      ok, end := ScanName(payload);
      if !ok { return Wait(payload.text); }
      h := ReadHeader(payload, end);
    }

    /** The local index of a sender index, from the cache or by a search that is then cached. */
    method GetLocalIndex(receivedIndex: nat, varName: Name) returns (found: Option<nat>)
      requires Valid() && receivedIndex < |c.names|
      modifies pvMapping
      ensures Valid()
      ensures var res := Resolve(c.cmp, c.names, old(pvMapping[..]), receivedIndex, varName);
        found == res.found && pvMapping[..] == res.mapping
    {
      var slot := pvMapping[receivedIndex];
      if slot.Known? { return Some(slot.index); }
      var ok, index := GetLocalVariableIndex(c.cmp, c.names, varName);
      if ok {
        pvMapping[receivedIndex] := Known(index);
        return Some(index);
      }
      return None;
    }

    /** Copies a record's value to its place; what lies behind the buffer is not part of the model. */
    method CopyOver(at: nat, data: seq<Byte>)
      modifies memory
      ensures memory[..] == Overlaid(old(memory[..]), at, data)
    {
      var inside := if at >= memory.Length then 0 else if at
        + |data| <= memory.Length then |data| else memory.Length - at;
      Copy(memory, if inside == 0 then 0 else at, data[..inside]);
      assert inside == |data| ==> data[..inside] == data;
    }

    method CopyRecord(pv: Pv, r: Record)
      requires End(pv) <= memory.Length && |r.stamp| == STAMP
      modifies memory
      ensures memory[..] == Copied(pv, old(memory[..]), r)
    {
      CopyOver(pv.offset + r.offset, r.data);
      Copy(memory, pv.offset + pv.totalSize, r.stamp);
    }

    /** Writes a record's value, or has it converted when it does not fit. */
    method WriteValue(index: nat, pv: Pv, r: Record)
      requires KeepsSize(c.convert) && |r.stamp| == STAMP && End(pv) <= memory.Length
      modifies memory
      ensures memory[..] == Written(c.convert, index, pv, old(memory[..]), r)
    {
      if InBounds(pv, r) {
        CopyRecord(pv, r);
      } else if r.offset == 0 && r.typeId < NUMBER_OF_TYPES {
        var converted := c.convert(index, r.typeId, r.data, Value(pv, memory[..]));
        Copy(memory, pv.offset, converted);
      }
    }

    /** Compares a PV's value with its shadow copy; a difference raises its flag and is copied. */
    method TrackChange(index: nat, pv: Pv)
      requires index < changeFlag.Length && End(pv) <= memory.Length == memoryPrec.Length && memory != memoryPrec
      modifies memoryPrec, changeFlag
      ensures var value := Value(pv, memory[..]);
        if value == Value(pv, old(memoryPrec[..])) then
          memoryPrec[..] == old(memoryPrec[..]) && changeFlag[..] == old(changeFlag[..])
        else
          memoryPrec[..] == Put(old(memoryPrec[..]), pv.offset, value)
          && changeFlag[..] == old(changeFlag[..])[index := true]
    {
      var value := Value(pv, memory[..]);
      if value != Value(pv, memoryPrec[..]) {
        Copy(memoryPrec, pv.offset, value);
        changeFlag[index] := true;
      }
    }

    /** Stores one record for a local PV, keeps the shadow copy and raises the change flag. */
    method StoreRecord(index: nat, r: Record)
      requires Valid() && index < |c.pvs| && |r.stamp| == STAMP
      modifies memory, memoryPrec, changeFlag, this`strayed
      ensures Valid()
      ensures State().store == StoreOne(c, old(State().store), Some(index), r)
      ensures |r.data| < 0x1_0000_0000 ==> LeftBy(c.pvs, c.convert, old(State().store), State().store, index, r)
    {
      RegionsInOrder(c.pvs, c.total, index, |c.pvs|);
      WriteValue(index, c.pvs[index], r);
      strayed := strayed || Strays(c.pvs[index], r);
      TrackChange(index, c.pvs[index]);
      assert State().store == Update(c.pvs, c.convert, old(State().store), index, r);
      if |r.data| < 0x1_0000_0000 { UpdateLeaves(c.pvs, c.convert, old(State().store), index, r); }
    }

    /** Resolves the record's name, and stores and skips the record if it is complete. */
    method TakeRecord(payload: StreamString, h: Parsed) returns (ok: bool)
      requires Valid() && h.Head? && h.left == payload.text && h.index < |c.names|
      modifies payload, memory, memoryPrec, changeFlag, pvMapping, this`strayed
      ensures Valid()
      ensures var o := Take(h);
        ok == o.Consumed? && payload.text == o.rest && State() == Effect(c, old(State()), o)
    {
      ghost var was, o := State(), Take(h);
      ghost var res := Resolve(c.cmp, c.names, was.mapping, h.index, h.name);
      var found := GetLocalIndex(h.index, h.name);
      ok := |payload.text| >= Total(h);
      if ok {
        var at := h.nameSize + 17;
        var r := Record(h.name, h.index, h.typeId, h.offset,
                        payload.text[at..at + h.size], payload.text[at + h.size..at + h.size + 8]);
        assert o == Consumed(h.left[Total(h)..], [Looked(h.index, h.name)], r);
        if found.Some? { StoreRecord(found.value, r); }
        payload.Consume(Total(h));
        assert State() == Receiver(StoreOne(c, was.store, res.found, r), res.mapping);
      } else {
        assert State() == Receiver(was.store, res.mapping);
      }
      assert o.looked[0] == Looked(h.index, h.name);
    }

    /** One turn of the loop: a complete record at the head of the payload is stored and skipped. */
    method ConsumeRecord(payload: StreamString) returns (ok: bool)
      requires Valid()
      modifies payload, memory, memoryPrec, changeFlag, pvMapping, this`strayed
      ensures Valid()
      ensures var o := Step(LimitsOf(c), old(payload.text), 0);
        ok == o.Consumed? && payload.text == o.rest && State() == Effect(c, old(State()), o)
    {
      var h := ReadVarNameAndIndex(payload);
      if h.Wait? { return false; }
      ok := TakeRecord(payload, h);
    }

    /** The loop that consumes every complete record in the payload. */
    method ConsumeRecords(payload: StreamString)
      requires Valid() && SoundSteps(c, Stepping(LimitsOf(c)))
      modifies payload, memory, memoryPrec, changeFlag, pvMapping, this`strayed
      ensures Valid()
      ensures (State(), payload.text) == Consume(c, Stepping(LimitsOf(c)), old(State()), old(payload.text))
    {
      ghost var step := Stepping(LimitsOf(c));
      var ok := true;
      while ok
        invariant Valid()
        invariant Consume(c, step, old(State()), old(payload.text))
               == if ok then Consume(c, step, State(), payload.text) else (State(), payload.text)
        decreases ok, |payload.text|
      {
        ghost var o := step(payload.text);
        ok := ConsumeRecord(payload);
        assert ok == o.Consumed?;
      }
    }

    /** Hands out the memory and the change flags, and clears the flags. */
    method Snapshot(memoryOut: array<Byte>, changedFlags: array<bool>)
      requires Valid() && memoryOut.Length == memory.Length && changedFlags.Length == changeFlag.Length
      requires memoryOut != memory && memoryOut != memoryPrec && changedFlags != changeFlag
      modifies memoryOut, changedFlags, changeFlag
      ensures Valid() && State() == Receiver(Cleared(old(State().store)), old(State().mapping))
      ensures memoryOut[..] == old(memory[..]) && changedFlags[..] == old(changeFlag[..])
    {
      forall k | 0 <= k < memory.Length { memoryOut[k] := memory[k]; }
      forall k | 0 <= k < changeFlag.Length { changedFlags[k] := changeFlag[k]; }
      forall k | 0 <= k < changeFlag.Length { changeFlag[k] := false; }
      assert memoryOut[..] == memory[..] == old(memory[..]);
    }

    /** The service of one request: its body is read piece by piece, and after every piece all
        complete records are consumed. `other` is what the size conversion makes of lines that are
        no hexadecimal numbers. */
    method ClientService(socket: Socket, contentLength: Option<nat>, other: Fallback) returns (err: bool)
      requires Valid() && SoundSteps(c, Stepping(LimitsOf(c)))
      modifies socket, memory, memoryPrec, changeFlag, pvMapping, this`strayed
      ensures Valid()
      ensures var body := old(socket.input);
        var t := if contentLength.None? then Chunked(other, body) else Counted(contentLength.value, PIECE, body);
        && err == !t.ok && (!err ==> socket.input == t.left)
        && State() == Serve(c, Stepping(LimitsOf(c)), old(State()), [], t.pieces).0
    {
      var payload := new StreamString();
      if contentLength.None? {
        err := ServeChunks(socket, payload, other);
      } else {
        err := ServeCounted(socket, payload, contentLength.value);
      }
    }

    method ServeChunks(socket: Socket, payload: StreamString, other: Fallback) returns (err: bool)
      requires Valid() && SoundSteps(c, Stepping(LimitsOf(c)))
      modifies socket, payload, memory, memoryPrec, changeFlag, pvMapping, this`strayed
      ensures Valid()
      ensures var t := Chunked(other, old(socket.input));
        && err == !t.ok && (!err ==> socket.input == t.left)
        && State() == Serve(c, Stepping(LimitsOf(c)), old(State()), old(payload.text), t.pieces).0
    {
      ghost var step, t := Stepping(LimitsOf(c)), Chunked(other, socket.input);
      ghost var result := Serve(c, step, State(), payload.text, t.pieces).0;
      err := false;
      var chunkSize: nat := 1;
      while chunkSize > 0 && !err
        invariant Valid()
        invariant err ==> !t.ok && State() == result
        invariant !err && chunkSize > 0 ==>
          var t' := Chunked(other, socket.input);
          t'.ok == t.ok && t'.left == t.left && Serve(c, step, State(), payload.text, t'.pieces).0 == result
        invariant !err && chunkSize == 0 ==>
          State() == result && t.ok == Closed(socket.input).ok && t.left == Closed(socket.input).left
        decreases !err, |socket.input|, chunkSize
      {
        err, chunkSize := ReadNewChunk(socket, payload, other);
        if !err && chunkSize > 0 { ConsumeRecords(payload); }
      }
      if !err {
        ghost var closing := socket.input;
        assert t.ok == Closed(closing).ok && t.left == Closed(closing).left;
        var line: seq<Byte>;
        err, line := socket.GetLine();
        assert err == !Closed(closing).ok;
        assert !err ==> socket.input == Closed(closing).left;
      }
    }

    method ServeCounted(socket: Socket, payload: StreamString, length: nat) returns (err: bool)
      requires Valid() && SoundSteps(c, Stepping(LimitsOf(c)))
      modifies socket, payload, memory, memoryPrec, changeFlag, pvMapping, this`strayed
      ensures Valid()
      ensures var t := Counted(length, PIECE, old(socket.input));
        && err == !t.ok && (!err ==> socket.input == t.left)
        && State() == Serve(c, Stepping(LimitsOf(c)), old(State()), old(payload.text), t.pieces).0
    {
      ghost var step, t := Stepping(LimitsOf(c)), Counted(length, PIECE, socket.input);
      ghost var result := Serve(c, step, State(), payload.text, t.pieces).0;
      err := false;
      var chunkSize: nat, left: nat := PIECE, length;
      while chunkSize > 0 && !err
        invariant Valid()
        invariant err ==> !t.ok && State() == result
        invariant !err && chunkSize > 0 ==>
          Ahead(c, State(), payload.text, Counted(left, chunkSize, socket.input), t, result)
        invariant !err && chunkSize == 0 ==> t.ok && t.left == socket.input && State() == result
        decreases left, chunkSize, !err
      {
        err, left, chunkSize := ServePiece(socket, payload, left, chunkSize, t, result);
      }
    }

    method ServePiece(socket: Socket, payload: StreamString, length: nat, piece: nat, ghost t: Transfer,
                      ghost result: Receiver)
      returns (err: bool, left: nat, chunkSize: nat)
      requires Valid() && SoundSteps(c, Stepping(LimitsOf(c))) && piece > 0
      requires Ahead(c, State(), payload.text, Counted(length, piece, socket.input), t, result)
      modifies socket, payload, memory, memoryPrec, changeFlag, pvMapping, this`strayed
      ensures Valid() && left <= length && (left < length || chunkSize < piece)
      ensures err ==> !t.ok && State() == result
      ensures !err && chunkSize > 0 ==>
        Ahead(c, State(), payload.text, Counted(left, chunkSize, socket.input), t, result)
      ensures !err && chunkSize == 0 ==> t.ok && t.left == socket.input && State() == result
    {
      ghost var next := PieceServed(c, State(), payload.text, length, piece, socket.input, t, result);
      chunkSize := if length < piece then length else piece;
      left := length - chunkSize;
      err := ReadBytes(socket, payload, chunkSize);
      if !err && chunkSize > 0 {
        ConsumeAhead(payload, next, t, result);
      }
    }

    method ConsumeAhead(payload: StreamString, ghost next: Transfer, ghost t: Transfer, ghost result: Receiver)
      requires Valid() && SoundSteps(c, Stepping(LimitsOf(c)))
      requires AheadAfter(c, State(), payload.text, next, t, result)
      modifies payload, memory, memoryPrec, changeFlag, pvMapping, this`strayed
      ensures Valid() && Ahead(c, State(), payload.text, next, t, result)
    {
      ConsumeRecords(payload);
    }
  }

  /** Serving what is still to be read leads to the same end. */
  ghost predicate Ahead(c: Setup, rc: Receiver, payload: seq<Byte>, now: Transfer, t: Transfer, result: Receiver)
    requires GoodReceiver(c, rc) && SoundSteps(c, Stepping(LimitsOf(c)))
  {
    && now.ok == t.ok && now.left == t.left
    && Serve(c, Stepping(LimitsOf(c)), rc, payload, now.pieces).0 == result
  }

  /** It does so once the records in the payload are consumed. */
  ghost predicate AheadAfter(c: Setup, rc: Receiver, payload: seq<Byte>, now: Transfer, t: Transfer, result: Receiver)
    requires GoodReceiver(c, rc) && SoundSteps(c, Stepping(LimitsOf(c)))
  {
    var r := Consume(c, Stepping(LimitsOf(c)), rc, payload);
    Ahead(c, r.0, r.1, now, t, result)
  }

  lemma FirstServed(c: Setup, rc: Receiver, payload: seq<Byte>, x: seq<Byte>, later: Transfer)
    requires GoodReceiver(c, rc) && SoundSteps(c, Stepping(LimitsOf(c)))
    ensures var r := Consume(c, Stepping(LimitsOf(c)), rc, payload + x);
      Serve(c, Stepping(LimitsOf(c)), rc, payload, Prepend(x, later).pieces)
        == Serve(c, Stepping(LimitsOf(c)), r.0, r.1, later.pieces)
  {
    var pieces := Prepend(x, later).pieces;
    assert pieces[0] == x && pieces[1..] == later.pieces;
  }

  /** One piece of a counted body: it is served, or the body is at its end, or the socket is. */
  lemma PieceServed(c: Setup, rc: Receiver, payload: seq<Byte>, length: nat, piece: nat, s: seq<Byte>,
                    t: Transfer, result: Receiver)
    returns (next: Transfer)
    requires GoodReceiver(c, rc) && SoundSteps(c, Stepping(LimitsOf(c))) && piece > 0
    requires Ahead(c, rc, payload, Counted(length, piece, s), t, result)
    ensures var size := if length < piece then length else piece;
      if size == 0 then t.ok && t.left == s && rc == result
      else if size > |s| then !t.ok && rc == result
      else
        next == Counted(length - size, size, s[size..]) && AheadAfter(c, rc, payload + s[..size], next, t, result)
  {
    var size := if length < piece then length else piece;
    next := t;
    if 0 < size <= |s| {
      OnePieceAhead(length, piece, s);
      next := Counted(length - size, size, s[size..]);
      FirstServed(c, rc, payload, s[..size], next);
    }
  }
}
