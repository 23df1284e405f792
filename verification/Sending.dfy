/** What a pool thread writes: the PVs of the share it claimed, from the copies the cycle loop made,
    as the records of Records, one body per request. */
module Sending {
  import opened Bytes
  import opened Circular
  import opened Records
  import opened Ring
  import opened Slices

  /** A PV as the sender knows it; `total` is its number of elements times their size, zero if it is
      not connected, and `offset` the place of its value in the copied memory. */
  datatype Descriptor = Descriptor(name: Name, typeId: Byte, total: nat, offset: nat)

  function Totals(pvs: seq<Descriptor>): (t: seq<nat>)
    ensures |t| == |pvs| && forall i | 0 <= i < |pvs| :: t[i] == pvs[i].total
  {
    seq(|pvs|, i requires 0 <= i < |pvs| => pvs[i].total)
  }

  /** Every connected PV has its value and its timestamp inside the memory, and words hold the
      numbers. */
  predicate Sendable(pvs: seq<Descriptor>, memory: nat)
  {
    |pvs| <= 0x1_0000_0000 &&
    forall i | 0 <= i < |pvs| && pvs[i].total > 0 ::
      pvs[i].offset + pvs[i].total + STAMP <= memory < 0x1_0000_0000
  }

  predicate Inside(pvs: seq<Descriptor>, p: Piece)
  {
    p.pv < |pvs| && pvs[p.pv].total > 0 && p.offset + p.size <= pvs[p.pv].total
  }

  function RecordOf(pvs: seq<Descriptor>, memory: seq<Byte>, p: Piece): (r: Record)
    requires Sendable(pvs, |memory|) && Inside(pvs, p)
    ensures |r.data| == p.size && |r.stamp| == 8
  {
    var d := pvs[p.pv];
    var at := d.offset + p.offset;
    Record(d.name, p.pv, d.typeId, p.offset, memory[at..at + p.size],
      memory[d.offset + d.total..d.offset + d.total + STAMP])
  }

  predicate AllInside(pvs: seq<Descriptor>, ps: seq<Piece>)
  {
    forall i | 0 <= i < |ps| :: Inside(pvs, ps[i])
  }

  /** The bytes of one record. */
  function Writer(pvs: seq<Descriptor>, memory: seq<Byte>): Piece -> seq<Byte>
  {
    (p: Piece) => if Sendable(pvs, |memory|) && Inside(pvs, p) then Encode(RecordOf(pvs, memory, p)) else []
  }

  /** The body of a request with these records. */
  function Body(writer: Piece -> seq<Byte>, ps: seq<Piece>): seq<Byte>
  {
    if ps == [] then [] else writer(ps[0]) + Body(writer, ps[1..])
  }

  lemma {:induction false} BodyJoins(writer: Piece -> seq<Byte>, a: seq<Piece>, b: seq<Piece>)
    ensures Body(writer, a + b) == Body(writer, a) + Body(writer, b)
  {
    if a == [] {
      assert a + b == b;
    } else {
      BodyJoins(writer, a[1..], b);
      assert (a + b)[1..] == a[1..] + b;
      assert (a + b)[0] == a[0];
    }
  }

  lemma {:induction false} FragmentsInside(pvs: seq<Descriptor>, pv: nat, off: nat, i: nat, quota: nat, max: nat)
    requires pv < |pvs| && pvs[pv].total > 0
    ensures AllInside(pvs, Fragments(pv, pvs[pv].total, off, i, quota, max).0)
    decreases quota - i
  {
    var total := pvs[pv].total;
    if off < total && i < quota && i + 1 < quota {
      FragmentsInside(pvs, pv, off + Min(total - off, max), i + 1, quota, max);
    }
  }

  lemma {:induction false} RequestInside(pvs: seq<Descriptor>, share: seq<nat>, k: nat, off: nat, i: nat, max: nat)
    requires k <= |share| && i <= |share| && forall j | 0 <= j < |share| :: share[j] < |pvs|
    ensures AllInside(pvs, Request(share, Totals(pvs), k, off, i, max).pieces)
    decreases |share| - k
  {
    if k < |share| && i < |share| {
      var total := pvs[share[k]].total;
      if total == 0 {
        RequestInside(pvs, share, k + 1, off, i + 1, max);
      } else {
        FragmentsInside(pvs, share[k], off, i, |share|, max);
        var f := Fragments(share[k], total, off, i, |share|, max);
        RequestInside(pvs, share, k + 1, if f.1 >= total then 0 else f.1, f.2, max);
      }
    }
  }

  /** The bodies of all the requests of a share. */
  function Bodies(writer: Piece -> seq<Byte>, requests: seq<seq<Piece>>): seq<seq<Byte>>
  {
    if requests == [] then [] else [Body(writer, requests[0])] + Bodies(writer, requests[1..])
  }

  /** Writes to the stream, which may fail after any part of the bytes. */
  method Write(buffer: seq<Byte>, bytes: seq<Byte>) returns (written: seq<Byte>, err: bool)
    ensures !err ==> written == buffer + bytes
    ensures err ==> Part(written, buffer, bytes)
  {
    err := *;
    written := buffer + bytes;
    if err {
      assert 0 <= |bytes|;
      var k :| 0 <= k <= |bytes|;
      written := buffer + bytes[..k];
    }
  }

  /** Some of the bytes have been written behind the buffer. */
  ghost predicate Part(written: seq<Byte>, buffer: seq<Byte>, bytes: seq<Byte>)
  {
    exists k | 0 <= k <= |bytes| :: written == buffer + bytes[..k]
  }

  /** What is part of the first bytes is part of them all, and so is what is part of the later ones behind the
      first. */
  lemma PartOfMore(written: seq<Byte>, buffer: seq<Byte>, a: seq<Byte>, b: seq<Byte>)
    ensures Part(written, buffer, a) ==> Part(written, buffer, a + b)
    ensures Part(written, buffer + a, b) ==> Part(written, buffer, a + b)
  {
    if Part(written, buffer, a) {
      var k :| 0 <= k <= |a| && written == buffer + a[..k];
      assert (a + b)[..k] == a[..k];
    }
    if Part(written, buffer + a, b) {
      var k :| 0 <= k <= |b| && written == buffer + a + b[..k];
      assert (a + b)[..|a| + k] == a + b[..k];
      assert buffer + (a + b[..k]) == buffer + a + b[..k];
    }
  }

  lemma PartOfSame(written: seq<Byte>, buffer: seq<Byte>, bytes: seq<Byte>, now: seq<Byte>, rest: seq<Byte>)
    requires buffer + bytes == now + rest && |buffer| <= |now| && Part(written, now, rest)
    ensures Part(written, buffer, bytes)
  {
    var k :| 0 <= k <= |rest| && written == now + rest[..k];
    assert |buffer + bytes| == |now + rest|;
    var n := |now| + k - |buffer|;
    assert written == (now + rest)[..|now| + k];
    assert (buffer + bytes)[..|buffer| + n] == buffer + bytes[..n];
  }

  /** One record of a PV; the offset moves on unless the record fills the quota or its writing fails. */
  method WriteFragment(pv: nat, totalSize: nat, off: nat, i: nat, quota: nat, max: nat, writer: Piece -> seq<Byte>,
                       buffer: seq<Byte>)
    returns (written: seq<Byte>, varOffset: nat, err: bool)
    requires off < totalSize && i < quota
    ensures var f, g := Fragments(pv, totalSize, off, i, quota, max),
      Fragments(pv, totalSize, varOffset, i + 1, quota, max);
      if err then Part(written, buffer, Body(writer, f.0))
      else f.1 == g.1 && f.2 == g.2 && buffer + Body(writer, f.0) == written + Body(writer, g.0)
    ensures |buffer| <= |written|
  {
    FragmentsOnce(pv, totalSize, off, i, quota, max);
    ghost var f := Fragments(pv, totalSize, off, i, quota, max);
    var actualSize := if totalSize - off < max then totalSize - off else max;
    written, err := Write(buffer, writer(Piece(pv, off, actualSize)));
    PartOfMore(written, buffer, writer(Piece(pv, off, actualSize)), Body(writer, f.0[1..]));
    BodyOnce(writer, buffer + Body(writer, f.0), buffer, f.0);
    varOffset := off;
    if i + 1 < quota && !err { varOffset := off + actualSize; }
  }

  /** The records of one PV, until it is written, the request's quota is used up, or a write fails. */
  method WriteFragments(pv: nat, totalSize: nat, off: nat, count: nat, quota: nat, max: nat, writer: Piece -> seq<Byte>,
                        buffer: seq<Byte>)
    returns (written: seq<Byte>, varOffset: nat, i: nat, err: bool)
    requires count < quota
    ensures var f := Fragments(pv, totalSize, off, count, quota, max);
      if err then Part(written, buffer, Body(writer, f.0))
      else written == buffer + Body(writer, f.0) && varOffset == f.1 && i == f.2
    ensures |buffer| <= |written|
  {
    ghost var f := Fragments(pv, totalSize, off, count, quota, max);
    ghost var rest := f;
    written, varOffset, i, err := buffer, off, count, false;
    while varOffset < totalSize && i < quota && !err
      invariant i <= quota && |buffer| <= |written|
      invariant err ==> Part(written, buffer, Body(writer, f.0))
      invariant !err ==> rest == Fragments(pv, totalSize, varOffset, i, quota, max)
      invariant !err ==>
        rest.1 == f.1 && rest.2 == f.2 && buffer + Body(writer, f.0) == written + Body(writer, rest.0)
      decreases quota - i
    {
      ghost var was, left := written, rest;
      written, varOffset, err := WriteFragment(pv, totalSize, varOffset, i, quota, max, writer, written);
      if err { PartOfSame(written, buffer, Body(writer, f.0), was, Body(writer, left.0)); }
      i := i + 1;
      rest := Fragments(pv, totalSize, varOffset, i, quota, max);
    }
  }

  /** The share claimed at a place of the circular list. */
  ghost function ShareAt(indexList: seq<nat>, first: nat, quota: nat): (s: seq<nat>)
    requires first < |indexList| && quota <= |indexList|
    ensures |s| == quota
  {
    Rotate(indexList, first)[..quota]
  }

  /** The k-th PV of the share, by its place in the circular list. */
  method NextPv(indexList: array<nat>, first: nat, k: nat, quota: nat) returns (signalIndex: nat)
    requires first < indexList.Length && k < quota <= indexList.Length
    ensures signalIndex == ShareAt(indexList[..], first, quota)[k]
  {
    RotateAt(indexList[..], first, k);
    TurnIsRemainder(first + k, indexList.Length);
    signalIndex := indexList[(first + k) % indexList.Length];
  }

  /** The k-th PV of the share: what is left to write is the request from the next one on. */
  method WritePv(ghost share: seq<nat>, k: nat, signalIndex: nat, totals: seq<nat>, off: nat, count: nat, quota: nat,
                 max: nat, writer: Piece -> seq<Byte>, buffer: seq<Byte>)
    returns (written: seq<Byte>, varOffset: nat, i: nat, err: bool)
    requires k < |share| == quota && share[k] == signalIndex && count < quota
    requires forall j | 0 <= j < |share| :: share[j] < |totals|
    ensures |buffer| <= |written| && (!err ==> count <= i <= quota)
    ensures var w := Request(share, totals, k, off, count, max);
      if err then Part(written, buffer, Body(writer, w.pieces))
      else
        var v := Request(share, totals, k + 1, varOffset, i, max);
        w.k == v.k && w.off == v.off && buffer + Body(writer, w.pieces) == written + Body(writer, v.pieces)
  {
    RequestOnce(share, totals, k, off, count, max, writer);
    var totalSize := totals[signalIndex];
    if totalSize > 0 {
      written, varOffset, i, err := WriteFragments(signalIndex, totalSize, off, count, quota, max, writer, buffer);
      ghost var f := Fragments(signalIndex, totalSize, off, count, quota, max);
      ghost var v := Request(share, totals, k + 1, if f.1 >= totalSize then 0 else f.1, f.2, max);
      PartOfMore(written, buffer, Body(writer, f.0), Body(writer, v.pieces));
      if varOffset >= totalSize { varOffset := 0; }
    } else {
      written, varOffset, i, err := buffer, off, count + 1, false;
    }
  }

  /** One request, from the k-th PV of the share on. */
  method WriteRequest(indexList: array<nat>, first: nat, k: nat, totals: seq<nat>, off: nat, quota: nat, max: nat,
                      writer: Piece -> seq<Byte>)
    returns (body: seq<Byte>, cntVariables: nat, varOffset: nat, err: bool)
    requires first < indexList.Length && k < quota <= indexList.Length
    requires forall j | 0 <= j < indexList.Length :: indexList[j] < |totals|
    ensures k < cntVariables <= quota
    ensures var w := Request(ShareAt(indexList[..], first, quota), totals, k, off, 0, max);
      if err then Part(body, [], Body(writer, w.pieces))
      else body == Body(writer, w.pieces) && cntVariables == w.k && varOffset == w.off
  {
    ghost var share := ShareAt(indexList[..], first, quota);
    ghost var w := Request(share, totals, k, off, 0, max);
    ghost var rest := w;
    var i: nat := 0;
    body, cntVariables, varOffset, err := [], k, off, false;
    while i < quota && cntVariables < quota && !err
      invariant k <= cntVariables <= quota && (!err ==> i <= quota) && (k == cntVariables ==> i == 0 && !err)
      invariant err ==> Part(body, [], Body(writer, w.pieces))
      invariant !err ==> rest == Request(share, totals, cntVariables, varOffset, i, max)
      invariant !err ==>
        rest.k == w.k && rest.off == w.off && Body(writer, w.pieces) == body + Body(writer, rest.pieces)
      decreases quota - cntVariables
    {
      var signalIndex := NextPv(indexList, first, cntVariables, quota);
      ghost var was, left := body, rest;
      body, varOffset, i, err :=
        WritePv(share, cntVariables, signalIndex, totals, varOffset, i, quota, max, writer, body);
      cntVariables := cntVariables + 1;
      if err {
        PartOfSame(body, [], Body(writer, w.pieces), was, Body(writer, left.pieces));
      } else {
        rest := Request(share, totals, cntVariables, varOffset, i, max);
      }
    }
  }

  /** What the first PV of a request adds to it. */
  lemma RequestOnce(share: seq<nat>, totals: seq<nat>, k: nat, off: nat, i: nat, max: nat, writer: Piece -> seq<Byte>)
    requires k < |share| && i < |share| && forall j | 0 <= j < |share| :: share[j] < |totals|
    ensures var total := totals[share[k]];
      var f := if total == 0 then ([], off, i + 1) else Fragments(share[k], total, off, i, |share|, max);
      var w, v := Request(share, totals, k, off, i, max),
        Request(share, totals, k + 1, if total > 0 && f.1 >= total then 0 else f.1, f.2, max);
      w.k == v.k && w.off == v.off && Body(writer, w.pieces) == Body(writer, f.0) + Body(writer, v.pieces)
  {
    var total := totals[share[k]];
    if total > 0 {
      var f := Fragments(share[k], total, off, i, |share|, max);
      BodyJoins(writer, f.0, Request(share, totals, k + 1, if f.1 >= total then 0 else f.1, f.2, max).pieces);
    }
  }

  /** Requests have been written, the last one perhaps in part. */
  ghost predicate PartOfAll(bodies: seq<seq<Byte>>, all: seq<seq<Byte>>)
  {
    && 0 < |bodies| <= |all| && bodies[..|bodies| - 1] == all[..|bodies| - 1]
    && Part(bodies[|bodies| - 1], [], all[|bodies| - 1])
  }

  /** All the requests of a thread for the share it claimed. When a write fails, it ends there: what was
      written is the requests up to then and part of the one it failed in. */
  method SendVariables(indexListThreads: array<nat>, listIndex: nat, nVarsPerThread: nat, totals: seq<nat>,
                       maxVarSize: nat, writer: Piece -> seq<Byte>)
    returns (bodies: seq<seq<Byte>>, err: bool)
    requires listIndex < indexListThreads.Length && nVarsPerThread <= indexListThreads.Length
    requires forall j | 0 <= j < indexListThreads.Length :: indexListThreads[j] < |totals|
    ensures var all := Bodies(writer,
      Requests(ShareAt(indexListThreads[..], listIndex, nVarsPerThread), totals, 0, 0, maxVarSize));
      if err then PartOfAll(bodies, all) else bodies == all
  {
    ghost var share := ShareAt(indexListThreads[..], listIndex, nVarsPerThread);
    ghost var later := Bodies(writer, Requests(share, totals, 0, 0, maxVarSize));
    ghost var all := later;
    bodies, err := [], false;
    var cntVariables: nat, varOffset: nat := 0, 0;
    while cntVariables < nVarsPerThread && !err
      invariant cntVariables <= nVarsPerThread
      invariant err ==> PartOfAll(bodies, all)
      invariant !err ==> all == bodies + later
      invariant !err ==> later == Bodies(writer, Requests(share, totals, cntVariables, varOffset, maxVarSize))
      decreases nVarsPerThread - cntVariables
    {
      var body;
      body, cntVariables, varOffset, err, later := SendRequest(indexListThreads, listIndex, cntVariables, totals,
        varOffset, nVarsPerThread, maxVarSize, writer, later);
      MoreSent(bodies, body, err, later, all);
      bodies := bodies + [body];
    }
  }

  /** The next request; `rest` is what is to be sent after it. */
  method SendRequest(indexList: array<nat>, first: nat, k: nat, totals: seq<nat>, off: nat, quota: nat, max: nat,
                     writer: Piece -> seq<Byte>, ghost later: seq<seq<Byte>>)
    returns (body: seq<Byte>, cntVariables: nat, varOffset: nat, err: bool, ghost rest: seq<seq<Byte>>)
    requires first < indexList.Length && k < quota <= indexList.Length
    requires forall j | 0 <= j < indexList.Length :: indexList[j] < |totals|
    requires later == Bodies(writer, Requests(ShareAt(indexList[..], first, quota), totals, k, off, max))
    ensures k < cntVariables <= quota && later != [] && rest == later[1..]
    ensures if err then Part(body, [], later[0])
      else
        && body == later[0]
        && rest == Bodies(writer, Requests(ShareAt(indexList[..], first, quota), totals, cntVariables, varOffset, max))
  {
    RequestsOnce(ShareAt(indexList[..], first, quota), totals, k, off, max, writer);
    body, cntVariables, varOffset, err := WriteRequest(indexList, first, k, totals, off, quota, max, writer);
    rest := later[1..];
  }

  lemma MoreSent(bodies: seq<seq<Byte>>, body: seq<Byte>, err: bool, rest: seq<seq<Byte>>, all: seq<seq<Byte>>)
    requires |bodies| < |all| && all[..|bodies|] == bodies && rest == all[|bodies| + 1..]
    requires if err then Part(body, [], all[|bodies|]) else body == all[|bodies|]
    ensures if err then PartOfAll(bodies + [body], all) else all == bodies + [body] + rest
  {
    assert (bodies + [body])[..|bodies|] == bodies;
  }

  lemma {:induction false} RequestsOnce(share: seq<nat>, totals: seq<nat>, k: nat, off: nat, max: nat,
                                        writer: Piece -> seq<Byte>)
    requires k < |share| && forall j | 0 <= j < |share| :: share[j] < |totals|
    ensures var w := Request(share, totals, k, off, 0, max);
      Bodies(writer, Requests(share, totals, k, off, max))
        == [Body(writer, w.pieces)] + Bodies(writer, Requests(share, totals, w.k, w.off, max))
  {
    var w := Request(share, totals, k, off, 0, max);
    var rs := Requests(share, totals, k, off, max);
    assert rs[1..] == Requests(share, totals, w.k, w.off, max);
  }

  lemma {:induction false} BodyOnce(writer: Piece -> seq<Byte>, all: seq<Byte>, written: seq<Byte>, rest: seq<Piece>)
    requires rest != [] && all == written + Body(writer, rest)
    ensures all == (written + writer(rest[0])) + Body(writer, rest[1..])
  {
  }

  lemma FragmentsOnce(pv: nat, total: nat, off: nat, i: nat, quota: nat, max: nat)
    requires off < total && i < quota
    ensures var actual := Min(total - off, max);
      var f := Fragments(pv, total, off, i, quota, max);
      && f.0 != [] && f.0[0] == Piece(pv, off, actual)
      && var g := Fragments(pv, total, if i + 1 < quota then off + actual else off, i + 1, quota, max);
         f.0[1..] == g.0 && f.1 == g.1 && f.2 == g.2
  {
    var actual := Min(total - off, max);
    var f := Fragments(pv, total, off, i, quota, max);
    if i + 1 < quota {
      assert f.0[1..] == Fragments(pv, total, off + actual, i + 1, quota, max).0;
    } else {
      assert f.0[1..] == [];
    }
  }

  // ----- the share in the circular list

  /** What a thread finds in the circular list from the cursor on is the share Slices gives it. */
  lemma {:induction false} ClaimedShare(list: seq<nat>, start: nat, vars: nat, threads: nat, order: seq<nat>, t: nat)
    requires 0 < threads && start < |list| && vars <= |list| && ClaimOrder(order + [t], threads)
    ensures Quota(vars, threads, t) <= |list|
    ensures ShareAt(list, Turn(start + Claimed(vars, threads, order), |list|), Quota(vars, threads, t))
         == Share(Rotate(list, start), vars, threads, order + [t], |order|)
  {
    CursorMoves(start, vars, threads, order, t, |list|);
    assert (order + [t])[..|order|] == order;
    ShareFrom(list, start, Claimed(vars, threads, order), Quota(vars, threads, t));
  }

  lemma ShareFrom(list: seq<nat>, start: nat, done: nat, quota: nat)
    requires start < |list| && done + quota <= |list|
    ensures ShareAt(list, Turn(start + done, |list|), quota) == Rotate(list, start)[done..done + quota]
  {
    RotateOn(list, start, done);
    var ring := Rotate(list, start);
    assert Rotate(ring, done)[..quota] == ring[done..done + quota];
  }
}
