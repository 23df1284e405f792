/** How the change window and the count of first-in-first-out cycles go over runs: when the sender turns to what has
    changed, what it then sends first, and how the window empties. */
module Windows {
  import opened Ring
  import opened SizeOrder
  import W = Waiting

  /** No pool thread reconnects. */
  ghost predicate Undisturbed(es: seq<Input>)
  {
    forall i | 0 <= i < |es| :: !es[i].resetDuring && !es[i].resetAfter
  }

  /** After every cycle the window leaves room for a whole cycle's PVs. */
  lemma WindowStaysShort(c: Config, s: Sched, read: nat, flags: seq<bool>, sends: nat)
    requires Good(c, s) && |flags| == c.n
    ensures Prepare(c, s, read, flags, sends).s.pend <= c.n - c.m
  {
  }

  lemma OneCounted(c: Config, r: Run, e: Input)
    requires Kept(c, r) && GoodInput(c, e) && !e.resetDuring && !e.resetAfter
    requires r.s.pend <= c.n - c.m && r.s.chunk < c.chunks && r.sends < c.reset
    ensures Cycle(c, r, e).s.chunk == r.s.chunk + 1 && Cycle(c, r, e).s.pend <= c.n - c.m
  {
  }

  /** Cycles are counted, one by one, until there have been as many as go round; those are all first-in-first-out. */
  lemma {:induction false} CyclesAreCounted(c: Config, r: Run, es: seq<Input>)
    requires Kept(c, r) && W.AllGood(c, es) && Undisturbed(es) && r.s.pend <= c.n - c.m
    requires r.s.chunk + |es| <= c.chunks && r.sends + |es| <= c.reset
    ensures W.After(c, r, es).s.chunk == r.s.chunk + |es| && W.After(c, r, es).s.pend <= c.n - c.m
    ensures W.Fifo(c, r, es)
    decreases |es|
  {
    if es != [] {
      CycleKeeps(c, r, es[0]);
      OneCounted(c, r, es[0]);
      CyclesAreCounted(c, Cycle(c, r, es[0]), es[1..]);
    }
  }

  /** A pool thread that reconnects, before the window is shrunk or after, sets the count back: the cycles after it are
      first-in-first-out again until all but one of numberOfChunks have been counted. */
  lemma ReconnectStartsOver(c: Config, r: Run, e: Input, es: seq<Input>)
    requires Kept(c, r) && GoodInput(c, e) && (e.resetDuring || e.resetAfter)
    requires W.AllGood(c, es) && Undisturbed(es) && |es| < c.chunks && r.sends + 1 + |es| <= c.reset
    ensures Kept(c, Cycle(c, r, e)) && W.Fifo(c, Cycle(c, r, e), es)
  {
    CycleKeeps(c, r, e);
    SetBack(c, r, e);
    CyclesAreCounted(c, Cycle(c, r, e), es);
  }

  lemma SetBack(c: Config, r: Run, e: Input)
    requires Kept(c, r) && GoodInput(c, e) && (e.resetDuring || e.resetAfter)
    ensures var r' := Cycle(c, r, e);
      r'.s.pend <= c.n - c.m && r'.s.chunk <= (if e.resetAfter then 0 else 1) && r'.sends == r.sends + 1
  {
  }

  /** The next cycle sorts: from an empty window it puts the flagged PVs first, all of them and no others, and
      so dispatches flagged ones as long as there are any. */
  lemma ThenChangesGoFirst(c: Config, r: Run, es: seq<Input>, e: Input)
    requires Kept(c, r) && W.AllGood(c, es) && Undisturbed(es) && GoodInput(c, e) && !e.resetDuring
    requires r.s.chunk + |es| == c.chunks && r.sends + |es| <= c.reset && r.s.pend <= c.n - c.m
    requires W.After(c, r, es).s.pend == 0
    ensures var now := W.After(c, r, es);
      var p := PreparedBy(c, now.s, now.sends, e);
      forall j, k | 0 <= j < k < c.n :: p.s.ring[j] < c.n && p.s.ring[k] < c.n
        && (e.flags[p.s.ring[k]] ==> e.flags[p.s.ring[j]])
  {
    CyclesAreCounted(c, r, es);
    var now := W.After(c, r, es);
    FromEmptyWindow(e.flags, now.s.sizes, now.s.ring);
  }

  // ----- quiet cycles

  /** Nothing changes in these cycles. */
  ghost predicate Quiet(c: Config, es: seq<Input>)
    requires W.AllGood(c, es)
  {
    forall i, k | 0 <= i < |es| && 0 <= k < c.n :: |es[i].flags| == c.n && !es[i].flags[k]
  }

  lemma {:induction false} NothingToTake(flags: seq<bool>, sizes: seq<nat>, ring: seq<nat>, pend: nat, i: nat)
    requires |ring| == |sizes| > 0 && i <= |ring| && forall k | 0 <= k < |ring| :: ring[k] < |flags|
    requires forall k | 0 <= k < |flags| :: !flags[k]
    ensures SortPass(flags, sizes, ring, pend, i) == (ring, pend)
    decreases |ring| - i
  {
    if i < |ring| { NothingToTake(flags, sizes, ring, pend, i + 1); }
  }

  function Less(a: nat, b: nat): nat { if a > b then a - b else 0 }

  lemma QuietCycle(c: Config, r: Run, e: Input)
    requires Kept(c, r) && GoodInput(c, e) && !e.resetDuring && !e.resetAfter && !c.onlyChanged
    requires (forall k | 0 <= k < c.n :: !e.flags[k]) && W.Grants(c, r.s.sizes, c.m)
    requires r.s.pend <= c.n - c.m && r.s.chunk >= c.chunks && r.sends < c.reset
    ensures var p, r' := PreparedBy(c, r.s, r.sends, e), Cycle(c, r, e);
      && p.sending == c.m && p.s.ring == r.s.ring && W.Grants(c, r'.s.sizes, c.m)
      && r'.s.pend == Less(r.s.pend, c.m) && r'.s.chunk == r.s.chunk && r'.s.ring == Rotate(r.s.ring, c.m)
  {
    NothingToTake(e.flags, r.s.sizes, r.s.ring, r.s.pend, 0);
    assert Rotate(r.s.sizes, 0) == r.s.sizes;
    W.GrantsEverywhere(c, r.s.sizes, c.m, c.m);
  }

  lemma OneLess(x: nat, cycles: nat, m: nat)
    requires cycles > 0
    ensures Less(Less(x, m), (cycles - 1) * m) == Less(x, cycles * m)
    ensures x <= cycles * m ==> Less(x, m) <= (cycles - 1) * m
  {
    assert cycles * m == (cycles - 1) * m + m;
  }

  lemma QuietRest(c: Config, es: seq<Input>)
    requires W.AllGood(c, es) && Quiet(c, es) && Undisturbed(es) && es != []
    ensures (forall k | 0 <= k < c.n :: !es[0].flags[k]) && !es[0].resetDuring && !es[0].resetAfter
    ensures W.AllGood(c, es[1..]) && Quiet(c, es[1..]) && Undisturbed(es[1..])
  {
    forall i, k | 0 <= i < |es[1..]| && 0 <= k < c.n ensures |es[1..][i].flags| == c.n && !es[1..][i].flags[k] {
      assert es[1..][i] == es[i + 1];
    }
    forall k | 0 <= k < c.n ensures !es[0].flags[k] { assert |es[0].flags| == c.n; }
  }

  lemma StillInWindow(ring: seq<nat>, left: nat, m: nat, v: nat)
    requires m <= |ring| && InWindow(ring, left, v) && v !in ring[..m]
    ensures InWindow(Rotate(ring, m), Less(left, m), v)
  {
    WindowShrinks(ring, left, m, v);
  }

  /** While nothing changes, every cycle takes what it sends out of the window, and sends what stands first in it:
      the PVs of the window go out in their order, as many a cycle as are sent, and then it is empty. */
  lemma {:induction false} WindowEmpties(c: Config, r: Run, es: seq<Input>, v: nat, left: nat)
    requires Kept(c, r) && W.AllGood(c, es) && Undisturbed(es) && Quiet(c, es) && !c.onlyChanged
    requires W.Grants(c, r.s.sizes, c.m) && r.s.pend <= c.n - c.m && r.s.chunk >= c.chunks
    requires r.sends + |es| <= c.reset
    ensures W.After(c, r, es).s.pend == Less(r.s.pend, |es| * c.m)
    ensures InWindow(r.s.ring, left, v) && left <= |es| * c.m ==> W.Dispatched(c, r, es, v)
    decreases |es|
  {
    if es != [] {
      QuietRest(c, es);
      CycleKeeps(c, r, es[0]);
      QuietCycle(c, r, es[0]);
      WindowEmpties(c, Cycle(c, r, es[0]), es[1..], v, Less(left, c.m));
      OneLess(r.s.pend, |es|, c.m);
      OneLess(left, |es|, c.m);
      if InWindow(r.s.ring, left, v) && v !in r.s.ring[..c.m] { StillInWindow(r.s.ring, left, c.m, v); }
    }
  }
}
