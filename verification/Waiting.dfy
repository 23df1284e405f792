/** Whole runs of the sender's schedule: what they keep, and how long a PV can wait. */
module Waiting {
  import opened Circular
  import opened Ring
  import Slices

  lemma PrepareKeeps(c: Config, s: Sched, read: nat, flags: seq<bool>, sends: nat)
    requires Good(c, s) && |flags| == c.n
    ensures Good(c, Prepare(c, s, read, flags, sends).s)
  {
    if read >= c.chunks {
      SortPassPermutes(flags, s.sizes, s.ring, s.pend, 0);
    }
  }

  ghost predicate AllGood(c: Config, es: seq<Input>)
  {
    forall i | 0 <= i < |es| :: GoodInput(c, es[i])
  }

  /** The run after some cycles. */
  ghost function After(c: Config, r: Run, es: seq<Input>): (r': Run)
    requires Kept(c, r) && AllGood(c, es)
    ensures Kept(c, r') && r'.sends == r.sends + |es|
    decreases |es|
  {
    if es == [] then r
    else
      CycleKeeps(c, r, es[0]);
      After(c, Cycle(c, r, es[0]), es[1..])
  }

  /** The schedule the sender starts with: the PVs in order, nothing pending. */
  ghost function Fresh(c: Config, sizes: seq<nat>): (r: Run)
    requires GoodConfig(c) && |sizes| == c.n
    ensures Kept(c, r) && r.pending == {} && r.sends == 0
  {
    var ring := seq(c.n, i requires 0 <= i < c.n => i);
    assert forall v | 0 <= v < c.n :: v in ring by {
      forall v | 0 <= v < c.n ensures v in ring { assert ring[v] == v; }
    }
    Run(Sched(ring, sizes, 0, 0), 0, {})
  }

  /** The PV is handed to the pool threads in one of these cycles. */
  ghost predicate Dispatched(c: Config, r: Run, es: seq<Input>, v: nat)
    requires Kept(c, r) && AllGood(c, es)
    decreases |es|
  {
    es != [] &&
    (CycleKeeps(c, r, es[0]);
     v in Sent(PreparedBy(c, r.s, r.sends, es[0])) || Dispatched(c, Cycle(c, r, es[0]), es[1..], v))
  }

  /** Every cycle is a first-in-first-out one that sends at least q PVs. */
  ghost predicate Steady(c: Config, r: Run, es: seq<Input>, q: nat)
    requires Kept(c, r) && AllGood(c, es)
    decreases |es|
  {
    es == [] ||
    (CycleKeeps(c, r, es[0]);
     r.s.chunk < c.chunks && PreparedBy(c, r.s, r.sends, es[0]).sending >= q
       && Steady(c, Cycle(c, r, es[0]), es[1..], q))
  }

  /** While the cycles are steady, the PVs not yet sent are the leading ones of the ring, q fewer
      after each cycle. */
  lemma {:induction false} SteadySends(c: Config, r: Run, es: seq<Input>, q: nat, v: nat, left: nat)
    requires Kept(c, r) && AllGood(c, es)
    requires Steady(c, r, es, q) && InWindow(r.s.ring, left, v) && left <= |es| * q
    ensures Dispatched(c, r, es, v)
    decreases |es|
  {
    if es != [] {
      var p := PreparedBy(c, r.s, r.sends, es[0]);
      if v !in Sent(p) {
        CycleKeeps(c, r, es[0]);
        WindowShrinks(r.s.ring, left, p.sending, v);
        OneCycleLess(left, p.sending, |es|, q);
        SteadySends(c, Cycle(c, r, es[0]), es[1..], q, v, left - p.sending);
      }
    }
  }

  lemma OneCycleLess(left: nat, sent: nat, cycles: nat, q: nat)
    requires 0 < cycles && q <= sent <= left <= cycles * q
    ensures left - sent <= (cycles - 1) * q
  {
    assert cycles * q == (cycles - 1) * q + q;
  }

  // ----- the byte budget

  function Total(sizes: seq<nat>, k: nat): nat
    requires k <= |sizes|
  {
    if k == 0 then 0 else Total(sizes, k - 1) + sizes[k - 1]
  }

  /** The byte budget grants at least q PVs wherever the index is. */
  ghost predicate Grants(c: Config, sizes: seq<nat>, q: nat)
    requires c.m <= c.n == |sizes|
  {
    forall k | 0 <= k <= c.n :: Budget(Rotate(sizes, k), c.m, 0, 0, c.maxBytes) >= q
  }

  lemma GrantsEverywhere(c: Config, sizes: seq<nat>, q: nat, a: nat)
    requires c.m <= c.n == |sizes| && Grants(c, sizes, q) && a <= c.n
    ensures Grants(c, Rotate(sizes, a), q)
  {
    forall k | 0 <= k <= c.n ensures Budget(Rotate(Rotate(sizes, a), k), c.m, 0, 0, c.maxBytes) >= q {
      RotateRotate(sizes, a, k);
    }
  }

  /** The budget cuts nothing exactly when the PVs it was asked for fit together. */
  lemma {:induction false} BudgetFull(sizes: seq<nat>, vars: nat, k: nat, maxBytes: nat)
    requires k <= vars <= |sizes| && Total(sizes, k) <= maxBytes
    ensures Budget(sizes, vars, k, Total(sizes, k), maxBytes) == vars <==> Total(sizes, vars) <= maxBytes
    decreases vars - k
  {
    if k < vars {
      if Total(sizes, k + 1) <= maxBytes {
        BudgetFull(sizes, vars, k + 1, maxBytes);
      } else {
        TotalGrows(sizes, k + 1, vars);
      }
    }
  }

  lemma {:induction false} TotalGrows(sizes: seq<nat>, a: nat, b: nat)
    requires a <= b <= |sizes|
    ensures Total(sizes, a) <= Total(sizes, b)
  {
    if a < b { TotalGrows(sizes, a, b - 1); }
  }

  /** What is dispatched fits the budget, counted by position; when the budget cuts, it gives up the
      first PV that does not fit and the one before it. */
  lemma {:induction false} BudgetKept(sizes: seq<nat>, vars: nat, k: nat, maxBytes: nat)
    requires k <= vars <= |sizes| && Total(sizes, k) <= maxBytes
    ensures var n := Budget(sizes, vars, k, Total(sizes, k), maxBytes);
      && Total(sizes, n) <= maxBytes
      && (n < vars ==>
            || (n + 2 <= vars && Total(sizes, n + 1) <= maxBytes < Total(sizes, n + 2))
            || (n == 0 && sizes[0] > maxBytes))
    decreases vars - k
  {
    if k < vars {
      if Total(sizes, k + 1) <= maxBytes {
        BudgetKept(sizes, vars, k + 1, maxBytes);
      } else {
        TotalGrows(sizes, if k > 0 then k - 1 else 0, k);
      }
    }
  }

  /** Nothing at all is sent exactly when the first PV, or the first two where a cycle has room for
      two, are over the budget. */
  lemma {:induction false} BudgetStalls(sizes: seq<nat>, vars: nat, maxBytes: nat)
    requires 1 <= vars <= |sizes|
    ensures Budget(sizes, vars, 0, 0, maxBytes) == 0 <==> Total(sizes, Min(vars, 2)) > maxBytes
  {
    BudgetKept(sizes, vars, 0, maxBytes);
    BudgetFull(sizes, vars, 0, maxBytes);
    TotalGrows(sizes, Min(vars, 2), vars);
    assert Total(sizes, 1) == sizes[0];
    TotalGrows(sizes, 1, Min(vars, 2));
    var n := Budget(sizes, vars, 0, 0, maxBytes);
    if n > 0 && n < vars {
      TotalGrows(sizes, 2, n + 1);
    }
  }

  // ----- waiting

  /** A cycle that starts below the chunk count sends as many PVs as the budget grants, whatever
      else happens in it. */
  lemma FifoSteps(c: Config, r: Run, e: Input, q: nat)
    requires Kept(c, r) && GoodInput(c, e) && Grants(c, r.s.sizes, q) && r.s.chunk < c.chunks
    ensures PreparedBy(c, r.s, r.sends, e).sending >= q
    ensures Grants(c, Cycle(c, r, e).s.sizes, q)
  {
    assert Rotate(r.s.sizes, 0) == r.s.sizes;
    var p := PreparedBy(c, r.s, r.sends, e);
    GrantsEverywhere(c, r.s.sizes, q, p.sending);
  }

  /** First-in-first-out cycles: each starts below the chunk count. */
  ghost predicate Fifo(c: Config, r: Run, es: seq<Input>)
    requires Kept(c, r) && AllGood(c, es)
    decreases |es|
  {
    es == [] || (CycleKeeps(c, r, es[0]); r.s.chunk < c.chunks && Fifo(c, Cycle(c, r, es[0]), es[1..]))
  }

  lemma {:induction false} FifoIsSteady(c: Config, r: Run, es: seq<Input>, q: nat)
    requires Kept(c, r) && AllGood(c, es) && Fifo(c, r, es) && Grants(c, r.s.sizes, q)
    ensures Steady(c, r, es, q)
    decreases |es|
  {
    if es != [] {
      CycleKeeps(c, r, es[0]);
      FifoSteps(c, r, es[0], q);
      FifoIsSteady(c, Cycle(c, r, es[0]), es[1..], q);
    }
  }

  /** Any `chunks` first-in-first-out cycles in a row send every PV, if the budget cuts none. */
  lemma {:induction false} ChunksSendAll(c: Config, r: Run, es: seq<Input>, v: nat)
    requires Kept(c, r) && AllGood(c, es) && Fifo(c, r, es) && |es| >= c.chunks && v < c.n
    requires Grants(c, r.s.sizes, c.m)
    ensures Dispatched(c, r, es, v)
  {
    FifoIsSteady(c, r, es, c.m);
    ChunksCover(c);
    SteadySendsAll(c, r, es, c.m, v, c.chunks);
  }

  lemma {:induction false} SteadySendsAll(c: Config, r: Run, es: seq<Input>, q: nat, v: nat, cycles: nat)
    requires Kept(c, r) && AllGood(c, es) && Steady(c, r, es, q) && v < c.n
    requires |es| >= cycles && cycles * q >= c.n
    ensures Dispatched(c, r, es, v)
  {
    InRing(r.s.ring, c.n, v);
    MoreCycles(|es|, cycles, q);
    SteadySends(c, r, es, q, v, c.n);
  }

  lemma InRing(ring: seq<nat>, n: nat, v: nat)
    requires IsPermutation(ring, n) && v < n
    ensures InWindow(ring, n, v)
  {
    assert v in ring;
  }

  lemma MoreCycles(a: nat, b: nat, q: nat)
    requires a >= b
    ensures a * q >= b * q
  {
    assert a * q == b * q + (a - b) * q;
  }

  lemma ChunksCover(c: Config)
    requires GoodConfig(c)
    ensures 1 <= c.chunks && c.chunks * c.m >= c.n
  {
    var t := c.n + c.m - 1;
    assert t == (t / c.m) * c.m + t % c.m && t % c.m < c.m;
    if c.chunks == 0 { assert false; }
  }

  /** Once the reset count is reached the chunk counter is set back in every cycle. */
  lemma {:induction false} SettledIsFifo(c: Config, r: Run, es: seq<Input>)
    requires Kept(c, r) && AllGood(c, es) && r.sends >= c.reset && r.s.chunk == 0
    ensures Fifo(c, r, es)
    decreases |es|
  {
    if es != [] {
      ChunksCover(c);
      CycleKeeps(c, r, es[0]);
      SettledIsFifo(c, Cycle(c, r, es[0]), es[1..]);
    }
  }

  /** In any run every PV is dispatched within any reset + chunks + 1 consecutive cycles, whatever
      the change flags and the reconnections are, if the budget cuts none. */
  lemma {:induction false} NobodyWaitsLong(c: Config, r: Run, es: seq<Input>, v: nat)
    requires Kept(c, r) && AllGood(c, es) && v < c.n && Grants(c, r.s.sizes, c.m)
    requires |es| + Min(r.sends, c.reset) >= c.reset + c.chunks + 1
    ensures Dispatched(c, r, es, v)
    decreases |es|
  {
    CycleKeeps(c, r, es[0]);
    var p := PreparedBy(c, r.s, r.sends, es[0]);
    var r' := Cycle(c, r, es[0]);
    GrantsEverywhere(c, r.s.sizes, c.m, p.sending);
    if r.sends >= c.reset {
      SettledIsFifo(c, r', es[1..]);
      ChunksSendAll(c, r', es[1..], v);
    } else {
      NobodyWaitsLong(c, r', es[1..], v);
    }
  }

  // ----- which budgets starve nobody

  /** At index k of the list the byte budget lets something go: the next two PVs (the next one, if a
      cycle sends one) fit together. */
  predicate FitsAt(c: Config, sizes: seq<nat>, k: nat)
    requires 1 <= c.m <= c.n == |sizes| && k < c.n
  {
    Total(Rotate(sizes, k), Min(c.m, 2)) <= c.maxBytes
  }

  /** Where a cycle takes the index, which depends on nothing but the sizes and the budget. */
  function Advance(c: Config, sizes: seq<nat>, k: nat): (k': nat)
    requires 1 <= c.m <= c.n == |sizes| && k < c.n
    ensures k' < c.n
  {
    Turn(k + Budget(Rotate(sizes, k), c.m, 0, 0, c.maxBytes), c.n)
  }

  function Walk(c: Config, sizes: seq<nat>, k: nat, cycles: nat): (k': nat)
    requires 1 <= c.m <= c.n == |sizes| && k < c.n
    ensures k' < c.n
    decreases cycles
  {
    if cycles == 0 then k else Walk(c, sizes, Advance(c, sizes, k), cycles - 1)
  }

  /** Something fits wherever the index is in the first n cycles of the sender. */
  predicate WalkFits(c: Config, sizes: seq<nat>)
    requires 1 <= c.m <= c.n == |sizes|
  {
    forall i | 0 <= i < c.n :: FitsAt(c, sizes, Walk(c, sizes, 0, i))
  }

  ghost predicate AlwaysFits(c: Config, sizes: seq<nat>, k: nat)
    requires 1 <= c.m <= c.n == |sizes| && k < c.n
  {
    forall i: nat :: FitsAt(c, sizes, Walk(c, sizes, k, i))
  }

  lemma {:induction false} WalkOn(c: Config, sizes: seq<nat>, k: nat, i: nat, j: nat)
    requires 1 <= c.m <= c.n == |sizes| && k < c.n
    ensures Walk(c, sizes, k, i + j) == Walk(c, sizes, Walk(c, sizes, k, i), j)
    decreases i
  {
    if i > 0 {
      WalkOn(c, sizes, Advance(c, sizes, k), i - 1, j);
      assert i + j - 1 == i - 1 + j;
    }
  }

  /** Among n + 1 indices two are the same. */
  lemma WalkReturns(c: Config, sizes: seq<nat>) returns (a: nat, b: nat)
    requires 1 <= c.m <= c.n == |sizes|
    ensures a < b <= c.n && Walk(c, sizes, 0, a) == Walk(c, sizes, 0, b)
  {
    var ws := seq(c.n + 1, i requires 0 <= i <= c.n => Walk(c, sizes, 0, i));
    if forall i, j | 0 <= i < j < |ws| :: ws[i] != ws[j] {
      assert Slices.ClaimOrder(ws, c.n);
      Slices.AtMostOnceEach(ws, c.n);
      assert false;
    } else {
      a, b :| 0 <= a < b < |ws| && ws[a] == ws[b];
    }
  }

  /** So the first n cycles see every index there will ever be. */
  lemma SeenBefore(c: Config, sizes: seq<nat>, a: nat, b: nat, i: nat) returns (j: nat)
    requires 1 <= c.m <= c.n == |sizes|
    requires a < b <= c.n && Walk(c, sizes, 0, a) == Walk(c, sizes, 0, b)
    ensures j < c.n && Walk(c, sizes, 0, j) == Walk(c, sizes, 0, i)
    decreases i
  {
    if i < c.n {
      j := i;
    } else {
      WalkOn(c, sizes, 0, b, i - b);
      WalkOn(c, sizes, 0, a, i - b);
      j := SeenBefore(c, sizes, a, b, a + (i - b));
    }
  }

  lemma FitsForGood(c: Config, sizes: seq<nat>)
    requires 1 <= c.m <= c.n == |sizes| && WalkFits(c, sizes)
    ensures AlwaysFits(c, sizes, 0)
  {
    var a, b := WalkReturns(c, sizes);
    forall i: nat ensures FitsAt(c, sizes, Walk(c, sizes, 0, i)) {
      var j := SeenBefore(c, sizes, a, b, i);
    }
  }

  /** A cycle moves the index as the sizes say, whatever the flags and the reconnections are. */
  lemma CycleAdvances(c: Config, sizes: seq<nat>, k: nat, r: Run, e: Input)
    requires Kept(c, r) && GoodInput(c, e) && !c.onlyChanged
    requires |sizes| == c.n && k < c.n && r.s.sizes == Rotate(sizes, k)
    ensures PreparedBy(c, r.s, r.sends, e).sending == Budget(Rotate(sizes, k), c.m, 0, 0, c.maxBytes)
    ensures Cycle(c, r, e).s.sizes == Rotate(sizes, Advance(c, sizes, k))
  {
    RotateOn(sizes, k, Budget(Rotate(sizes, k), c.m, 0, 0, c.maxBytes));
  }

  lemma {:induction false} RunWalks(c: Config, sizes: seq<nat>, k: nat, r: Run, es: seq<Input>)
    requires Kept(c, r) && AllGood(c, es) && !c.onlyChanged
    requires |sizes| == c.n && k < c.n && r.s.sizes == Rotate(sizes, k)
    ensures After(c, r, es).s.sizes == Rotate(sizes, Walk(c, sizes, k, |es|))
    decreases |es|
  {
    if es != [] {
      CycleKeeps(c, r, es[0]);
      CycleAdvances(c, sizes, k, r, es[0]);
      RunWalks(c, sizes, Advance(c, sizes, k), Cycle(c, r, es[0]), es[1..]);
    }
  }

  lemma FitsNext(c: Config, sizes: seq<nat>, k: nat)
    requires 1 <= c.m <= c.n == |sizes| && k < c.n && AlwaysFits(c, sizes, k)
    ensures Budget(Rotate(sizes, k), c.m, 0, 0, c.maxBytes) >= 1
    ensures AlwaysFits(c, sizes, Advance(c, sizes, k))
  {
    assert FitsAt(c, sizes, Walk(c, sizes, k, 0));
    BudgetStalls(Rotate(sizes, k), c.m, c.maxBytes);
    forall i: nat ensures FitsAt(c, sizes, Walk(c, sizes, Advance(c, sizes, k), i)) {
      assert FitsAt(c, sizes, Walk(c, sizes, k, i + 1));
    }
  }

  lemma {:induction false} WalkIsSteady(c: Config, sizes: seq<nat>, k: nat, r: Run, es: seq<Input>)
    requires Kept(c, r) && AllGood(c, es) && !c.onlyChanged && Fifo(c, r, es)
    requires |sizes| == c.n && k < c.n && r.s.sizes == Rotate(sizes, k) && AlwaysFits(c, sizes, k)
    ensures Steady(c, r, es, 1)
    decreases |es|
  {
    if es != [] {
      CycleKeeps(c, r, es[0]);
      CycleAdvances(c, sizes, k, r, es[0]);
      FitsNext(c, sizes, k);
      WalkIsSteady(c, sizes, Advance(c, sizes, k), Cycle(c, r, es[0]), es[1..]);
    }
  }

  lemma {:induction false} WalkSendsAll(c: Config, sizes: seq<nat>, k: nat, r: Run, es: seq<Input>, v: nat)
    requires Kept(c, r) && AllGood(c, es) && !c.onlyChanged && v < c.n
    requires |sizes| == c.n && k < c.n && r.s.sizes == Rotate(sizes, k) && AlwaysFits(c, sizes, k)
    requires |es| + Min(r.sends, c.reset) >= c.reset + c.n + 1
    ensures Dispatched(c, r, es, v)
    decreases |es|
  {
    var r', k' := Cycle(c, r, es[0]), Advance(c, sizes, k);
    CycleKeeps(c, r, es[0]);
    CycleAdvances(c, sizes, k, r, es[0]);
    FitsNext(c, sizes, k);
    if r.sends >= c.reset {
      SettledIsFifo(c, r', es[1..]);
      WalkIsSteady(c, sizes, k', r', es[1..]);
      SteadySendsAll(c, r', es[1..], 1, v, c.n);
    } else {
      WalkSendsAll(c, sizes, k', r', es[1..], v);
    }
  }

  /** A schedule whose next pair is over the budget never sends anything again. */
  lemma {:induction false} StalledForever(c: Config, r: Run, es: seq<Input>, v: nat)
    requires Kept(c, r) && AllGood(c, es) && !c.onlyChanged && Total(r.s.sizes, Min(c.m, 2)) > c.maxBytes
    ensures !Dispatched(c, r, es, v)
    decreases |es|
  {
    if es != [] {
      CycleKeeps(c, r, es[0]);
      BudgetStalls(r.s.sizes, c.m, c.maxBytes);
      assert Rotate(r.s.sizes, 0) == r.s.sizes;
      StalledForever(c, Cycle(c, r, es[0]), es[1..], v);
    }
  }

  lemma {:induction false} WalkStays(c: Config, sizes: seq<nat>, k: nat, i: nat)
    requires 1 <= c.m <= c.n == |sizes| && k < c.n && !FitsAt(c, sizes, k)
    ensures Walk(c, sizes, k, i) == k
    decreases i
  {
    if i > 0 {
      BudgetStalls(Rotate(sizes, k), c.m, c.maxBytes);
      WalkStays(c, sizes, k, i - 1);
    }
  }

  /** If nothing fits at an index of the walk, then in every run nothing at all is dispatched once n
      cycles are over. */
  lemma {:induction false} FallsSilent(c: Config, sizes: seq<nat>, before: seq<Input>, es: seq<Input>, v: nat)
    requires GoodConfig(c) && |sizes| == c.n && !c.onlyChanged && !WalkFits(c, sizes)
    requires AllGood(c, before) && AllGood(c, es) && |before| >= c.n
    ensures !Dispatched(c, After(c, Fresh(c, sizes), before), es, v)
  {
    WalkEndsUnfit(c, sizes, |before|);
    var r := FromStart(c, sizes, before);
    StalledForever(c, r, es, v);
  }

  lemma FromStart(c: Config, sizes: seq<nat>, before: seq<Input>) returns (r: Run)
    requires GoodConfig(c) && |sizes| == c.n && !c.onlyChanged && AllGood(c, before)
    ensures r == After(c, Fresh(c, sizes), before) && r.s.sizes == Rotate(sizes, Walk(c, sizes, 0, |before|))
  {
    assert Rotate(sizes, 0) == sizes;
    RunWalks(c, sizes, 0, Fresh(c, sizes), before);
    r := After(c, Fresh(c, sizes), before);
  }

  lemma {:induction false} WalkEndsUnfit(c: Config, sizes: seq<nat>, cycles: nat)
    requires 1 <= c.m <= c.n == |sizes| && !WalkFits(c, sizes) && cycles >= c.n
    ensures !FitsAt(c, sizes, Walk(c, sizes, 0, cycles))
  {
    var i :| 0 <= i < c.n && !FitsAt(c, sizes, Walk(c, sizes, 0, i));
    WalkOn(c, sizes, 0, i, cycles - i);
    WalkStays(c, sizes, Walk(c, sizes, 0, i), cycles - i);
  }

  lemma {:induction false} FitsFromThere(c: Config, sizes: seq<nat>, cycles: nat)
    requires 1 <= c.m <= c.n == |sizes| && AlwaysFits(c, sizes, 0)
    ensures AlwaysFits(c, sizes, Walk(c, sizes, 0, cycles))
  {
    forall i: nat ensures FitsAt(c, sizes, Walk(c, sizes, Walk(c, sizes, 0, cycles), i)) {
      WalkOn(c, sizes, 0, cycles, i);
      assert FitsAt(c, sizes, Walk(c, sizes, 0, cycles + i));
    }
  }

  /** From the schedule the sender starts with, whatever has happened before, every PV is dispatched
      within any reset + n + 1 cycles of any run, exactly when something fits at every index of the
      walk. */
  lemma {:induction false} NobodyStarvesExactlyWhen(c: Config, sizes: seq<nat>)
    requires GoodConfig(c) && |sizes| == c.n && !c.onlyChanged
    ensures WalkFits(c, sizes) <==>
      forall before, es, v | AllGood(c, before) && AllGood(c, es) && |es| >= c.reset + c.n + 1 && 0 <= v < c.n ::
        Dispatched(c, After(c, Fresh(c, sizes), before), es, v)
  {
    if WalkFits(c, sizes) {
      FitsForGood(c, sizes);
      forall before, es, v | AllGood(c, before) && AllGood(c, es) && |es| >= c.reset + c.n + 1 && 0 <= v < c.n
        ensures Dispatched(c, After(c, Fresh(c, sizes), before), es, v)
      {
        FitsFromThere(c, sizes, |before|);
        var r := FromStart(c, sizes, before);
        WalkSendsAll(c, sizes, Walk(c, sizes, 0, |before|), r, es, v);
      }
    } else {
      var quiet := Input(seq(c.n, _ => false), false, false);
      var before, es := seq(c.n, _ => quiet), seq(c.reset + c.n + 1, _ => quiet);
      FallsSilent(c, sizes, before, es, 0);
      assert !Dispatched(c, After(c, Fresh(c, sizes), before), es, 0);
    }
  }

  /** Neighbours that the walk never looks at together may be over the budget; and a sender may fall
      silent after it has sent. */
  lemma WhatTheWalkSees()
    ensures var c := Config(4, 2, 2, 0, 6, false);
      && GoodConfig(c) && WalkFits(c, [1, 5, 5, 1]) && !FitsAt(c, [1, 5, 5, 1], 1)
      && !WalkFits(c, [1, 1, 5, 5]) && FitsAt(c, [1, 1, 5, 5], 0)
  {
    var c := Config(4, 2, 2, 0, 6, false);
    PairAt(c, [1, 5, 5, 1], 0);
    PairAt(c, [1, 5, 5, 1], 1);
    PairAt(c, [1, 5, 5, 1], 2);
    PairAt(c, [1, 1, 5, 5], 0);
    PairAt(c, [1, 1, 5, 5], 2);
    assert Walk(c, [1, 5, 5, 1], 0, 1) == 2 && Walk(c, [1, 5, 5, 1], 2, 1) == 0;
    WalkOn(c, [1, 5, 5, 1], 0, 1, 1);
    WalkOn(c, [1, 5, 5, 1], 0, 2, 1);
    assert Walk(c, [1, 1, 5, 5], 0, 1) == 2;
  }

  lemma PairAt(c: Config, sizes: seq<nat>, k: nat)
    requires c.m == 2 <= c.n == |sizes| && k < c.n - 1
    ensures FitsAt(c, sizes, k) <==> sizes[k] + sizes[k + 1] <= c.maxBytes
    ensures FitsAt(c, sizes, k) ==> Advance(c, sizes, k) == if k + 2 < c.n then k + 2 else k + 2 - c.n
  {
    var r := Rotate(sizes, k);
    assert Total(r, 1) == Total(r, 0) + r[0];
    assert Total(r, 2) == Total(r, 1) + r[1];
    BudgetFull(r, 2, 0, c.maxBytes);
  }
}
