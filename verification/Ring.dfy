/** The sender's schedule seen from its current index: a ring of PVs whose first positions are sent
    next.  Rotating the ring is advancing the index, so nothing here needs modular arithmetic but
    the positions of a change window that has outgrown the ring. */
module Ring {

  /** `ring` lists the PVs and `sizes` the byte sizes looked up at the same positions; `pend` is the
      length of the window of changed PVs, `chunk` the number of first-in-first-out cycles made. */
  datatype Sched = Sched(ring: seq<nat>, sizes: seq<nat>, pend: nat, chunk: nat)

  /** m is the number of PVs sent in a cycle, chunks the number of such cycles that go round. */
  datatype Config = Config(n: nat, m: nat, chunks: nat, reset: nat, maxBytes: nat, onlyChanged: bool)

  ghost predicate GoodConfig(c: Config)
  {
    1 <= c.m <= c.n && c.chunks == (c.n + c.m - 1) / c.m
  }

  ghost predicate IsPermutation(ring: seq<nat>, n: nat)
  {
    && |ring| == n
    && (forall i | 0 <= i < n :: ring[i] < n)
    && (forall v | 0 <= v < n :: v in ring)
    && (forall i, j | 0 <= i < j < n :: ring[i] != ring[j])
  }

  ghost predicate Good(c: Config, s: Sched)
  {
    GoodConfig(c) && IsPermutation(s.ring, c.n) && |s.sizes| == c.n
  }

  function Swap(r: seq<nat>, a: nat, b: nat): (r': seq<nat>)
    requires a < |r| && b < |r|
    ensures |r'| == |r| && r'[a] == r[b] && r'[b] == r[a]
    ensures forall k | 0 <= k < |r| && k != a && k != b :: r'[k] == r[k]
  {
    r[a := r[b]][b := r[a]]
  }

  function Rotate<T>(r: seq<T>, k: nat): (r': seq<T>)
    requires k <= |r|
    ensures |r'| == |r|
    ensures forall i | 0 <= i < |r| :: r'[i] == if i + k < |r| then r[i + k] else r[i + k - |r|]
  {
    r[k..] + r[..k]
  }

  /** The position of the j-th place of a ring, going round: the remainder of j by its length, as
      Circular proves. */
  function Turn(j: nat, n: nat): (p: nat)
    requires 0 < n
    ensures p < n && p <= j && (j < n ==> p == j)
    decreases j
  {
    if j < n then j else Turn(j - n, n)
  }

  /** The position before p, going round. */
  function Before(p: nat, n: nat): (q: nat)
    requires p < n
    ensures q < n
  {
    if p == 0 then n - 1 else p - 1
  }

  /** Moving the PV at the j-th place of the window, which is position p of the ring, down past the
      larger sizes. */
  function Bubble(ring: seq<nat>, sizes: seq<nat>, j: nat, p: nat, size: nat): (r: seq<nat>)
    requires p < |ring| == |sizes|
    ensures |r| == |ring|
    decreases j
  {
    if j == 0 || sizes[Before(p, |ring|)] <= size then ring
    else Bubble(Swap(ring, Before(p, |ring|), p), sizes, j - 1, Before(p, |ring|), size)
  }

  /** A flagged PV at position i is swapped to the end of the window, and then moved down by size. */
  function TakeIn(sizes: seq<nat>, ring: seq<nat>, pend: nat, i: nat): (r: seq<nat>)
    requires i < |ring| == |sizes|
    ensures |r| == |ring| && forall k | 0 <= k < |ring| :: r[k] in ring
  {
    var p := Turn(pend, |ring|);
    BubbleMembers(Swap(ring, p, i), sizes, pend, p, sizes[i]);
    SwapMembers(ring, p, i);
    Bubble(Swap(ring, p, i), sizes, pend, p, sizes[i])
  }

  /** One pass over the ring from position i: the flagged PVs are taken into the window. */
  function SortPass(flags: seq<bool>, sizes: seq<nat>, ring: seq<nat>, pend: nat, i: nat): (r: (seq<nat>, nat))
    requires |ring| == |sizes| > 0 && i <= |ring| && forall k | 0 <= k < |ring| :: ring[k] < |flags|
    ensures |r.0| == |ring| && r.1 >= pend
    decreases |ring| - i
  {
    if i == |ring| then (ring, pend)
    else if !flags[ring[i]] then SortPass(flags, sizes, ring, pend, i + 1)
    else SortPass(flags, sizes, TakeIn(sizes, ring, pend, i), pend + 1, i + 1)
  }

  lemma {:induction false} BubbleMembers(ring: seq<nat>, sizes: seq<nat>, j: nat, p: nat, size: nat)
    requires p < |ring| == |sizes|
    ensures forall v :: v in Bubble(ring, sizes, j, p, size) <==> v in ring
    ensures forall k | 0 <= k < |ring| :: Bubble(ring, sizes, j, p, size)[k] in ring
    decreases j
  {
    if j > 0 && sizes[Before(p, |ring|)] > size {
      SwapMembers(ring, Before(p, |ring|), p);
      BubbleMembers(Swap(ring, Before(p, |ring|), p), sizes, j - 1, Before(p, |ring|), size);
    }
  }

  lemma SwapMembers(r: seq<nat>, a: nat, b: nat)
    requires a < |r| && b < |r|
    ensures forall v :: v in Swap(r, a, b) <==> v in r
  {
    var r' := Swap(r, a, b);
    forall v | v in r ensures v in r' {
      var k :| 0 <= k < |r| && r[k] == v;
      assert r'[if k == a then b else if k == b then a else k] == v;
    }
  }

  lemma SwapPermutes(r: seq<nat>, n: nat, a: nat, b: nat)
    requires IsPermutation(r, n) && a < n && b < n
    ensures IsPermutation(Swap(r, a, b), n)
  {
    SwapMembers(r, a, b);
  }

  lemma {:induction false} BubblePermutes(ring: seq<nat>, n: nat, sizes: seq<nat>, j: nat, p: nat, size: nat)
    requires IsPermutation(ring, n) && |sizes| == n > p
    ensures IsPermutation(Bubble(ring, sizes, j, p, size), n)
    decreases j
  {
    if j > 0 && sizes[Before(p, n)] > size {
      SwapPermutes(ring, n, Before(p, n), p);
      BubblePermutes(Swap(ring, Before(p, n), p), n, sizes, j - 1, Before(p, n), size);
    }
  }

  lemma RotatePermutes(ring: seq<nat>, n: nat, k: nat)
    requires IsPermutation(ring, n) && k <= n
    ensures IsPermutation(Rotate(ring, k), n)
  {
    var r := Rotate(ring, k);
    forall v | 0 <= v < n ensures v in r {
      assert v in ring;
      var i :| 0 <= i < n && ring[i] == v;
      assert r[if i >= k then i - k else i - k + n] == v;
    }
  }

  // ----- the change window

  /** The PV is in the first w positions; a window that has outgrown the ring holds every PV. */
  ghost predicate InWindow(ring: seq<nat>, w: nat, v: nat)
  {
    exists k :: 0 <= k < |ring| && k < w && ring[k] == v
  }

  /** Position p of the ring is a place of the window of length w that is not its end: below w, unless
      the window holds the whole ring. */
  ghost predicate Inside(j: nat, p: nat, n: nat, w: nat)
  {
    p < n && j < w && (j < n ==> p == j) && (j >= n ==> w > n)
  }

  lemma SwapInside(ring: seq<nat>, a: nat, b: nat, w: nat, v: nat)
    requires a < |ring| && b < |ring| && a < w && b < w
    ensures InWindow(Swap(ring, a, b), w, v) <==> InWindow(ring, w, v)
  {
    var r := Swap(ring, a, b);
    if InWindow(ring, w, v) {
      var k :| 0 <= k < |ring| && k < w && ring[k] == v;
      assert r[if k == a then b else if k == b then a else k] == v;
    }
    if InWindow(r, w, v) {
      var k :| 0 <= k < |r| && k < w && r[k] == v;
      assert ring[if k == a then b else if k == b then a else k] == v;
    }
  }

  /** Sorting the window by size moves PVs only inside it. */
  lemma {:induction false} BubbleInside(ring: seq<nat>, sizes: seq<nat>, j: nat, p: nat, size: nat, w: nat)
    requires |ring| == |sizes| && Inside(j, p, |ring|, w)
    ensures forall v :: InWindow(Bubble(ring, sizes, j, p, size), w, v) <==> InWindow(ring, w, v)
    ensures forall k | w <= k < |ring| :: Bubble(ring, sizes, j, p, size)[k] == ring[k]
    decreases j
  {
    if j > 0 && sizes[Before(p, |ring|)] > size {
      var q := Before(p, |ring|);
      var next := Swap(ring, q, p);
      forall v ensures InWindow(next, w, v) <==> InWindow(ring, w, v) {
        SwapInside(ring, q, p, w, v);
      }
      if j == |ring| {
        BubbleWhole(next, sizes, j - 1, q, size, w);
      } else {
        BubbleInside(next, sizes, j - 1, q, size, w);
      }
    }
  }

  /** A window longer than the ring holds everything, wherever the PVs move. */
  lemma {:induction false} BubbleWhole(ring: seq<nat>, sizes: seq<nat>, j: nat, p: nat, size: nat, w: nat)
    requires p < |ring| == |sizes| <= w
    ensures forall v :: InWindow(Bubble(ring, sizes, j, p, size), w, v) <==> InWindow(ring, w, v)
  {
    var r := Bubble(ring, sizes, j, p, size);
    BubbleMembers(ring, sizes, j, p, size);
    forall v ensures InWindow(r, w, v) <==> v in r {}
    forall v ensures InWindow(ring, w, v) <==> v in ring {}
  }

  /** Where PV v is once the pass has reached position i: in the window, or still ahead. */
  ghost predicate Accounted(ring: seq<nat>, pend: nat, i: nat, v: nat)
  {
    InWindow(ring, pend, v) || exists k :: i <= k < |ring| && ring[k] == v
  }

  /** What one flagged PV does: it enters the window, nothing leaves it, and PVs still ahead stay
      ahead or enter it. */
  lemma OneFlagged(sizes: seq<nat>, ring: seq<nat>, pend: nat, i: nat, v: nat)
    requires |ring| == |sizes| && i < |ring|
    ensures InWindow(ring, pend, v) ==> InWindow(TakeIn(sizes, ring, pend, i), pend + 1, v)
    ensures Accounted(ring, pend, i, v) ==> Accounted(TakeIn(sizes, ring, pend, i), pend + 1, i + 1, v)
  {
    var n := |ring|;
    var p := Turn(pend, n);
    assert Inside(pend, p, n, pend + 1);
    var s := Swap(ring, p, i);
    BubbleInside(s, sizes, pend, p, sizes[i], pend + 1);
    var r := Bubble(s, sizes, pend, p, sizes[i]);
    if Accounted(ring, pend, i, v) {
      var k :| 0 <= k < n && (k < pend || i <= k) && ring[k] == v;
      var k' := if k == p then i else if k == i then p else k;
      assert s[k'] == v;
      if k' < pend + 1 {
        assert InWindow(s, pend + 1, v);
      } else {
        assert r[k'] == v;
      }
    }
    if InWindow(ring, pend, v) {
      var k :| 0 <= k < n && k < pend && ring[k] == v;
      assert s[if k == p then i else if k == i then p else k] == v;
      assert InWindow(s, pend + 1, v);
    }
  }

  lemma TakeInPermutes(sizes: seq<nat>, ring: seq<nat>, n: nat, pend: nat, i: nat)
    requires IsPermutation(ring, n) && |sizes| == n && i < n
    ensures IsPermutation(TakeIn(sizes, ring, pend, i), n)
  {
    var p := Turn(pend, n);
    SwapPermutes(ring, n, p, i);
    BubblePermutes(Swap(ring, p, i), n, sizes, pend, p, sizes[i]);
  }

  lemma {:induction false} SortPassPermutes(flags: seq<bool>, sizes: seq<nat>, ring: seq<nat>, pend: nat, i: nat)
    requires IsPermutation(ring, |flags|) && |sizes| == |flags| > 0 && i <= |flags|
    ensures var r := SortPass(flags, sizes, ring, pend, i);
      IsPermutation(r.0, |flags|) && pend <= r.1 <= pend + (|flags| - i)
    decreases |flags| - i
  {
    if i < |flags| {
      if flags[ring[i]] {
        TakeInPermutes(sizes, ring, |flags|, pend, i);
        SortPassPermutes(flags, sizes, TakeIn(sizes, ring, pend, i), pend + 1, i + 1);
      } else {
        SortPassPermutes(flags, sizes, ring, pend, i + 1);
      }
    }
  }

  /** A whole sorted pass: every PV that was pending is in the grown window, and so is every flagged
      one, even when the window wraps around the ring. */
  lemma {:induction false} SortPassWindow(flags: seq<bool>, sizes: seq<nat>, ring: seq<nat>, pend: nat, i: nat, v: nat)
    requires IsPermutation(ring, |flags|) && |sizes| == |flags| > 0 && i <= |flags| && v < |flags|
    requires flags[v] ==> Accounted(ring, pend, i, v)
    ensures var r := SortPass(flags, sizes, ring, pend, i);
      flags[v] || InWindow(ring, pend, v) ==> InWindow(r.0, r.1, v)
    decreases |flags| - i
  {
    if i < |flags| {
      if flags[ring[i]] {
        TakeInPermutes(sizes, ring, |flags|, pend, i);
        OneFlagged(sizes, ring, pend, i, v);
        SortPassWindow(flags, sizes, TakeIn(sizes, ring, pend, i), pend + 1, i + 1, v);
      } else {
        if flags[v] { StillAccounted(flags, ring, pend, i, v); }
        SortPassWindow(flags, sizes, ring, pend, i + 1, v);
      }
    }
  }

  lemma StillAccounted(flags: seq<bool>, ring: seq<nat>, pend: nat, i: nat, v: nat)
    requires i < |ring| && ring[i] < |flags| && !flags[ring[i]] && v < |flags| && flags[v]
    requires Accounted(ring, pend, i, v)
    ensures Accounted(ring, pend, i + 1, v)
  {
    if !InWindow(ring, pend, v) {
      var k :| i <= k < |ring| && ring[k] == v;
      assert k != i;
    }
  }

  // ----- one cycle: prepare, then dispatch

  /** How many PVs fit the byte budget: when the next one does not, one more is taken back. */
  function Budget(sizes: seq<nat>, vars: nat, k: nat, total: nat, maxBytes: nat): (n: nat)
    requires k <= vars <= |sizes|
    ensures n <= vars
    decreases vars - k
  {
    if k == vars then vars
    else if total + sizes[k] > maxBytes then if k > 0 then k - 1 else 0
    else Budget(sizes, vars, k + 1, total + sizes[k], maxBytes)
  }

  /** The cycle loop's decision: the reordered schedule, and how many PVs it will dispatch. `read` is
      the chunk counter as the loop read it, `sends` the number of dispatches made so far. */
  datatype Prepared = Prepared(s: Sched, sending: nat)

  function Reordered(c: Config, s: Sched, read: nat, flags: seq<bool>): (r: (seq<nat>, nat))
    requires |s.ring| == |s.sizes| > 0 && forall k | 0 <= k < |s.ring| :: s.ring[k] < |flags|
    ensures |r.0| == |s.ring|
  {
    if read >= c.chunks then SortPass(flags, s.sizes, s.ring, s.pend, 0) else (s.ring, s.pend)
  }

  function Min(a: nat, b: nat): nat { if a < b then a else b }

  function Prepare(c: Config, s: Sched, read: nat, flags: seq<bool>, sends: nat): (p: Prepared)
    requires |s.ring| == |s.sizes| == c.n > 0 && c.m <= c.n && forall k | 0 <= k < c.n :: s.ring[k] < |flags|
    ensures p.sending <= c.m && |p.s.ring| == c.n && p.s.sizes == s.sizes
    ensures p.s.ring == Reordered(c, s, read, flags).0
  {
    var sorted := read >= c.chunks;
    var r := Reordered(c, s, read, flags);
    var wanted := if c.onlyChanged && sorted then r.1 else c.m;
    var n := Budget(s.sizes, Min(wanted, c.m), 0, 0, c.maxBytes);
    var pend := if r.1 > n then r.1 - n else 0;
    var chunk := if sorted then s.chunk else s.chunk + 1;
    if pend > c.n - c.m || sends >= c.reset then Prepared(Sched(r.0, s.sizes, 0, 0), n)
    else Prepared(Sched(r.0, s.sizes, pend, chunk), n)
  }

  /** The dispatch hands the first PVs to the pool threads and advances the index past them. */
  function Dispatch(p: Prepared): (s: Sched)
    requires p.sending <= |p.s.ring| == |p.s.sizes|
    ensures |s.ring| == |p.s.ring| && |s.sizes| == |p.s.sizes|
  {
    Sched(Rotate(p.s.ring, p.sending), Rotate(p.s.sizes, p.sending), p.s.pend, p.s.chunk)
  }

  /** What happens around a cycle: the flags the snapshot handed over, and whether a pool thread that
      (re)connects resets the chunk counter after the loop has read it, or before the next cycle. */
  datatype Input = Input(flags: seq<bool>, resetDuring: bool, resetAfter: bool)

  datatype Run = Run(s: Sched, sends: nat, pending: set<nat>)

  ghost predicate GoodInput(c: Config, e: Input)
  {
    |e.flags| == c.n
  }

  function Sent(p: Prepared): (r: seq<nat>)
    requires p.sending <= |p.s.ring|
  {
    p.s.ring[..p.sending]
  }

  function PreparedBy(c: Config, s: Sched, sends: nat, e: Input): (p: Prepared)
    requires |s.ring| == |s.sizes| == c.n == |e.flags| > 0 && c.m <= c.n && forall k | 0 <= k < c.n :: s.ring[k] < c.n
    ensures p.sending <= c.m && |p.s.ring| == c.n && p.s.sizes == s.sizes
  {
    Prepare(c, if e.resetDuring then s.(chunk := 0) else s, s.chunk, e.flags, sends)
  }

  /** A cycle on the whole run. A PV is pending from a sorted pass that finds it flagged until it is
      sent; a reset of the window forgets all pending PVs. */
  ghost function Cycle(c: Config, r: Run, e: Input): (r': Run)
    requires Good(c, r.s) && GoodInput(c, e)
  {
    var p := PreparedBy(c, r.s, r.sends, e);
    var s := Dispatch(p);
    var found := if r.s.chunk >= c.chunks then set v | 0 <= v < c.n && e.flags[v] else {};
    var reset := p.s.pend == 0 && Reordered(c, r.s, r.s.chunk, e.flags).1 > p.sending;
    Run(if e.resetAfter then s.(chunk := 0) else s, r.sends + 1,
        if reset then {} else r.pending + found - set v | v in Sent(p))
  }

  /** What every run keeps: the schedule is a permutation of the PVs, and every pending PV is in the
      change window. */
  ghost predicate Kept(c: Config, r: Run)
  {
    Good(c, r.s) && forall v | v in r.pending :: v < c.n && InWindow(r.s.ring, r.s.pend, v)
  }

  /** The unsent part of the window is the shrunken window of the rotated ring. */
  lemma WindowShrinks(ring: seq<nat>, w: nat, n: nat, v: nat)
    requires n <= |ring| && InWindow(ring, w, v) && v !in ring[..n]
    ensures w > n && InWindow(Rotate(ring, n), w - n, v)
  {
    var k :| 0 <= k < |ring| && k < w && ring[k] == v;
    assert forall i | 0 <= i < n :: ring[i] in ring[..n];
    assert Rotate(ring, n)[k - n] == v;
  }

  lemma CycleKeeps(c: Config, r: Run, e: Input)
    requires Kept(c, r) && GoodInput(c, e)
    ensures Kept(c, Cycle(c, r, e))
  {
    var p, r' := PreparedBy(c, r.s, r.sends, e), Cycle(c, r, e);
    var w := Reordered(c, r.s, r.s.chunk, e.flags).1;
    ReorderedKeeps(c, r, e);
    RotatePermutes(p.s.ring, c.n, p.sending);
    forall v | v in r'.pending ensures v < c.n && InWindow(r'.s.ring, r'.s.pend, v) {
      assert InWindow(p.s.ring, w, v) && v !in Sent(p);
      WindowShrinks(p.s.ring, w, p.sending, v);
    }
  }

  /** After a sorted pass every flagged and every pending PV is in the window; without one the
      window and what is pending are as before. */
  lemma ReorderedKeeps(c: Config, r: Run, e: Input)
    requires Kept(c, r) && GoodInput(c, e)
    ensures var w := Reordered(c, r.s, r.s.chunk, e.flags);
      && IsPermutation(w.0, c.n)
      && (forall v | v in r.pending :: InWindow(w.0, w.1, v))
      && (r.s.chunk >= c.chunks ==> forall v | 0 <= v < c.n && e.flags[v] :: InWindow(w.0, w.1, v))
  {
    if r.s.chunk >= c.chunks {
      SortPassPermutes(e.flags, r.s.sizes, r.s.ring, r.s.pend, 0);
      forall v | 0 <= v < c.n
        ensures var w := SortPass(e.flags, r.s.sizes, r.s.ring, r.s.pend, 0);
          e.flags[v] || InWindow(r.s.ring, r.s.pend, v) ==> InWindow(w.0, w.1, v)
      {
        assert v in r.s.ring;
        SortPassWindow(e.flags, r.s.sizes, r.s.ring, r.s.pend, 0, v);
      }
    }
  }
}
