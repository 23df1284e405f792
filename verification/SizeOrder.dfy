/** What the sorted pass does to the order of the PVs: where a flagged PV ends, which PVs it passes, and what
    the window holds afterwards. */
module SizeOrder {
  import opened Ring

  /** The position t places before p, going round. */
  function Down(p: nat, t: nat, n: nat): (q: nat)
    requires p < n && t <= n
    ensures q < n
  {
    if t <= p then p - t else p + n - t
  }

  /** How far it is down from p to i, going round; all the way round if they are the same. */
  function Distance(p: nat, i: nat, n: nat): (d: nat)
    requires p < n && i < n
    ensures 0 < d <= n && Down(p, d, n) == i
  {
    if i < p then p - i else p + n - i
  }

  /** The PV at position p has gone down m places: the sizes at them are all larger than `size`, and the one
      before them is not, unless the window begins there. The PVs it passed have moved up one, in their
      order; all others are where they were. */
  ghost predicate WentDown(sizes: seq<nat>, was: seq<nat>, now: seq<nat>, j: nat, p: nat, size: nat, m: nat)
    requires p < |was| == |now| == |sizes|
  {
    var n := |was|;
    && m <= j && m < n
    && now[Down(p, m, n)] == was[p]
    && (forall t | 1 <= t <= m :: sizes[Down(p, t, n)] > size)
    && (m == j || sizes[Down(p, m + 1, n)] <= size)
    && (forall t | 0 <= t < m :: now[Down(p, t, n)] == was[Down(p, t + 1, n)])
    && (forall k | 0 <= k < n && !Passed(p, m, n, k) :: now[k] == was[k])
  }

  /** Position k is among the places from p down to where the PV ends. */
  ghost predicate Passed(p: nat, m: nat, n: nat, k: nat)
    requires p < n
  {
    exists t :: 0 <= t <= m < n && Down(p, t, n) == k
  }

  /** The move by size does that, and stops at the latest behind a position whose size is not larger. */
  lemma {:induction false} BubbleGoesDown(ring: seq<nat>, sizes: seq<nat>, j: nat, p: nat, size: nat, i: nat)
    returns (m: nat)
    requires p < |ring| == |sizes| && i < |ring| && sizes[i] <= size
    ensures m < Distance(p, i, |ring|) && WentDown(sizes, ring, Bubble(ring, sizes, j, p, size), j, p, size, m)
    decreases j
  {
    var n, q := |ring|, Before(p, |ring|);
    if j == 0 || sizes[q] <= size {
      m := 0;
      assert Down(p, 0, n) == p && Down(p, 1, n) == q;
      assert Passed(p, 0, n, p);
    } else {
      var next := Swap(ring, q, p);
      m := BubbleGoesDown(next, sizes, j - 1, q, size, i);
      OneMoreDown(sizes, ring, next, Bubble(next, sizes, j - 1, q, size), j, p, size, m);
      m := m + 1;
    }
  }

  lemma OneMoreDown(sizes: seq<nat>, ring: seq<nat>, next: seq<nat>, now: seq<nat>, j: nat, p: nat, size: nat, m: nat)
    requires p < |ring| == |next| == |now| == |sizes| && j > 0 && sizes[Before(p, |ring|)] > size
    requires next == Swap(ring, Before(p, |ring|), p) && m + 1 < |ring|
    requires WentDown(sizes, next, now, j - 1, Before(p, |ring|), size, m)
    ensures WentDown(sizes, ring, now, j, p, size, m + 1)
  {
    var n, q := |ring|, Before(p, |ring|);
    forall t | 0 <= t < n ensures Down(q, t, n) == Down(p, t + 1, n) {}
    forall t | 0 <= t <= m ensures Down(q, t, n) != p {}
    forall t | 1 <= t <= m + 1 ensures sizes[Down(p, t, n)] > size {
      assert Down(q, t - 1, n) == Down(p, t, n);
    }
    assert !Passed(q, m, n, p);
    forall t | 0 <= t < m + 1 ensures now[Down(p, t, n)] == ring[Down(p, t + 1, n)] {
      if t > 0 { assert Down(p, t, n) == Down(q, t - 1, n) && Down(p, t + 1, n) == Down(q, t, n); }
    }
    forall k | 0 <= k < n && !Passed(p, m + 1, n, k) ensures now[k] == ring[k] {
      PassedBefore(p, m, n, k);
    }
    assert now[Down(p, m + 1, n)] == now[Down(q, m, n)] == ring[p];
    assert m + 1 == j || Down(q, m + 1, n) == Down(p, m + 2, n);
  }

  lemma PassedBefore(p: nat, m: nat, n: nat, k: nat)
    requires p < n && m + 1 < n && k < n
    ensures Passed(Before(p, n), m, n, k) || k == p || k == Before(p, n) ==> Passed(p, m + 1, n, k)
  {
    if Passed(Before(p, n), m, n, k) {
      var t :| 0 <= t <= m < n && Down(Before(p, n), t, n) == k;
      assert Down(p, t + 1, n) == k;
    }
    assert Down(p, 0, n) == p && Down(p, 1, n) == Before(p, n);
  }

  /** A flagged PV found at position i is taken into the window of this length: it ends m places below the
      window's end, in front of sizes all larger than its own, and behind one that is not, or at the start of
      the window. The PVs it passed have moved up one, in their order, and the PV that stood at the end of the
      window is where it came from. The same holds when the window has outgrown the ring. */
  ghost predicate TakenIn(sizes: seq<nat>, was: seq<nat>, now: seq<nat>, pend: nat, i: nat, m: nat)
    requires i < |was| == |now| == |sizes|
  {
    var n, p := |was|, Turn(pend, |was|);
    && m <= pend && m < Distance(p, i, n)
    && now[Down(p, m, n)] == was[i]
    && (forall t | 1 <= t <= m :: sizes[Down(p, t, n)] > sizes[i])
    && (m == pend || sizes[Down(p, m + 1, n)] <= sizes[i])
    && (forall t | 0 <= t < m :: now[Down(p, t, n)] == was[Down(p, t + 1, n)])
    && (i != p ==> now[i] == was[p])
    && (forall k | 0 <= k < n && k != i && !Passed(p, m, n, k) :: now[k] == was[k])
  }

  lemma TakenInBySize(sizes: seq<nat>, ring: seq<nat>, pend: nat, i: nat) returns (m: nat)
    requires i < |ring| == |sizes|
    ensures TakenIn(sizes, ring, TakeIn(sizes, ring, pend, i), pend, i, m)
  {
    var p := Turn(pend, |ring|);
    var s, now := Swap(ring, p, i), TakeIn(sizes, ring, pend, i);
    m := BubbleGoesDown(s, sizes, pend, p, sizes[i], i);
    FromWhereItWas(sizes, ring, s, now, pend, p, i, m);
  }

  lemma FromWhereItWas(sizes: seq<nat>, ring: seq<nat>, s: seq<nat>, now: seq<nat>, pend: nat, p: nat, i: nat, m: nat)
    requires i < |ring| == |s| == |now| == |sizes| && p == Turn(pend, |ring|) && s == Swap(ring, p, i)
    requires m < Distance(p, i, |ring|) && WentDown(sizes, s, now, pend, p, sizes[i], m)
    ensures TakenIn(sizes, ring, now, pend, i, m)
  {
    var n := |ring|;
    assert Down(p, 0, n) == p;
    forall t | 1 <= t <= m ensures Down(p, t, n) != i && Down(p, t, n) != p {}
    if i != p { assert !Passed(p, m, n, i); }
    assert Passed(p, m, n, p);
  }

  // ----- a whole pass

  /** The first `pend` PVs are flagged and the others before position i are not. */
  ghost predicate FlaggedFirst(flags: seq<bool>, ring: seq<nat>, pend: nat, i: nat)
  {
    && pend <= i <= |ring| && (forall k | 0 <= k < |ring| :: ring[k] < |flags|)
    && (forall k | 0 <= k < pend :: flags[ring[k]])
    && (forall k | pend <= k < i :: !flags[ring[k]])
  }

  lemma OneMoreFlagged(flags: seq<bool>, sizes: seq<nat>, ring: seq<nat>, pend: nat, i: nat)
    requires FlaggedFirst(flags, ring, pend, i) && i < |ring| == |sizes| && flags[ring[i]]
    ensures FlaggedFirst(flags, TakeIn(sizes, ring, pend, i), pend + 1, i + 1)
  {
    var s, r := Swap(ring, pend, i), TakeIn(sizes, ring, pend, i);
    BubbleInside(s, sizes, pend, pend, sizes[i], pend + 1);
    forall k | 0 <= k < pend + 1 ensures flags[r[k]] {
      assert InWindow(r, pend + 1, r[k]);
      assert InWindow(s, pend + 1, r[k]);
    }
  }

  /** A pass that starts with an empty window ends with exactly the flagged PVs in it, and counts them. */
  lemma {:induction false} FlaggedComeFirst(flags: seq<bool>, sizes: seq<nat>, ring: seq<nat>, pend: nat, i: nat)
    requires FlaggedFirst(flags, ring, pend, i) && |ring| == |sizes| > 0
    ensures var r := SortPass(flags, sizes, ring, pend, i); FlaggedFirst(flags, r.0, r.1, |ring|)
    decreases |ring| - i
  {
    if i < |ring| {
      if flags[ring[i]] {
        OneMoreFlagged(flags, sizes, ring, pend, i);
        FlaggedComeFirst(flags, sizes, TakeIn(sizes, ring, pend, i), pend + 1, i + 1);
      } else {
        FlaggedComeFirst(flags, sizes, ring, pend, i + 1);
      }
    }
  }

  lemma FromEmptyWindow(flags: seq<bool>, sizes: seq<nat>, ring: seq<nat>)
    requires IsPermutation(ring, |flags|) && |sizes| == |flags| > 0
    ensures var r := SortPass(flags, sizes, ring, 0, 0);
      IsPermutation(r.0, |flags|) && r.1 <= |flags| && forall k | 0 <= k < |flags| :: flags[r.0[k]] <==> k < r.1
  {
    FlaggedComeFirst(flags, sizes, ring, 0, 0);
    SortPassPermutes(flags, sizes, ring, 0, 0);
  }

  /** A sender that sends only what has changed dispatches nothing else in a sorted cycle that begins with an
      empty window. */
  lemma OnlyChangedAreSent(c: Config, s: Sched, read: nat, flags: seq<bool>, sends: nat, k: nat)
    requires Good(c, s) && |flags| == c.n && c.onlyChanged && read >= c.chunks && s.pend == 0
    requires k < Prepare(c, s, read, flags, sends).sending
    ensures var v := Prepare(c, s, read, flags, sends).s.ring[k]; v < c.n && flags[v]
  {
    FromEmptyWindow(flags, s.sizes, s.ring);
  }

  /** The PV found at a position goes by the size at that position: here the larger one stays behind. */
  lemma GoesByItsOwnSize()
    ensures SortPass([true, false, true], [4, 8, 2], [0, 1, 2], 0, 0) == ([2, 0, 1], 2)
  {
    var sizes, flags := [4, 8, 2], [true, false, true];
    assert TakeIn(sizes, [0, 1, 2], 0, 0) == [0, 1, 2];
    assert Bubble([0, 2, 1], sizes, 1, 1, 2) == Bubble([2, 0, 1], sizes, 0, 0, 2) == [2, 0, 1];
    assert TakeIn(sizes, [0, 1, 2], 1, 2) == [2, 0, 1];
    assert SortPass(flags, sizes, [0, 1, 2], 1, 1) == SortPass(flags, sizes, [0, 1, 2], 1, 2);
  }
}
