/** Where each PV's bytes are and where its offset points: the spot its last thread gave it, and the place
    the remap makes of the offset, in every order in which the threads may have run. */
module Placement {
  import opened Bytes
  import opened Slices
  import opened WorkSplit

  /** A place in the memory of a thread. */
  datatype Spot = Spot(thread: nat, at: nat)

  /** Every PV has the spot that some thread over it gave it. */
  ghost predicate Spotted(pvs: seq<Pv>, maxArraySize: nat, threads: nat, spots: seq<Spot>)
    requires threads > 0
  {
    |spots| == |pvs| && forall i | 0 <= i < |pvs| :: SpotFrom(pvs, maxArraySize, threads, spots[i], i)
  }

  ghost predicate SpotFrom(pvs: seq<Pv>, maxArraySize: nat, threads: nat, spot: Spot, i: nat)
    requires threads > 0 && i < |pvs|
  {
    && spot.thread < threads && InRange(|pvs|, threads, spot.thread, i)
    && spot.at == Offset(pvs, maxArraySize, Beg(|pvs|, threads, spot.thread), i)
  }

  /** Value and timestamp of a connected PV lie in the memory of its spot's thread, in every order. */
  lemma SpotFits(pvs: seq<Pv>, maxArraySize: nat, threads: nat, sizes: seq<nat>, spot: Spot, i: nat)
    requires threads > 0 && i < |pvs| && Sized(pvs, maxArraySize, threads, sizes) && IsConnected(pvs, maxArraySize, i)
    requires SpotFrom(pvs, maxArraySize, threads, spot, i)
    ensures spot.at + Value(pvs[i]) + STAMP <= sizes[spot.thread]
  {
    OffsetFits(pvs, maxArraySize, Beg(|pvs|, threads, spot.thread), i + 1, End(|pvs|, threads, spot.thread));
  }

  /** And no other PV's do. */
  lemma SpotsApart(pvs: seq<Pv>, maxArraySize: nat, threads: nat, spots: seq<Spot>, i: nat, j: nat)
    requires threads > 0 && Spotted(pvs, maxArraySize, threads, spots) && i < j < |pvs|
    requires IsConnected(pvs, maxArraySize, i) && spots[i].thread == spots[j].thread
    ensures spots[i].at + Value(pvs[i]) + STAMP <= spots[j].at
  {
    assert SpotFrom(pvs, maxArraySize, threads, spots[i], i) && SpotFrom(pvs, maxArraySize, threads, spots[j], j);
    OffsetFits(pvs, maxArraySize, Beg(|pvs|, threads, spots[i].thread), i + 1, j);
  }

  /** The bytes of the threads before the owner of PV i: what the remap adds to its offset. */
  function Before(n: nat, sizes: seq<nat>, i: nat): nat
    requires |sizes| > 0 && i < n
  {
    OwnerHas(n, |sizes|, i);
    WorkSplit.Sum(sizes[..Owner(n, |sizes|, i)])
  }

  /** The remapped offset is the place of the PV's spot in the concatenation of the memories. */
  ghost predicate AtItsPlace(n: nat, sizes: seq<nat>, spot: Spot, i: nat)
    requires |sizes| > 0 && i < n && spot.thread < |sizes|
  {
    Before(n, sizes, i) + spot.at == WorkSplit.Sum(sizes[..spot.thread]) + spot.at
  }

  lemma Quotient(i: nat, q: nat, k: nat)
    requires q > 0 && k == i / q
    ensures i < (k + 1) * q
  {
    assert i == k * q + i % q;
    assert (k + 1) * q == k * q + q;
  }

  lemma NotPast(t: nat, k: nat, q: nat, i: nat)
    requires t * q <= i < (k + 1) * q
    ensures t <= k
  {
    if t > k { Step(k, t, q); }
  }

  lemma OwnerIsLast(n: nat, threads: nat, t: nat, i: nat)
    requires threads > 0 && t < threads && i < n && InRange(n, threads, t, i)
    ensures t <= Owner(n, threads, i)
  {
    var q := n / threads;
    if q > 0 {
      Quotient(i, q, i / q);
      NotPast(t, i / q, q, i);
    }
  }

  /** A connected PV's offset is right exactly when its spot is in the memory of its owner. */
  lemma RightExactlyWhen(pvs: seq<Pv>, maxArraySize: nat, threads: nat, sizes: seq<nat>, spot: Spot, i: nat)
    requires threads > 0 && i < |pvs| && Sized(pvs, maxArraySize, threads, sizes) && IsConnected(pvs, maxArraySize, i)
    requires SpotFrom(pvs, maxArraySize, threads, spot, i)
    ensures AtItsPlace(|pvs|, sizes, spot, i) <==> spot.thread == Owner(|pvs|, threads, i)
  {
    var t, u := spot.thread, Owner(|pvs|, threads, i);
    OwnerHas(|pvs|, threads, i);
    OwnerIsLast(|pvs|, threads, t, i);
    if t < u {
      SpotFits(pvs, maxArraySize, threads, sizes, spot, i);
      WorkSplit.SumGrows(sizes[..u], t);
      assert sizes[..u][..t] == sizes[..t];
    }
  }

  // ----- in every order

  /** The last of these threads whose range has PV i; none is the number of threads. */
  ghost function LastOver(n: nat, threads: nat, order: seq<nat>, i: nat): (t: nat)
    requires threads > 0
  {
    if order == [] then threads
    else if InRange(n, threads, order[|order| - 1], i) then order[|order| - 1]
    else LastOver(n, threads, order[..|order| - 1], i)
  }

  lemma {:induction false} LastOfMore(n: nat, threads: nat, order: seq<nat>, t: nat, i: nat)
    requires threads > 0
    ensures LastOver(n, threads, order + [t], i) ==
      if InRange(n, threads, t, i) then t else LastOver(n, threads, order, i)
  {
    assert (order + [t])[..|order|] == order;
  }

  lemma {:induction false} SomeOver(n: nat, threads: nat, order: seq<nat>, t: nat, i: nat)
    requires threads > 0 && t in order && InRange(n, threads, t, i)
      && forall k | 0 <= k < |order| :: order[k] < threads
    ensures var last := LastOver(n, threads, order, i); last < threads && InRange(n, threads, last, i)
  {
    var front := order[..|order| - 1];
    assert order == front + [order[|order| - 1]];
    if !InRange(n, threads, order[|order| - 1], i) { SomeOver(n, threads, front, t, i); }
  }

  /** All threads, each once. */
  ghost predicate EachOnce(order: seq<nat>, threads: nat)
  {
    ClaimOrder(order, threads) && |order| == threads
  }

  lemma EveryThread(order: seq<nat>, threads: nat, t: nat)
    requires EachOnce(order, threads) && t < threads
    ensures t in order
  {
    if t !in order {
      var more := order + [t];
      assert ClaimOrder(more, threads);
      AtMostOnceEach(more, threads);
      assert false;
    }
  }

  lemma {:induction false} LastHas(n: nat, threads: nat, order: seq<nat>, i: nat)
    requires threads > 0 && EachOnce(order, threads) && i < n
    ensures var t := LastOver(n, threads, order, i); t < threads && InRange(n, threads, t, i)
  {
    OwnerHas(n, threads, i);
    EveryThread(order, threads, Owner(n, threads, i));
    SomeOver(n, threads, order, Owner(n, threads, i), i);
  }

  /** The spot PV i has after the threads have run in this order. */
  ghost function SpotAfter(pvs: seq<Pv>, maxArraySize: nat, threads: nat, order: seq<nat>, i: nat): (s: Spot)
    requires threads > 0 && EachOnce(order, threads) && i < |pvs|
    ensures SpotFrom(pvs, maxArraySize, threads, s, i)
  {
    LastHas(|pvs|, threads, order, i);
    var t := LastOver(|pvs|, threads, order, i);
    Spot(t, Offset(pvs, maxArraySize, Beg(|pvs|, threads, t), i))
  }

  /** In every order every connected PV's offset is right. */
  ghost predicate RightInEveryOrder(pvs: seq<Pv>, maxArraySize: nat, sizes: seq<nat>)
    requires |sizes| > 0
  {
    forall order, i | EachOnce(order, |sizes|) && 0 <= i < |pvs| && IsConnected(pvs, maxArraySize, i) ::
      AtItsPlace(|pvs|, sizes, SpotAfter(pvs, maxArraySize, |sizes|, order, i), i)
  }

  /** No connected PV is in the ranges of two threads. */
  ghost predicate NoneShared(pvs: seq<Pv>, maxArraySize: nat, threads: nat)
    requires threads > 0
  {
    forall t, u, i | 0 <= t < u < threads && 0 <= i < |pvs| && IsConnected(pvs, maxArraySize, i) ::
      !(InRange(|pvs|, threads, t, i) && InRange(|pvs|, threads, u, i))
  }

  /** An order in which thread t runs last. */
  function TurnOf(threads: nat, t: nat): (order: seq<nat>)
    requires t < threads
    ensures |order| == threads && order[threads - 1] == t
  {
    seq(threads, k requires 0 <= k < threads => if k < t then k else if k < threads - 1 then k + 1 else t)
  }

  lemma TurnIsOrder(threads: nat, t: nat)
    requires t < threads
    ensures EachOnce(TurnOf(threads, t), threads)
  {
  }

  /** Every connected PV ends at its own place, in every order in which the threads may run, exactly when
      none of them is in the ranges of two threads. */
  lemma EveryOrderExactlyWhen(pvs: seq<Pv>, maxArraySize: nat, sizes: seq<nat>)
    requires |sizes| > 0 && Sized(pvs, maxArraySize, |sizes|, sizes)
    ensures RightInEveryOrder(pvs, maxArraySize, sizes) <==> NoneShared(pvs, maxArraySize, |sizes|)
  {
    var threads := |sizes|;
    forall order, i | EachOnce(order, threads) && 0 <= i < |pvs| && IsConnected(pvs, maxArraySize, i)
      ensures AtItsPlace(|pvs|, sizes, SpotAfter(pvs, maxArraySize, threads, order, i), i)
        <==> LastOver(|pvs|, threads, order, i) == Owner(|pvs|, threads, i)
    {
      RightExactlyWhen(pvs, maxArraySize, threads, sizes, SpotAfter(pvs, maxArraySize, threads, order, i), i);
    }
    if NoneShared(pvs, maxArraySize, threads) {
      forall order, i | EachOnce(order, threads) && 0 <= i < |pvs| && IsConnected(pvs, maxArraySize, i)
        ensures LastOver(|pvs|, threads, order, i) == Owner(|pvs|, threads, i)
      {
        LastHas(|pvs|, threads, order, i);
        OwnerHas(|pvs|, threads, i);
      }
    } else {
      var t, u, i :| 0 <= t < u < threads && 0 <= i < |pvs| && IsConnected(pvs, maxArraySize, i)
        && InRange(|pvs|, threads, t, i) && InRange(|pvs|, threads, u, i);
      OwnerIsLast(|pvs|, threads, u, i);
      TurnIsOrder(threads, t);
      assert LastOver(|pvs|, threads, TurnOf(threads, t), i) == t;
    }
  }

  /** For two or more threads and a list whose last PV is connected, that is exactly when quotient and
      remainder of the split together reach the number of threads. */
  lemma SplitIsRightExactlyWhen(pvs: seq<Pv>, maxArraySize: nat, sizes: seq<nat>)
    requires |sizes| >= 2 && Sized(pvs, maxArraySize, |sizes|, sizes)
    requires pvs != [] && IsConnected(pvs, maxArraySize, |pvs| - 1)
    ensures RightInEveryOrder(pvs, maxArraySize, sizes) <==> |pvs| / |sizes| + |pvs| % |sizes| >= |sizes|
  {
    var n, threads := |pvs|, |sizes|;
    EveryOrderExactlyWhen(pvs, maxArraySize, sizes);
    DisjointExactlyWhen(n, threads);
    if n / threads + n % threads < threads {
      LastIsShared(n, threads);
    }
  }

  /** With such a split every PV's spot is its owner's, and its offset ends at the place there, in every order. */
  lemma OwnerPlaces(pvs: seq<Pv>, maxArraySize: nat, threads: nat, sizes: seq<nat>, order: seq<nat>, i: nat)
    requires threads > 0 && |sizes| == threads && EachOnce(order, threads) && i < |pvs|
    requires |pvs| / threads + |pvs| % threads >= threads
    ensures var s := SpotAfter(pvs, maxArraySize, threads, order, i);
      && s == Spot(Owner(|pvs|, threads, i), Local(pvs, maxArraySize, threads, i))
      && Before(|pvs|, sizes, i) + s.at == Final(pvs, maxArraySize, threads, sizes, i)
  {
    LastHas(|pvs|, threads, order, i);
    OwnerIsTheOnlyOne(|pvs|, threads, LastOver(|pvs|, threads, order, i), i);
  }
}
