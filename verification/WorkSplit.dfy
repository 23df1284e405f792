/** How the PVs are split over the subscriber's threads (the receiver splits its own the same way), how
    each thread lays out its memory, and where a PV is found in the concatenation of all of them. */
module WorkSplit {
  import opened Bytes
  import opened Circular

  // ----- ranges

  function Beg(n: nat, threads: nat, t: nat): nat
    requires threads > 0
  {
    t * (n / threads)
  }

  /** The range runs to the end when fewer PVs than threads would be left after it. */
  function End(n: nat, threads: nat, t: nat): int
    requires threads > 0
  {
    var end := (t + 1) * (n / threads);
    if n - end < threads then n else end
  }

  ghost predicate InRange(n: nat, threads: nat, t: nat, i: int)
    requires threads > 0
  {
    Beg(n, threads, t) <= i < End(n, threads, t)
  }

  /** The quotient q and remainder r of the split, with the products the proofs need. */
  lemma Parts(n: nat, threads: nat, q: nat, r: nat)
    requires threads > 0 && q == n / threads && r == n % threads
    ensures n == threads * q + r && r < threads
    ensures (threads - 1) * q + q == threads * q
  {
  }

  lemma Step(t: nat, u: nat, q: nat)
    requires t < u
    ensures (t + 1) * q <= u * q && (t + 1) * q == t * q + q
  {
    assert u * q == (t + 1) * q + (u - t - 1) * q;
  }

  lemma Ends(n: nat, threads: nat, t: nat)
    requires t < threads
    ensures var q := n / threads;
      && Beg(n, threads, t) <= (t + 1) * q <= End(n, threads, t) <= n
      && (t == threads - 1 ==> End(n, threads, t) == n)
      && (t + 1 < threads && q + n % threads >= threads ==> End(n, threads, t) == (t + 1) * q)
  {
    var q, r := n / threads, n % threads;
    Parts(n, threads, q, r);
    Step(t, threads, q);
    if t + 1 < threads { Step(t + 1, threads, q); }
  }

  /** The ranges cover all PVs, for any number of them and of threads. */
  lemma RangesCover(n: nat, threads: nat, i: nat) returns (t: nat)
    requires threads > 0 && i < n
    ensures t < threads && InRange(n, threads, t, i)
  {
    t := Owner(n, threads, i);
    OwnerHas(n, threads, i);
  }

  /** The thread a PV belongs to. */
  function Owner(n: nat, threads: nat, i: nat): nat
    requires threads > 0
  {
    var q := n / threads;
    if q == 0 || i / q > threads - 1 then threads - 1 else i / q
  }

  lemma OwnerHas(n: nat, threads: nat, i: nat)
    requires threads > 0 && i < n
    ensures Owner(n, threads, i) < threads && InRange(n, threads, Owner(n, threads, i), i)
  {
    var q, t := n / threads, Owner(n, threads, i);
    Ends(n, threads, t);
    if q > 0 {
      var k := i / q;
      assert i == k * q + i % q;
      Step(k, k + 1, q);
      if k > threads - 1 { Step(threads - 1, k, q); }
    } else {
      assert t * q == 0;
    }
  }

  ghost predicate RangesDisjoint(n: nat, threads: nat)
    requires threads > 0
  {
    forall t, u, i | 0 <= t < u < threads && 0 <= i < n :: !(InRange(n, threads, t, i) && InRange(n, threads, u, i))
  }

  /** Otherwise the last but one range runs to the end, over the last. */
  lemma LastIsShared(n: nat, threads: nat)
    requires threads >= 2 && n >= 1 && n / threads + n % threads < threads
    ensures InRange(n, threads, threads - 2, n - 1) && InRange(n, threads, threads - 1, n - 1)
  {
    var q, r := n / threads, n % threads;
    Parts(n, threads, q, r);
    Step(threads - 2, threads - 1, q);
    Step(threads - 1, threads, q);
    Ends(n, threads, threads - 1);
  }

  /** Two or more threads share no PV exactly when quotient and remainder together reach the number of
      threads: otherwise the last but one range runs to the end over the last. */
  lemma DisjointExactlyWhen(n: nat, threads: nat)
    requires n >= 1 && threads >= 2
    ensures RangesDisjoint(n, threads) <==> n / threads + n % threads >= threads
  {
    var q, r := n / threads, n % threads;
    if q + r >= threads {
      forall t, u, i | 0 <= t < u < threads && 0 <= i < n
        ensures !(InRange(n, threads, t, i) && InRange(n, threads, u, i))
      {
        Ends(n, threads, t);
        Step(t, u, q);
      }
    } else {
      LastIsShared(n, threads);
    }
  }

  // ----- one thread's memory

  /** A PV as the library reports it: its number of elements (none if it is not connected) and the size
      of one. */
  datatype Pv = Pv(elements: nat, size: nat)

  function Value(p: Pv): nat { p.elements * p.size }

  /** The PVs with more elements than allowed are discarded. */
  function Kept(p: Pv, maxArraySize: nat): Pv
  {
    if p.elements > maxArraySize then p.(elements := 0) else p
  }

  /** What a PV adds to its thread's memory: an unconnected one still adds a timestamp, a discarded one
      nothing. */
  function Alloc(p: Pv, maxArraySize: nat): nat
  {
    if p.elements > maxArraySize then 0 else Value(p) + STAMP
  }

  /** What a PV moves the next one's offset by. */
  function Used(p: Pv, maxArraySize: nat): nat
  {
    if Kept(p, maxArraySize).elements > 0 then Value(p) + STAMP else 0
  }

  function MemorySize(pvs: seq<Pv>, maxArraySize: nat, beg: nat, end: nat): nat
    requires beg <= end <= |pvs|
    decreases end
  {
    if beg == end then 0 else MemorySize(pvs, maxArraySize, beg, end - 1) + Alloc(pvs[end - 1], maxArraySize)
  }

  function Offset(pvs: seq<Pv>, maxArraySize: nat, beg: nat, i: nat): nat
    requires beg <= i <= |pvs|
    decreases i
  {
    if beg == i then 0 else Offset(pvs, maxArraySize, beg, i - 1) + Used(pvs[i - 1], maxArraySize)
  }

  /** The offsets stay inside the memory, and keep the order of the PVs. */
  lemma {:induction false} OffsetFits(pvs: seq<Pv>, maxArraySize: nat, beg: nat, i: nat, end: nat)
    requires beg <= i <= end <= |pvs|
    ensures Offset(pvs, maxArraySize, beg, i) <= Offset(pvs, maxArraySize, beg, end) <=
      MemorySize(pvs, maxArraySize, beg, end)
    decreases end
  {
    if beg < end {
      OffsetFits(pvs, maxArraySize, beg, if i == end then i - 1 else i, end - 1);
    }
  }

  // ----- the concatenation

  function Sum(sizes: seq<nat>): nat
  {
    if sizes == [] then 0 else Sum(sizes[..|sizes| - 1]) + sizes[|sizes| - 1]
  }

  lemma {:induction false} SumGrows(sizes: seq<nat>, k: nat)
    requires k <= |sizes|
    ensures Sum(sizes[..k]) <= Sum(sizes)
    ensures k < |sizes| ==> Sum(sizes[..k]) + sizes[k] <= Sum(sizes)
    decreases |sizes|
  {
    if k < |sizes| {
      var front := sizes[..|sizes| - 1];
      assert front[..k] == sizes[..k];
      SumGrows(front, k);
    } else {
      assert sizes[..k] == sizes;
    }
  }

  /** A part of one thread's memory in the concatenation of all. */
  lemma {:induction false} InConcatenation(mems: seq<seq<Byte>>, sizes: seq<nat>, t: nat, x: nat, length: nat)
    requires |mems| == |sizes| && (forall k | 0 <= k < |mems| :: |mems[k]| == sizes[k]) && t < |mems|
      && x + length <= sizes[t]
    ensures var at := Sum(sizes[..t]) + x;
      at + length <= |Flatten(mems)| && Flatten(mems)[at..at + length] == mems[t][x..x + length]
  {
    FlattenFrom(mems, sizes, t);
    SplitAt(mems, sizes, t);
    MiddlePart(Flatten(mems[..t]), mems[t], Flatten(mems[t..][1..]), x, length);
  }

  lemma MiddlePart(a: seq<Byte>, b: seq<Byte>, c: seq<Byte>, x: nat, length: nat)
    requires x + length <= |b|
    ensures (a + (b + c))[|a| + x..|a| + x + length] == b[x..x + length]
  {
  }

  lemma FlattenFrom(mems: seq<seq<Byte>>, sizes: seq<nat>, t: nat)
    requires |mems| == |sizes| && (forall k | 0 <= k < |mems| :: |mems[k]| == sizes[k]) && t <= |mems|
    ensures |Flatten(mems[..t])| == Sum(sizes[..t])
  {
    if t > 0 {
      FlattenFrom(mems, sizes, t - 1);
      assert mems[..t] == mems[..t - 1] + [mems[t - 1]];
      FlattenSnoc(mems[..t - 1], mems[t - 1]);
      assert sizes[..t][..t - 1] == sizes[..t - 1];
    }
  }

  lemma {:induction false} SplitAt(mems: seq<seq<Byte>>, sizes: seq<nat>, t: nat)
    requires t <= |mems|
    ensures Flatten(mems) == Flatten(mems[..t]) + Flatten(mems[t..])
  {
    if t == 0 {
      assert mems[t..] == mems;
    } else {
      SplitAt(mems[1..], [], t - 1);
      assert mems[..t][0] == mems[0] && mems[..t][1..] == mems[1..][..t - 1] && mems[1..][t - 1..] == mems[t..];
    }
  }

  // ----- where every PV is found

  /** Every thread's memory has the size its range asks for. */
  ghost predicate Sized(pvs: seq<Pv>, maxArraySize: nat, threads: nat, sizes: seq<nat>)
    requires threads > 0
  {
    |sizes| == threads &&
    forall t | 0 <= t < threads ::
      0 <= Beg(|pvs|, threads, t) <= End(|pvs|, threads, t) <= |pvs| &&
      sizes[t] == MemorySize(pvs, maxArraySize, Beg(|pvs|, threads, t), End(|pvs|, threads, t))
  }

  /** The PV's offset in its own thread's memory, and after the last thread has remapped it. */
  function Local(pvs: seq<Pv>, maxArraySize: nat, threads: nat, i: nat): nat
    requires threads > 0 && i < |pvs|
  {
    OwnerHas(|pvs|, threads, i);
    Offset(pvs, maxArraySize, Beg(|pvs|, threads, Owner(|pvs|, threads, i)), i)
  }

  function Final(pvs: seq<Pv>, maxArraySize: nat, threads: nat, sizes: seq<nat>, i: nat): nat
    requires threads > 0 && i < |pvs| && |sizes| == threads
  {
    OwnerHas(|pvs|, threads, i);
    Sum(sizes[..Owner(|pvs|, threads, i)]) + Local(pvs, maxArraySize, threads, i)
  }

  /** The library has connected the PV, and it has no more elements than allowed. */
  predicate IsConnected(pvs: seq<Pv>, maxArraySize: nat, i: nat)
    requires i < |pvs|
  {
    0 < pvs[i].elements <= maxArraySize
  }

  lemma WithValue(p: Pv, maxArraySize: nat)
    requires Value(Kept(p, maxArraySize)) > 0
    ensures 0 < p.elements <= maxArraySize && Value(Kept(p, maxArraySize)) == Value(p)
  {
  }

  lemma LocalFits(pvs: seq<Pv>, maxArraySize: nat, threads: nat, sizes: seq<nat>, i: nat)
    requires threads > 0 && i < |pvs| && Sized(pvs, maxArraySize, threads, sizes) && IsConnected(pvs, maxArraySize, i)
    ensures var t := Owner(|pvs|, threads, i);
      t < threads && Local(pvs, maxArraySize, threads, i) + Value(pvs[i]) + STAMP <= sizes[t]
  {
    var t := Owner(|pvs|, threads, i);
    OwnerHas(|pvs|, threads, i);
    var beg, end := Beg(|pvs|, threads, t), End(|pvs|, threads, t);
    OffsetFits(pvs, maxArraySize, beg, i + 1, end);
  }

  /** A connected PV's final offset addresses its own value and timestamp in the concatenated memories:
      byte for byte what its thread keeps for it, and within bounds. */
  lemma {:induction false} AddressesItsOwn(pvs: seq<Pv>, maxArraySize: nat, threads: nat, sizes: seq<nat>,
                                           mems: seq<seq<Byte>>, i: nat)
    requires threads > 0 && i < |pvs| && Sized(pvs, maxArraySize, threads, sizes) && IsConnected(pvs, maxArraySize, i)
    requires |mems| == threads && (forall t | 0 <= t < threads :: |mems[t]| == sizes[t])
    ensures var at, t, local := Final(pvs, maxArraySize, threads, sizes, i), Owner(|pvs|, threads, i),
      Local(pvs, maxArraySize, threads, i);
      var length := Value(pvs[i]) + STAMP;
      && at + length <= |Flatten(mems)| && t < threads && local + length <= |mems[t]|
      && Flatten(mems)[at..at + length] == mems[t][local..local + length]
  {
    LocalFits(pvs, maxArraySize, threads, sizes, i);
    InConcatenation(mems, sizes, Owner(|pvs|, threads, i), Local(pvs, maxArraySize, threads, i), Value(pvs[i]) + STAMP);
  }

  lemma QuotientsInOrder(i: nat, j: nat, q: nat)
    requires i <= j && 0 < q
    ensures i / q <= j / q
  {
    var a, b := i / q, j / q;
    assert a * q <= i && j < b * q + q;
    assert (a - b) * q == a * q - b * q;
    MulBig(a - b, q);
  }

  lemma OwnersInOrder(n: nat, threads: nat, i: nat, j: nat)
    requires threads > 0 && i < j < n
    ensures Owner(n, threads, i) <= Owner(n, threads, j)
  {
    var q := n / threads;
    if q > 0 { QuotientsInOrder(i, j, q); }
  }

  /** The regions of different PVs do not overlap. */
  lemma RegionsDisjoint(pvs: seq<Pv>, maxArraySize: nat, threads: nat, sizes: seq<nat>, i: nat, j: nat)
    requires threads > 0 && i < j < |pvs| && Sized(pvs, maxArraySize, threads, sizes)
    requires IsConnected(pvs, maxArraySize, i) && IsConnected(pvs, maxArraySize, j)
    ensures Final(pvs, maxArraySize, threads, sizes, i) + Value(pvs[i])
      + STAMP <= Final(pvs, maxArraySize, threads, sizes, j)
  {
    var t, u := Owner(|pvs|, threads, i), Owner(|pvs|, threads, j);
    OwnersInOrder(|pvs|, threads, i, j);
    OwnerHas(|pvs|, threads, i);
    OwnerHas(|pvs|, threads, j);
    if t == u {
      OffsetFits(pvs, maxArraySize, Beg(|pvs|, threads, t), i + 1, j);
    } else {
      LocalFits(pvs, maxArraySize, threads, sizes, i);
      SumGrows(sizes[..u], t);
      assert sizes[..u][..t] == sizes[..t];
    }
  }

  /** When the ranges are disjoint the owner is the only thread that has the PV. */
  lemma OwnerIsTheOnlyOne(n: nat, threads: nat, t: nat, i: nat)
    requires threads > 0 && n / threads + n % threads >= threads && t < threads && i < n && InRange(n, threads, t, i)
    ensures t == Owner(n, threads, i)
  {
    var u := Owner(n, threads, i);
    OwnerHas(n, threads, i);
    if threads >= 2 && t != u {
      DisjointExactlyWhen(n, threads);
    }
  }
}
