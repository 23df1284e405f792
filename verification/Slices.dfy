/** How the pool threads share what a cycle dispatches: each claims the next share of the list, in
    whatever order they wake, and writes records for its PVs. */
module Slices {
  import opened Circular
  import opened Queues
  import opened Ring

  // ----- claiming

  /** The share of thread t: an equal part, and the rest to the last thread. */
  function Quota(vars: nat, threads: nat, t: nat): nat
    requires threads > 0
  {
    vars / threads + if t == threads - 1 then vars % threads else 0
  }

  function Sum(q: nat, rest: nat, last: nat, order: seq<nat>): nat
  {
    if order == [] then 0
    else Sum(q, rest, last, order[..|order| - 1]) + q + if order[|order| - 1] == last then rest else 0
  }

  /** How many PVs have been claimed by the threads that claimed in this order. */
  function Claimed(vars: nat, threads: nat, order: seq<nat>): nat
    requires threads > 0
  {
    Sum(vars / threads, vars % threads, threads - 1, order)
  }

  /** Threads below `threads`, each at most once. */
  ghost predicate ClaimOrder(order: seq<nat>, threads: nat)
  {
    NoDuplicates(order) && forall i | 0 <= i < |order| :: order[i] < threads
  }

  lemma AtMostOnceEach(order: seq<nat>, threads: nat)
    requires ClaimOrder(order, threads)
    ensures |order| <= threads
    ensures |order| == threads > 0 ==> threads - 1 in order
  {
    if order != [] {
      assert order[0] < threads;
      if k :| 0 <= k < |order| && order[k] == threads - 1 {
        AtMostOnceEach(order[..k] + order[k + 1..], threads - 1);
      } else {
        AtMostOnceEach(order, threads - 1);
      }
    }
  }

  lemma {:induction false} SumIs(q: nat, rest: nat, last: nat, order: seq<nat>)
    requires NoDuplicates(order)
    ensures Sum(q, rest, last, order) == |order| * q + if last in order then rest else 0
  {
    if order != [] {
      var front, t := order[..|order| - 1], order[|order| - 1];
      SumIs(q, rest, last, front);
      LastMember(order, last);
      OneMore(|front|, q);
    }
  }

  lemma LastMember(order: seq<nat>, v: nat)
    requires NoDuplicates(order) && order != []
    ensures v in order <==> v in order[..|order| - 1] || v == order[|order| - 1]
    ensures order[|order| - 1] !in order[..|order| - 1]
  {
    assert order == order[..|order| - 1] + [order[|order| - 1]];
  }

  lemma OneMore(k: nat, q: nat)
    ensures (k + 1) * q == k * q + q
  {
  }

  /** Claims never run past what was dispatched, and all threads together claim exactly that. */
  lemma ClaimsFit(vars: nat, threads: nat, order: seq<nat>)
    requires threads > 0 && ClaimOrder(order, threads)
    ensures Claimed(vars, threads, order) <= vars
    ensures |order| == threads ==> Claimed(vars, threads, order) == vars
  {
    AtMostOnceEach(order, threads);
    SumIs(vars / threads, vars % threads, threads - 1, order);
    AtMost(vars, threads, vars / threads, vars % threads, |order|);
  }

  lemma AtMost(vars: nat, threads: nat, q: nat, rest: nat, k: nat)
    requires k <= threads && vars == q * threads + rest
    ensures k * q + rest <= vars && (k == threads ==> k * q + rest == vars)
  {
    assert threads * q == k * q + (threads - k) * q;
  }

  lemma {:induction false} SumGrows(q: nat, rest: nat, last: nat, order: seq<nat>, i: nat)
    requires i <= |order|
    ensures Sum(q, rest, last, order[..i]) <= Sum(q, rest, last, order)
    decreases |order|
  {
    if i < |order| {
      SumGrows(q, rest, last, order[..|order| - 1], i);
      assert order[..|order| - 1][..i] == order[..i];
    } else {
      assert order[..i] == order;
    }
  }

  lemma ClaimsGrow(vars: nat, threads: nat, order: seq<nat>, i: nat)
    requires threads > 0 && i <= |order|
    ensures Claimed(vars, threads, order[..i]) <= Claimed(vars, threads, order)
  {
    SumGrows(vars / threads, vars % threads, threads - 1, order, i);
  }

  lemma NextClaim(vars: nat, threads: nat, order: seq<nat>, i: nat)
    requires threads > 0 && i < |order|
    ensures Claimed(vars, threads, order[..i + 1])
         == Claimed(vars, threads, order[..i]) + Quota(vars, threads, order[i])
  {
    assert order[..i + 1][..i] == order[..i];
  }

  /** A claim at the shared cursor moves it on by the thread's quota. */
  lemma CursorMoves(start: nat, vars: nat, threads: nat, order: seq<nat>, t: nat, n: nat)
    requires 0 < threads && start < n && vars <= n && ClaimOrder(order + [t], threads)
    ensures Claimed(vars, threads, order) + Quota(vars, threads, t) <= vars
    ensures Turn(Turn(start + Claimed(vars, threads, order), n) + Quota(vars, threads, t), n)
         == Turn(start + Claimed(vars, threads, order + [t]), n)
  {
    var later := order + [t];
    ClaimsFit(vars, threads, later);
    NextClaim(vars, threads, later, |order|);
    assert later[..|order|] == order && later[..|order| + 1] == later;
    TurnOn(start + Claimed(vars, threads, order), Quota(vars, threads, t), n);
  }

  /** The PVs of the i-th claimer, by position in the dispatched ring. */
  function Share(ring: seq<nat>, vars: nat, threads: nat, order: seq<nat>, i: nat): (s: seq<nat>)
    requires threads > 0 && i < |order|
  {
    var first := Claimed(vars, threads, order[..i]);
    var past := first + Quota(vars, threads, order[i]);
    if past <= |ring| then ring[first..past] else []
  }

  function Together(ring: seq<nat>, vars: nat, threads: nat, order: seq<nat>, k: nat): seq<nat>
    requires threads > 0 && k <= |order|
  {
    if k == 0 then [] else Together(ring, vars, threads, order, k - 1) + Share(ring, vars, threads, order, k - 1)
  }

  lemma {:induction false} SharesJoin(ring: seq<nat>, vars: nat, threads: nat, order: seq<nat>, k: nat)
    requires threads > 0 && k <= |order| && ClaimOrder(order, threads) && vars <= |ring|
    ensures Claimed(vars, threads, order[..k]) <= vars
    ensures Together(ring, vars, threads, order, k) == ring[..Claimed(vars, threads, order[..k])]
  {
    ClaimsFit(vars, threads, order[..k]);
    if k > 0 {
      SharesJoin(ring, vars, threads, order, k - 1);
      NextClaim(vars, threads, order, k - 1);
      Adjoin(ring, Claimed(vars, threads, order[..k - 1]), Claimed(vars, threads, order[..k]));
    }
  }

  lemma Adjoin(ring: seq<nat>, a: nat, b: nat)
    requires a <= b <= |ring|
    ensures ring[..a] + ring[a..b] == ring[..b]
  {
  }

  /** Whatever the order the threads claim in, their shares one after the other are exactly the
      dispatched PVs. */
  lemma {:induction false} SharesAreTheDispatched(ring: seq<nat>, vars: nat, threads: nat, order: seq<nat>)
    requires threads > 0 && ClaimOrder(order, threads) && |order| == threads && vars <= |ring|
    ensures Together(ring, vars, threads, order, threads) == ring[..vars]
  {
    assert order[..threads] == order;
    ClaimsFit(vars, threads, order);
    SharesJoin(ring, vars, threads, order, threads);
  }

  /** No PV is in two shares, even if not every thread has claimed. */
  lemma SharesDisjoint(ring: seq<nat>, vars: nat, threads: nat, order: seq<nat>, i: nat, j: nat, v: nat)
    requires threads > 0 && ClaimOrder(order, threads) && vars <= |ring| && NoDuplicates(ring)
    requires i < j < |order| && v in Share(ring, vars, threads, order, i)
    ensures v !in Share(ring, vars, threads, order, j)
  {
    var past := Claimed(vars, threads, order[..i + 1]);
    NextClaim(vars, threads, order, i);
    ClaimsGrow(vars, threads, order[..j], i + 1);
    assert order[..j][..i + 1] == order[..i + 1];
  }

  // ----- writing

  /** One record: which PV, and which of its value bytes. */
  datatype Piece = Piece(pv: nat, offset: nat, size: nat)

  /** The records of one PV: `i` counts the request's records against its quota. The offset is not
      advanced past the record that fills the quota. */
  function Fragments(pv: nat, total: nat, off: nat, i: nat, quota: nat, max: nat): (r: (seq<Piece>, nat, nat))
    ensures i <= quota ==> i <= r.2 <= quota
    ensures off < total && i < quota ==> i < r.2
    decreases quota - i
  {
    if off >= total || i >= quota then ([], off, i)
    else
      var actual := Min(total - off, max);
      var p := Piece(pv, off, actual);
      if i + 1 < quota then
        var r := Fragments(pv, total, off + actual, i + 1, quota, max);
        ([p] + r.0, r.1, r.2)
      else ([p], off, i + 1)
  }

  datatype Written = Written(pieces: seq<Piece>, k: nat, off: nat)

  /** One request: PVs of the share from position k on, until they or the quota run out. A PV that
      is not connected has no bytes and counts against the quota all the same. */
  function Request(share: seq<nat>, totals: seq<nat>, k: nat, off: nat, i: nat, max: nat): (w: Written)
    requires k <= |share| && i <= |share| && forall j | 0 <= j < |share| :: share[j] < |totals|
    ensures k <= w.k <= |share| && (i < |share| && k < |share| ==> k < w.k)
    decreases |share| - k
  {
    if k == |share| || i == |share| then Written([], k, off)
    else
      var total := totals[share[k]];
      if total == 0 then Request(share, totals, k + 1, off, i + 1, max)
      else
        var f := Fragments(share[k], total, off, i, |share|, max);
        var w := Request(share, totals, k + 1, if f.1 >= total then 0 else f.1, f.2, max);
        Written(f.0 + w.pieces, w.k, w.off)
  }

  /** All the requests of a share. */
  function Requests(share: seq<nat>, totals: seq<nat>, k: nat, off: nat, max: nat): seq<seq<Piece>>
    requires k <= |share| && forall j | 0 <= j < |share| :: share[j] < |totals|
    decreases |share| - k
  {
    if k == |share| then []
    else
      var w := Request(share, totals, k, off, 0, max);
      [w.pieces] + Requests(share, totals, w.k, w.off, max)
  }

  /** One complete record for each connected PV of the share, in order. */
  function Complete(share: seq<nat>, totals: seq<nat>): seq<Piece>
    requires forall j | 0 <= j < |share| :: share[j] < |totals|
  {
    if share == [] then []
    else (if totals[share[0]] > 0 then [Piece(share[0], 0, totals[share[0]])] else []) + Complete(share[1..], totals)
  }

  lemma {:induction false} RequestCompletes(share: seq<nat>, totals: seq<nat>, k: nat, max: nat)
    requires k <= |share| && forall j | 0 <= j < |share| :: share[j] < |totals| && totals[share[j]] <= max
    ensures Request(share, totals, k, 0, k, max) == Written(Complete(share[k..], totals), |share|, 0)
    decreases |share| - k
  {
    if k < |share| {
      RequestCompletes(share, totals, k + 1, max);
      assert share[k..][1..] == share[k + 1..];
      var total := totals[share[k]];
      if total > 0 && k + 1 < |share| {
        assert Fragments(share[k], total, total, k + 1, |share|, max).0 == [];
      }
    }
  }

  /** When no PV is larger than a record may be, a thread writes one request with exactly one
      complete record for each connected PV of its share. */
  lemma {:induction false} OneRecordEach(share: seq<nat>, totals: seq<nat>, max: nat)
    requires forall j | 0 <= j < |share| :: share[j] < |totals| && totals[share[j]] <= max
    ensures Requests(share, totals, 0, 0, max) == if share == [] then [] else [Complete(share, totals)]
  {
    if share != [] {
      RequestCompletes(share, totals, 0, max);
      assert share[0..] == share;
    }
  }
}
