/** Which shares a pool thread writes completely. A request has a quota of records, not of PVs, and the
    record that fills it does not move the offset on: both cost a PV that takes more than one record. */
module Completeness {
  import opened Queues
  import opened Ring
  import opened Slices

  /** Byte b of the PV is in one of the records written. */
  ghost predicate Covered(rs: seq<seq<Piece>>, pv: nat, b: nat)
  {
    exists r, i :: 0 <= r < |rs| && 0 <= i < |rs[r]| && Holds(rs[r][i], pv, b)
  }

  predicate Holds(p: Piece, pv: nat, b: nat)
  {
    p.pv == pv && p.offset <= b < p.offset + p.size
  }

  ghost predicate AllCovered(share: seq<nat>, totals: seq<nat>, rs: seq<seq<Piece>>)
    requires forall j | 0 <= j < |share| :: share[j] < |totals|
  {
    forall j, b | 0 <= j < |share| && 0 <= b < totals[share[j]] :: Covered(rs, share[j], b)
  }

  ghost predicate InTable(share: seq<nat>, totals: seq<nat>)
  {
    forall j | 0 <= j < |share| :: share[j] < |totals|
  }

  /** No record of the PV needs a second one. */
  ghost predicate AllFit(share: seq<nat>, totals: seq<nat>, max: nat)
    requires InTable(share, totals)
  {
    forall j | 0 <= j < |share| :: totals[share[j]] <= max
  }

  // ----- shares of PVs that fit

  lemma {:induction false} CompleteHas(share: seq<nat>, totals: seq<nat>, j: nat)
    requires j < |share| && InTable(share, totals) && totals[share[j]] > 0
    ensures Piece(share[j], 0, totals[share[j]]) in Complete(share, totals)
  {
    if j > 0 {
      assert share[1..][j - 1] == share[j];
      CompleteHas(share[1..], totals, j - 1);
    }
  }

  lemma {:induction false} FittingIsCovered(share: seq<nat>, totals: seq<nat>, max: nat)
    requires InTable(share, totals) && AllFit(share, totals, max)
    ensures AllCovered(share, totals, Requests(share, totals, 0, 0, max))
  {
    OneRecordEach(share, totals, max);
    var rs := Requests(share, totals, 0, 0, max);
    forall j, b | 0 <= j < |share| && 0 <= b < totals[share[j]] ensures Covered(rs, share[j], b) {
      CompleteHas(share, totals, j);
      var i :| 0 <= i < |rs[0]| && rs[0][i] == Piece(share[j], 0, totals[share[j]]);
      assert Holds(rs[0][i], share[j], b);
    }
  }

  // ----- what is lost of the others

  ghost predicate Misses(ps: seq<Piece>, pv: nat, b: nat)
  {
    forall i | 0 <= i < |ps| :: !Holds(ps[i], pv, b)
  }

  ghost predicate AllMiss(rs: seq<seq<Piece>>, pv: nat, b: nat)
  {
    forall r | 0 <= r < |rs| :: Misses(rs[r], pv, b)
  }

  /** The records of one PV: they begin at its offset, and either it is finished before the quota is
      filled, with two records at least if one is not enough, or the quota is filled first. */
  lemma {:induction false} FragmentsAre(pv: nat, total: nat, off: nat, i: nat, quota: nat, max: nat)
    requires off < total && i < quota
    ensures var f := Fragments(pv, total, off, i, quota, max);
      && (forall j | 0 <= j < |f.0| :: f.0[j].pv == pv && off <= f.0[j].offset && f.0[j].size <= max)
      && f.1 >= off && i < f.2
      && (f.1 >= total ==> f.2 < quota && (total - off > max ==> i + 2 <= f.2))
      && (f.1 < total ==> f.2 == quota && (i + 1 == quota ==> f.1 == off) && forall j | 0 <= j < |f.0| ::
        f.0[j].offset <= f.1)
    decreases quota - i
  {
    var actual := Min(total - off, max);
    if i + 1 < quota && off + actual < total {
      FragmentsAre(pv, total, off + actual, i + 1, quota, max);
    }
  }

  lemma {:induction false} RequestMisses(share: seq<nat>, totals: seq<nat>, k: nat, off: nat, i: nat, max: nat, v: nat,
                                         b: nat)
    requires k <= |share| && i <= |share| && InTable(share, totals) && v !in share[k..]
    ensures Misses(Request(share, totals, k, off, i, max).pieces, v, b)
    decreases |share| - k
  {
    if k < |share| && i < |share| {
      var total := totals[share[k]];
      assert share[k..] == [share[k]] + share[k + 1..];
      if total == 0 {
        RequestMisses(share, totals, k + 1, off, i + 1, max, v, b);
      } else {
        var f := Fragments(share[k], total, off, i, |share|, max);
        if off < total { FragmentsAre(share[k], total, off, i, |share|, max); }
        RequestMisses(share, totals, k + 1, if f.1 >= total then 0 else f.1, f.2, max, v, b);
      }
    }
  }

  lemma {:induction false} RequestsMiss(share: seq<nat>, totals: seq<nat>, k: nat, off: nat, max: nat, v: nat, b: nat)
    requires k <= |share| && InTable(share, totals) && v !in share[k..]
    ensures AllMiss(Requests(share, totals, k, off, max), v, b)
    decreases |share| - k
  {
    if k < |share| {
      var w := Request(share, totals, k, off, 0, max);
      RequestMisses(share, totals, k, off, 0, max, v, b);
      assert forall x | x in share[w.k..] :: x in share[k..];
      RequestsMiss(share, totals, w.k, w.off, max, v, b);
    }
  }

  /** The records of what is left of a request, and of the requests after it. */
  function Rest(share: seq<nat>, totals: seq<nat>, k: nat, off: nat, i: nat, max: nat): seq<seq<Piece>>
    requires k <= |share| && i <= |share| && forall j | 0 <= j < |share| :: share[j] < |totals|
  {
    var w := Request(share, totals, k, off, i, max);
    [w.pieces] + Requests(share, totals, w.k, w.off, max)
  }

  lemma RestMisses(share: seq<nat>, totals: seq<nat>, k: nat, off: nat, i: nat, max: nat, v: nat, b: nat)
    requires k <= |share| && i <= |share| && InTable(share, totals) && v !in share[k..]
    ensures AllMiss(Rest(share, totals, k, off, i, max), v, b)
  {
    var w := Request(share, totals, k, off, i, max);
    RequestMisses(share, totals, k, off, i, max, v, b);
    assert forall x | x in share[w.k..] :: x in share[k..];
    RequestsMiss(share, totals, w.k, w.off, max, v, b);
  }

  /** What the first PV adds: its records, and then the rest. */
  lemma {:induction false} RestOnce(share: seq<nat>, totals: seq<nat>, k: nat, off: nat, i: nat, max: nat, v: nat,
                                    b: nat)
    requires k < |share| && i < |share| && InTable(share, totals) && off < totals[share[k]]
    ensures var total := totals[share[k]];
      var f := Fragments(share[k], total, off, i, |share|, max);
      (Misses(f.0, v, b) && AllMiss(Rest(share, totals, k + 1, if f.1 >= total then 0 else f.1, f.2, max), v, b)) ==>
        AllMiss(Rest(share, totals, k, off, i, max), v, b)
  {
    var total := totals[share[k]];
    var f := Fragments(share[k], total, off, i, |share|, max);
    var rest := Rest(share, totals, k + 1, if f.1 >= total then 0 else f.1, f.2, max);
    if Misses(f.0, v, b) && AllMiss(rest, v, b) {
      var rs := Rest(share, totals, k, off, i, max);
      assert rs[1..] == rest[1..] && rs[0] == f.0 + rest[0];
      assert Misses(rest[0], v, b);
      forall r | 0 <= r < |rs| ensures Misses(rs[r], v, b) {
        if r > 0 { assert rs[r] == rest[r] && Misses(rest[r], v, b); }
      }
    }
  }

  lemma NotAmongLater(share: seq<nat>, k: nat)
    requires NoDuplicates(share) && k < |share|
    ensures share[k] !in share[k + 1..]
  {
  }

  /** A PV whose first record does not begin at its first byte loses it. */
  lemma {:induction false} LateStartLoses(share: seq<nat>, totals: seq<nat>, k: nat, off: nat, max: nat)
    requires k < |share| && InTable(share, totals) && NoDuplicates(share) && 0 < off && 0 < totals[share[k]]
    ensures AllMiss(Requests(share, totals, k, off, max), share[k], 0)
  {
    var v, total := share[k], totals[share[k]];
    NotAmongLater(share, k);
    assert Requests(share, totals, k, off, max) == Rest(share, totals, k, off, 0, max);
    if off < total {
      var f := Fragments(v, total, off, 0, |share|, max);
      FragmentsAre(v, total, off, 0, |share|, max);
      RestMisses(share, totals, k + 1, if f.1 >= total then 0 else f.1, f.2, max, v, 0);
      RestOnce(share, totals, k, off, 0, max, v, 0);
    } else {
      assert Fragments(v, total, off, 0, |share|, max) == ([], off, 0);
      var rest := Rest(share, totals, k + 1, 0, 0, max);
      RestMisses(share, totals, k + 1, 0, 0, max, v, 0);
      var rs := Rest(share, totals, k, off, 0, max);
      assert rs[1..] == rest[1..] && rs[0] == [] + rest[0];
      assert Misses(rest[0], v, 0);
      forall r | 0 <= r < |rs| ensures Misses(rs[r], v, 0) {
        if r > 0 { assert rs[r] == rest[r] && Misses(rest[r], v, 0); }
      }
    }
  }

  /** The PVs that fit come before those that do not. */
  ghost predicate FittingFirst(share: seq<nat>, totals: seq<nat>, max: nat)
    requires InTable(share, totals)
  {
    forall a, b | 0 <= a < b < |share| && totals[share[a]] > max :: totals[share[b]] > max
  }

  /** Then some byte is lost: the quota is filled before the last PV gets two records. */
  lemma SomeByteIsLost(share: seq<nat>, totals: seq<nat>, k: nat, i: nat, max: nat)
    returns (j: nat, b: nat)
    requires InTable(share, totals) && NoDuplicates(share) && FittingFirst(share, totals, max)
    requires k <= i < |share| && totals[share[|share| - 1]] > max && (totals[share[k]] <= max ==> i == k)
    ensures k <= j < |share| && b < totals[share[j]] && AllMiss(Rest(share, totals, k, 0, i, max), share[j], b)
    decreases |share| - k
  {
    var v, total := share[k], totals[share[k]];
    NotAmongLater(share, k);
    if total == 0 {
      j, b := SomeByteIsLost(share, totals, k + 1, i + 1, max);
    } else {
      var f := Fragments(v, total, 0, i, |share|, max);
      FragmentsAre(v, total, 0, i, |share|, max);
      if total <= max { OneFragment(v, total, i, |share|, max); }
      if f.1 >= total {
        j, b := SomeByteIsLost(share, totals, k + 1, f.2, max);
        RestOnce(share, totals, k, 0, i, max, share[j], b);
      } else {
        j, b := QuotaFilled(share, totals, k, i, max);
      }
    }
  }

  /** The quota is filled before PV k is written to its end. */
  lemma QuotaFilled(share: seq<nat>, totals: seq<nat>, k: nat, i: nat, max: nat)
    returns (j: nat, b: nat)
    requires InTable(share, totals) && NoDuplicates(share) && FittingFirst(share, totals, max)
    requires k <= i < |share| && totals[share[|share| - 1]] > max && totals[share[k]] > max
    requires Fragments(share[k], totals[share[k]], 0, i, |share|, max).1 < totals[share[k]]
    ensures k <= j < |share| && b < totals[share[j]] && AllMiss(Rest(share, totals, k, 0, i, max), share[j], b)
  {
    var v, total := share[k], totals[share[k]];
    var f := Fragments(v, total, 0, i, |share|, max);
    NotAmongLater(share, k);
    FragmentsAre(v, total, 0, i, |share|, max);
    if f.1 == 0 {
      j, b := k, max;
      RestMisses(share, totals, k + 1, 0, f.2, max, v, b);
      RestOnce(share, totals, k, 0, i, max, v, b);
    } else {
      j, b := k + 1, 0;
      LateStartLoses(share, totals, k + 1, f.1, max);
      assert Rest(share, totals, k + 1, f.1, |share|, max) == [[]] + Requests(share, totals, k + 1, f.1, max);
      RestOnce(share, totals, k, 0, i, max, share[j], 0);
    }
  }

  lemma {:induction false} OneFragment(pv: nat, total: nat, i: nat, quota: nat, max: nat)
    requires 0 < total <= max && i + 1 < quota
    ensures Fragments(pv, total, 0, i, quota, max) == ([Piece(pv, 0, total)], total, i + 1)
  {
    assert Fragments(pv, total, total, i + 1, quota, max) == ([], total, i + 1);
    assert [Piece(pv, 0, total)] + [] == [Piece(pv, 0, total)];
  }

  function Filter(share: seq<nat>, totals: seq<nat>, max: nat, big: bool): (r: seq<nat>)
    requires forall j | 0 <= j < |share| :: share[j] < |totals|
    ensures forall v | v in r :: v in share && (totals[v] > max <==> big)
  {
    if share == [] then []
    else if (totals[share[0]] > max) == big then [share[0]] + Filter(share[1..], totals, max, big)
    else Filter(share[1..], totals, max, big)
  }

  lemma {:induction false} FilterSplits(share: seq<nat>, totals: seq<nat>, max: nat)
    requires InTable(share, totals)
    ensures multiset(Filter(share, totals, max, false) + Filter(share, totals, max, true)) == multiset(share)
  {
    forall v ensures
        multiset(Filter(share, totals, max, false) + Filter(share, totals, max, true))[v] == multiset(share)[v] {
      CountSplits(share, totals, max, v);
    }
  }

  lemma {:induction false} CountSplits(share: seq<nat>, totals: seq<nat>, max: nat, v: nat)
    requires InTable(share, totals)
    ensures multiset(Filter(share, totals, max, false))[v] + multiset(Filter(share, totals, max, true))[v]
      == multiset(share)[v]
  {
    if share != [] {
      var rest := share[1..];
      CountSplits(rest, totals, max, v);
      OneMoreCounted(share[0], rest, v);
      assert share == [share[0]] + rest;
      OneMoreCounted(share[0], Filter(rest, totals, max, totals[share[0]] > max), v);
    }
  }

  lemma OneMoreCounted(x: nat, s: seq<nat>, v: nat)
    ensures multiset([x] + s)[v] == multiset(s)[v] + if x == v then 1 else 0
  {
  }

  lemma ReorderedIsDistinct(share: seq<nat>, order: seq<nat>)
    requires NoDuplicates(share) && multiset(order) == multiset(share)
    ensures NoDuplicates(order) && |order| == |share| && forall v :: v in order <==> v in share
  {
    forall v ensures v in order <==> v in share {
      assert v in multiset(order) <==> v in multiset(share);
    }
    assert |order| == |multiset(order)| == |multiset(share)| == |share|;
    forall a, b | 0 <= a < b < |order| ensures order[a] != order[b] {
      if order[a] == order[b] {
        Twice(order, a, b);
        OnceOnly(share, order[a]);
        assert false;
      }
    }
  }

  lemma Twice(s: seq<nat>, a: nat, b: nat)
    requires a < b < |s| && s[a] == s[b]
    ensures multiset(s)[s[a]] >= 2
  {
    assert s == s[..b] + [s[b]] + s[b + 1..];
    assert s[..b][a] == s[a];
    assert s[a] in multiset(s[..b]);
  }

  lemma OnceOnly(s: seq<nat>, v: nat)
    requires NoDuplicates(s)
    ensures multiset(s)[v] <= 1
  {
    if s != [] {
      assert s == [s[0]] + s[1..];
      OnceOnly(s[1..], v);
      if v == s[0] { assert v !in s[1..]; }
    }
  }

  /** A thread writes its share completely, in whatever order the PVs come, exactly when a record can
      hold each of them. */
  lemma {:induction false} CompleteExactlyWhen(share: seq<nat>, totals: seq<nat>, max: nat)
    requires InTable(share, totals) && NoDuplicates(share)
    ensures AllFit(share, totals, max) <==>
      forall order: seq<nat> | multiset(order) == multiset(share) && InTable(order, totals) ::
        AllCovered(order, totals, Requests(order, totals, 0, 0, max))
  {
    if AllFit(share, totals, max) {
      forall order: seq<nat> | multiset(order) == multiset(share) && InTable(order, totals)
        ensures AllCovered(order, totals, Requests(order, totals, 0, 0, max))
      {
        ReorderedIsDistinct(share, order);
        forall j | 0 <= j < |order| ensures totals[order[j]] <= max {
          assert order[j] in share;
        }
        FittingIsCovered(order, totals, max);
      }
    } else {
      var order := SomeOrderLoses(share, totals, max);
    }
  }

  /** The order that puts the PVs that need several records last. */
  lemma SomeOrderLoses(share: seq<nat>, totals: seq<nat>, max: nat) returns (order: seq<nat>)
    requires InTable(share, totals) && NoDuplicates(share) && !AllFit(share, totals, max)
    ensures multiset(order) == multiset(share) && InTable(order, totals)
    ensures !AllCovered(order, totals, Requests(order, totals, 0, 0, max))
  {
    var fitting, big := Filter(share, totals, max, false), Filter(share, totals, max, true);
    order := fitting + big;
    FilterSplits(share, totals, max);
    ReorderedIsDistinct(share, order);
    SomeBig(share, totals, max);
    forall j | 0 <= j < |order| ensures order[j] < |totals| && (totals[order[j]] > max <==> j >= |fitting|) {
      if j < |fitting| { assert order[j] in fitting; } else { assert order[j] in big; }
    }
    var j, b := SomeByteIsLost(order, totals, 0, 0, max);
    assert Requests(order, totals, 0, 0, max) == Rest(order, totals, 0, 0, 0, max);
    assert !Covered(Requests(order, totals, 0, 0, max), order[j], b);
  }

  lemma {:induction false} SomeBig(share: seq<nat>, totals: seq<nat>, max: nat)
    requires InTable(share, totals) && !AllFit(share, totals, max)
    ensures Filter(share, totals, max, true) != []
  {
    if share != [] && totals[share[0]] <= max {
      assert forall j | 0 <= j < |share| && totals[share[j]] > max :: share[1..][j - 1] == share[j];
      SomeBig(share[1..], totals, max);
    }
  }
}
