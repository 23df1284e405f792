/** Lists whose elements are all different, and taking one element out. */
module Queues {
  ghost predicate NoDuplicates(q: seq<nat>)
  {
    forall i, j | 0 <= i < j < |q| :: q[i] != q[j]
  }

  function Remove(q: seq<nat>, x: nat): seq<nat>
  {
    if q == [] then [] else if q[0] == x then q[1..] else [q[0]] + Remove(q[1..], x)
  }

  /** Exactly that element is gone. */
  lemma {:induction false} Removed(q: seq<nat>, x: nat)
    requires NoDuplicates(q)
    ensures NoDuplicates(Remove(q, x)) && (forall y :: y in Remove(q, x) <==> y in q && y != x)
    ensures |Remove(q, x)| == if x in q then |q| - 1 else |q|
    ensures forall i | 0 <= i < |Remove(q, x)| :: Remove(q, x)[i] in q
  {
    if q != [] {
      assert q == [q[0]] + q[1..];
      assert q[0] !in q[1..];
      if q[0] != x { Removed(q[1..], x); }
    }
  }

  lemma FrontAndLast<T>(s: seq<T>)
    requires s != []
    ensures s == s[..|s| - 1] + [s[|s| - 1]]
  {
  }

  /** One element taken out of a list, wherever it is. */
  lemma WithoutOne<T>(s: seq<T>, k: nat)
    requires k < |s|
    ensures s == s[..k] + ([s[k]] + s[k + 1..])
    ensures multiset(s[..k] + s[k + 1..]) == multiset(s) - multiset{s[k]}
  {
    assert s == s[..k] + ([s[k]] + s[k + 1..]);
  }
}
