/** The receiver's table of names: the insertion sort that builds it, the search in it, and the
    cache from sender index to local index that saves searching again. */
module NameSearch {
  import opened Wrappers
  import opened Records

  /** The three results of the string comparison: 0, 1 and 2 in the source. */
  datatype Order = Same | Before | After
  type Comparison = (Name, Name) -> Order

  ghost predicate TotalOrder(cmp: Comparison)
  {
    && (forall a, b :: cmp(a, b) == Same <==> a == b)
    && (forall a, b :: cmp(a, b) == Before <==> cmp(b, a) == After)
    && (forall a, b, c :: cmp(a, b) == Before && cmp(b, c) == Before ==> cmp(a, c) == Before)
  }

  ghost predicate Sorted(cmp: Comparison, names: seq<Name>)
  {
    forall i, j | 0 <= i < j < |names| :: cmp(names[i], names[j]) != After
  }

  // ----- building the table

  /** A sorted list with one more name, moved left past the names it comes before. */
  function Insert(cmp: Comparison, names: seq<Name>, x: Name): (r: seq<Name>)
    ensures |r| == |names| + 1
  {
    var n := |names|;
    if n == 0 || cmp(x, names[n - 1]) != Before then names + [x]
    else Insert(cmp, names[..n - 1], x) + [names[n - 1]]
  }

  function Sort(cmp: Comparison, names: seq<Name>): (r: seq<Name>)
    ensures |r| == |names|
  {
    if names == [] then [] else Insert(cmp, Sort(cmp, names[..|names| - 1]), names[|names| - 1])
  }

  lemma {:induction false} InsertIsPermutation(cmp: Comparison, names: seq<Name>, x: Name)
    ensures multiset(Insert(cmp, names, x)) == multiset(names) + multiset{x}
  {
    var n := |names|;
    if n > 0 && cmp(x, names[n - 1]) == Before {
      InsertIsPermutation(cmp, names[..n - 1], x);
      assert names == names[..n - 1] + [names[n - 1]];
    }
  }

  lemma SortedSnoc(cmp: Comparison, names: seq<Name>, x: Name)
    requires Sorted(cmp, names) && forall i | 0 <= i < |names| :: cmp(names[i], x) != After
    ensures Sorted(cmp, names + [x])
  {
  }

  /** Whatever is below `last` stays so with one more name below it. */
  lemma {:induction false} InsertBelow(cmp: Comparison, names: seq<Name>, x: Name, last: Name)
    requires cmp(x, last) != After && forall i | 0 <= i < |names| :: cmp(names[i], last) != After
    ensures forall i | 0 <= i < |Insert(cmp, names, x)| :: cmp(Insert(cmp, names, x)[i], last) != After
  {
    var n := |names|;
    if n > 0 && cmp(x, names[n - 1]) == Before {
      InsertBelow(cmp, names[..n - 1], x, last);
    }
  }

  lemma LastIsLargest(cmp: Comparison, names: seq<Name>, x: Name)
    requires TotalOrder(cmp) && Sorted(cmp, names) && names != [] && cmp(x, names[|names| - 1]) != Before
    ensures forall i | 0 <= i < |names| :: cmp(names[i], x) != After
  {
    var last := names[|names| - 1];
    assert cmp(last, x) != After;
    forall i | 0 <= i < |names| - 1 ensures cmp(names[i], x) != After {
      assert cmp(names[i], last) != After;
    }
  }

  lemma {:induction false} InsertKeeps(cmp: Comparison, names: seq<Name>, x: Name)
    requires TotalOrder(cmp) && Sorted(cmp, names)
    ensures Sorted(cmp, Insert(cmp, names, x))
    ensures multiset(Insert(cmp, names, x)) == multiset(names) + multiset{x}
  {
    var n := |names|;
    InsertIsPermutation(cmp, names, x);
    if n > 0 && cmp(x, names[n - 1]) == Before {
      var front, last := names[..n - 1], names[n - 1];
      InsertKeeps(cmp, front, x);
      InsertBelow(cmp, front, x, last);
      SortedSnoc(cmp, Insert(cmp, front, x), last);
    } else if n > 0 {
      LastIsLargest(cmp, names, x);
      SortedSnoc(cmp, names, x);
    }
  }

  /** The table is a sorted permutation of the names read. */
  lemma {:induction false} SortIsSortedPermutation(cmp: Comparison, names: seq<Name>)
    requires TotalOrder(cmp)
    ensures Sorted(cmp, Sort(cmp, names)) && multiset(Sort(cmp, names)) == multiset(names)
  {
    if names != [] {
      var front, last := names[..|names| - 1], names[|names| - 1];
      assert names == front + [last];
      SortIsSortedPermutation(cmp, front);
      InsertKeeps(cmp, Sort(cmp, front), last);
    }
  }

  /** One name is swapped to the left while it comes before its neighbour. */
  method Sift(cmp: Comparison, pvs: array<Name>, counter: nat)
    requires counter < pvs.Length
    modifies pvs
    ensures pvs[..counter + 1] == Insert(cmp, old(pvs[..counter]), old(pvs[counter]))
  {
    ghost var was, x := pvs[..counter], pvs[counter];
    var j := counter;
    assert was[..counter] == was && was[counter..] == [];
    assert pvs[..counter + 1] == was[..j] + [x] + was[j..];
    while j > 0 && cmp(pvs[j], pvs[j - 1]) == Before
      invariant 0 <= j <= counter
      invariant pvs[..counter + 1] == was[..j] + [x] + was[j..]
      invariant Insert(cmp, was, x) == Insert(cmp, was[..j], x) + was[j..]
    {
      SiftStep(cmp, was, x, pvs[..counter + 1], j);
      pvs[j - 1], pvs[j] := pvs[j], pvs[j - 1];
      j := j - 1;
      assert pvs[..counter + 1] == was[..j] + [x] + was[j..];
    }
    if j > 0 {
      assert pvs[..counter + 1][j] == x && pvs[..counter + 1][j - 1] == was[j - 1];
      assert Insert(cmp, was[..j], x) == was[..j] + [x];
    }
  }

  lemma {:induction false} SiftStep(cmp: Comparison, was: seq<Name>, x: Name, now: seq<Name>, j: nat)
    requires 0 < j <= |was| && now == was[..j] + [x] + was[j..]
    requires cmp(now[j], now[j - 1]) == Before
    ensures now[j] == x && now[j - 1] == was[j - 1]
    ensures now[j - 1 := x][j := was[j - 1]] == was[..j - 1] + [x] + was[j - 1..]
    ensures Insert(cmp, was[..j], x) + was[j..] == Insert(cmp, was[..j - 1], x) + was[j - 1..]
  {
    assert was[..j][..j - 1] == was[..j - 1];
    assert [was[j - 1]] + was[j..] == was[j - 1..];
  }

  /** The table as the receiver builds it, name by name as they are read. */
  method BuildTable(cmp: Comparison, read: seq<Name>, pvs: array<Name>)
    requires pvs.Length == |read|
    modifies pvs
    ensures pvs[..] == Sort(cmp, read)
  {
    var counter := 0;
    while counter < |read|
      invariant 0 <= counter <= |read|
      invariant pvs[..counter] == Sort(cmp, read[..counter])
    {
      label start:
      pvs[counter] := read[counter];
      assert pvs[..counter] == old@start(pvs[..counter]);
      Sift(cmp, pvs, counter);
      assert read[..counter + 1][..counter] == read[..counter];
      counter := counter + 1;
    }
    assert read[..counter] == read && pvs[..counter] == pvs[..];
  }

  // ----- searching it

  /** Halving the window of len names from lo. */
  function Search(cmp: Comparison, names: seq<Name>, key: Name, lo: nat, len: nat): (r: Option<nat>)
    requires lo + len <= |names|
    ensures r.Some? ==> lo <= r.value < lo + len
    decreases len
  {
    if len == 0 then None
    else
      var mid := lo + len / 2;
      match cmp(names[mid], key)
      case Same => Some(mid)
      case After => Search(cmp, names, key, lo, len / 2)
      case Before => Search(cmp, names, key, mid + 1, len - len / 2 - 1)
  }

  function Find(cmp: Comparison, names: seq<Name>, key: Name): (r: Option<nat>)
    ensures r.Some? ==> r.value < |names|
  {
    Search(cmp, names, key, 0, |names|)
  }

  /** A name on the wrong side of the middle is not the key. */
  lemma NotBeyond(cmp: Comparison, names: seq<Name>, key: Name, mid: nat)
    requires TotalOrder(cmp) && Sorted(cmp, names) && mid < |names|
    ensures cmp(names[mid], key) == After ==> forall k | mid <= k < |names| :: names[k] != key
    ensures cmp(names[mid], key) == Before ==> forall k | 0 <= k <= mid :: names[k] != key
  {
    forall k | mid < k < |names| ensures cmp(names[mid], names[k]) != After {}
    forall k | 0 <= k < mid ensures cmp(names[k], names[mid]) != After {}
  }

  lemma {:induction false} SearchFindsOnlyTheKey(cmp: Comparison, names: seq<Name>, key: Name, lo: nat, len: nat)
    requires TotalOrder(cmp) && lo + len <= |names|
    ensures var r := Search(cmp, names, key, lo, len); r.Some? ==> names[r.value] == key
    decreases len
  {
    if len > 0 {
      var half := len / 2;
      match cmp(names[lo + half], key)
      case Same =>
      case After => SearchFindsOnlyTheKey(cmp, names, key, lo, half);
      case Before => SearchFindsOnlyTheKey(cmp, names, key, lo + half + 1, len - half - 1);
    }
  }

  /** One comparison drops half of the window. */
  lemma SearchHalves(cmp: Comparison, names: seq<Name>, key: Name, lo: nat, len: nat)
    requires 0 < len && lo + len <= |names|
    ensures cmp(names[lo + len / 2], key) == Same ==> Search(cmp, names, key, lo, len) == Some(lo + len / 2)
    ensures cmp(names[lo + len / 2], key) == After ==>
      Search(cmp, names, key, lo, len) == Search(cmp, names, key, lo, len / 2)
    ensures cmp(names[lo + len / 2], key) == Before ==>
      Search(cmp, names, key, lo, len) == Search(cmp, names, key, lo + len / 2 + 1, len - len / 2 - 1)
  {
  }

  /** The half that cannot hold the key is dropped, so that a key at place k is not missed. */
  lemma {:induction false} SearchMissesNoKey(cmp: Comparison, names: seq<Name>, key: Name, lo: nat, len: nat, k: nat)
    requires TotalOrder(cmp) && Sorted(cmp, names) && lo + len <= |names|
    requires lo <= k < lo + len && names[k] == key
    ensures Search(cmp, names, key, lo, len).Some?
    decreases len
  {
    NotBeyond(cmp, names, key, lo + len / 2);
    SearchHalves(cmp, names, key, lo, len);
    match cmp(names[lo + len / 2], key)
    case Same =>
    case After => SearchMissesNoKey(cmp, names, key, lo, len / 2, k);
    case Before => SearchMissesNoKey(cmp, names, key, lo + len / 2 + 1, len - len / 2 - 1, k);
  }

  /** A search succeeds exactly when the name is in the table, at a place that holds it. */
  lemma FindIsExact(cmp: Comparison, names: seq<Name>, key: Name)
    requires TotalOrder(cmp) && Sorted(cmp, names)
    ensures var r := Find(cmp, names, key);
      if key in names then r.Some? && names[r.value] == key else r.None?
  {
    SearchFindsOnlyTheKey(cmp, names, key, 0, |names|);
    if key in names {
      var k :| 0 <= k < |names| && names[k] == key;
      SearchMissesNoKey(cmp, names, key, 0, |names|, k);
    }
  }

  /** The loop's variables stand for the window of `len` names from `lo`, in which the search is to go on. */
  ghost predicate Window(cmp: Comparison, names: seq<Name>, key: Name, lo: nat, len: nat)
  {
    lo + len <= |names| && Find(cmp, names, key) == Search(cmp, names, key, lo, len)
  }

  lemma LowerWindow(cmp: Comparison, names: seq<Name>, key: Name, lo: nat, len: nat)
    requires Window(cmp, names, key, lo, len) && 0 < len && cmp(names[lo + len / 2], key) == After
    ensures Window(cmp, names, key, lo, len / 2)
  {
    SearchHalves(cmp, names, key, lo, len);
  }

  lemma UpperWindow(cmp: Comparison, names: seq<Name>, key: Name, lo: nat, len: nat)
    requires Window(cmp, names, key, lo, len) && 0 < len && cmp(names[lo + len / 2], key) == Before
    ensures Window(cmp, names, key, lo + len / 2 + 1, len - len / 2 - 1)
  {
    SearchHalves(cmp, names, key, lo, len);
  }

  lemma MiddleFound(cmp: Comparison, names: seq<Name>, key: Name, lo: nat, len: nat)
    requires Window(cmp, names, key, lo, len)
    ensures 0 < len && cmp(names[lo + len / 2], key) == Same ==> Find(cmp, names, key) == Some(lo + len / 2)
    ensures len == 0 ==> Find(cmp, names, key) == None
  {
    if 0 < len { SearchHalves(cmp, names, key, lo, len); }
  }

  /** The names before the middle, which is at `index`: how many, the half of that, and their middle. */
  method LowerHalf(range: nat, index: nat) returns (range_1: nat, half: nat, middle: nat)
    requires range <= index
    ensures range_1 == range && half == range / 2 && middle == index - range + half
  {
    middle := index;
    var rem := range % 2;
    range_1 := range;
    if rem == 1 { middle := middle - 1; }
    half := range_1 / 2;
    middle := middle - half;
  }

  /** The names behind it. */
  method UpperHalf(len: nat, range: nat, index: nat) returns (range_1: nat, half: nat, middle: nat)
    requires len > 0 && range == len / 2
    ensures range_1 == len - len / 2 - 1 && half == range_1 / 2 && middle == index + 1 + half
  {
    var rem_1 := len % 2;
    range_1 := range;
    if rem_1 == 0 { range_1 := range_1 - 1; }
    half := range_1 / 2;
    middle := index + (half + 1);
  }

  /** The search as the receiver writes it, with the middle kept as an index and the window as two
      lengths: range_1 is the window, range its half. */
  method GetLocalVariableIndex(cmp: Comparison, names: seq<Name>, varName: Name) returns (ok: bool, index: nat)
    ensures ok == Find(cmp, names, varName).Some?
    ensures ok ==> index == Find(cmp, names, varName).value
  {
    var range_1: nat, range: nat := |names|, |names| / 2;
    index := range;
    ok := false;
    ghost var lo: nat := 0;
    while range_1 > 0 && !ok
      invariant range == range_1 / 2 && Window(cmp, names, varName, lo, range_1)
      invariant range_1 > 0 ==> index == lo + range
      invariant ok ==> range_1 > 0 && cmp(names[index], varName) == Same
      decreases range_1, !ok
    {
      var res: Order;
      if index >= |names| {
        res := After;
      } else {
        res := cmp(names[index], varName);
      }
      if res == Same {
        ok := true;
      } else if res == After {
        LowerWindow(cmp, names, varName, lo, range_1);
        range_1, range, index := LowerHalf(range, index);
      } else {
        UpperWindow(cmp, names, varName, lo, range_1);
        lo := index + 1;
        range_1, range, index := UpperHalf(range_1, range, index);
      }
    }
    MiddleFound(cmp, names, varName, lo, range_1);
  }

  // ----- the cache

  /** What the receiver remembers of a sender index: nothing yet, or the local index of its name. A
      name that is not in the table is never remembered. */
  datatype Slot = Unset | Known(index: nat)

  datatype Resolution = Resolution(found: Option<nat>, mapping: seq<Slot>)

  function Resolve(cmp: Comparison, names: seq<Name>, mapping: seq<Slot>, r: nat, name: Name): (res: Resolution)
    requires r < |mapping|
    ensures |res.mapping| == |mapping|
  {
    if mapping[r].Known? then Resolution(Some(mapping[r].index), mapping)
    else
      match Find(cmp, names, name)
      case None => Resolution(None, mapping)
      case Some(i) => Resolution(Some(i), mapping[r := Known(i)])
  }

  datatype Lookup = Lookup(index: nat, name: Name)

  /** A run of lookups: what each one found, and the cache at the end. */
  function ResolveAll(cmp: Comparison, names: seq<Name>, mapping: seq<Slot>, run: seq<Lookup>)
      : (r: (seq<Option<nat>>, seq<Slot>))
    requires forall k | 0 <= k < |run| :: run[k].index < |mapping|
    ensures |r.0| == |run|
    decreases |run|
  {
    if run == [] then ([], mapping)
    else
      var first := Resolve(cmp, names, mapping, run[0].index, run[0].name);
      var later := ResolveAll(cmp, names, first.mapping, run[1..]);
      ([first.found] + later.0, later.1)
  }

  /** The cache agrees with a sender whose index r always carries the name sender[r]. */
  ghost predicate Agrees(cmp: Comparison, names: seq<Name>, mapping: seq<Slot>, sender: seq<Name>)
  {
    && |mapping| >= |sender|
    && forall r | 0 <= r < |sender| && mapping[r].Known? :: Find(cmp, names, sender[r]) == Some(mapping[r].index)
  }

  ghost predicate FromSender(sender: seq<Name>, run: seq<Lookup>)
  {
    forall k | 0 <= k < |run| :: run[k].index < |sender| && run[k].name == sender[run[k].index]
  }

  /** With a sender that keeps its numbering, every cached answer over any run is the answer of a
      fresh search, and what is cached at the end is still right. */
  lemma {:induction false} CacheIsTransparent(cmp: Comparison, names: seq<Name>, mapping: seq<Slot>,
                                              sender: seq<Name>, run: seq<Lookup>)
    requires Agrees(cmp, names, mapping, sender) && FromSender(sender, run)
    ensures var r := ResolveAll(cmp, names, mapping, run);
      && (forall k | 0 <= k < |run| :: r.0[k] == Find(cmp, names, run[k].name))
      && Agrees(cmp, names, r.1, sender)
    decreases |run|
  {
    if run != [] {
      var first := Resolve(cmp, names, mapping, run[0].index, run[0].name);
      CacheIsTransparent(cmp, names, first.mapping, sender, run[1..]);
      var later := ResolveAll(cmp, names, first.mapping, run[1..]);
      forall k | 0 <= k < |run|
        ensures ResolveAll(cmp, names, mapping, run).0[k] == Find(cmp, names, run[k].name)
      {
        if k > 0 { assert later.0[k - 1] == Find(cmp, names, run[1..][k - 1].name); }
      }
    }
  }

  /** What a run may ask of a cache without being answered wrongly: where an index is known, names that
      are found there; and of an index that is not, once a name has been found, only names found at the
      same place. */
  ghost predicate Coherent(cmp: Comparison, names: seq<Name>, mapping: seq<Slot>, run: seq<Lookup>)
    requires forall k | 0 <= k < |run| :: run[k].index < |mapping|
  {
    && (forall k | 0 <= k < |run| :: AgreesAt(cmp, names, mapping[run[k].index], run[k].name))
    && (forall j, k | 0 <= j < k < |run| && run[j].index == run[k].index && mapping[run[j].index] == Unset ::
          Find(cmp, names, run[j].name).None? || Find(cmp, names, run[j].name) == Find(cmp, names, run[k].name))
  }

  ghost predicate AgreesAt(cmp: Comparison, names: seq<Name>, slot: Slot, name: Name)
  {
    slot.Known? ==> Find(cmp, names, name) == Some(slot.index)
  }

  ghost predicate AnsweredFreshly(cmp: Comparison, names: seq<Name>, mapping: seq<Slot>, run: seq<Lookup>)
    requires forall k | 0 <= k < |run| :: run[k].index < |mapping|
  {
    forall k | 0 <= k < |run| :: ResolveAll(cmp, names, mapping, run).0[k] == Find(cmp, names, run[k].name)
  }

  lemma CoherentFirst(cmp: Comparison, names: seq<Name>, mapping: seq<Slot>, run: seq<Lookup>)
    requires run != [] && forall k | 0 <= k < |run| :: run[k].index < |mapping|
    ensures var first := Resolve(cmp, names, mapping, run[0].index, run[0].name);
      Coherent(cmp, names, mapping, run) <==>
        first.found == Find(cmp, names, run[0].name) && Coherent(cmp, names, first.mapping, run[1..])
  {
    var first := Resolve(cmp, names, mapping, run[0].index, run[0].name);
    var later := run[1..];
    if Coherent(cmp, names, mapping, run) {
      assert AgreesAt(cmp, names, mapping[run[0].index], run[0].name);
      forall k | 0 <= k < |later| ensures AgreesAt(cmp, names, first.mapping[later[k].index], later[k].name) {
        assert later[k] == run[k + 1];
        assert AgreesAt(cmp, names, mapping[run[k + 1].index], run[k + 1].name);
      }
      forall j, k | 0 <= j < k < |later| && later[j].index == later[k].index && first.mapping[later[j].index] == Unset
        ensures Find(cmp, names, later[j].name).None?
          || Find(cmp, names, later[j].name) == Find(cmp, names, later[k].name)
      {
        assert later[j] == run[j + 1] && later[k] == run[k + 1];
      }
    }
    if first.found == Find(cmp, names, run[0].name) && Coherent(cmp, names, first.mapping, later) {
      forall k | 0 <= k < |run| ensures AgreesAt(cmp, names, mapping[run[k].index], run[k].name) {
        if k > 0 { assert AgreesAt(cmp, names, first.mapping[later[k - 1].index], later[k - 1].name); }
      }
      forall j, k | 0 <= j < k < |run| && run[j].index == run[k].index && mapping[run[j].index] == Unset
        ensures Find(cmp, names, run[j].name).None? || Find(cmp, names, run[j].name) == Find(cmp, names, run[k].name)
      {
        assert AgreesAt(cmp, names, first.mapping[later[k - 1].index], later[k - 1].name);
        if j > 0 {
          assert later[j - 1] == run[j] && later[k - 1] == run[k];
          assert AgreesAt(cmp, names, first.mapping[later[j - 1].index], later[j - 1].name);
        }
      }
    }
  }

  /** Over any run, from any cache, with any names: every answer is the answer of a fresh search exactly
      when the run is coherent. A sender that renumbers is answered wrongly when an index was found
      before and the new name is not at the same place. */
  lemma CacheIsStaleExactlyWhen(cmp: Comparison, names: seq<Name>, mapping: seq<Slot>, run: seq<Lookup>)
    requires forall k | 0 <= k < |run| :: run[k].index < |mapping|
    ensures AnsweredFreshly(cmp, names, mapping, run) <==> Coherent(cmp, names, mapping, run)
    decreases |run|
  {
    if run != [] {
      CoherentFirst(cmp, names, mapping, run);
      FreshFirst(cmp, names, mapping, run);
      CacheIsStaleExactlyWhen(cmp, names, Resolve(cmp, names, mapping, run[0].index, run[0].name).mapping, run[1..]);
    }
  }

  lemma FreshFirst(cmp: Comparison, names: seq<Name>, mapping: seq<Slot>, run: seq<Lookup>)
    requires run != [] && forall k | 0 <= k < |run| :: run[k].index < |mapping|
    ensures var first := Resolve(cmp, names, mapping, run[0].index, run[0].name);
      AnsweredFreshly(cmp, names, mapping, run) <==>
        first.found == Find(cmp, names, run[0].name) && AnsweredFreshly(cmp, names, first.mapping, run[1..])
  {
    var first := Resolve(cmp, names, mapping, run[0].index, run[0].name);
    var all, later := ResolveAll(cmp, names, mapping, run), ResolveAll(cmp, names, first.mapping, run[1..]);
    assert forall k | 0 <= k < |later.0| :: all.0[k + 1] == later.0[k] && run[1..][k] == run[k + 1];
    if AnsweredFreshly(cmp, names, mapping, run) {
      assert all.0[0] == first.found;
      forall k | 0 <= k < |later.0| ensures later.0[k] == Find(cmp, names, run[1..][k].name) {
        assert all.0[k + 1] == Find(cmp, names, run[k + 1].name);
      }
    }
    if first.found == Find(cmp, names, run[0].name) && AnsweredFreshly(cmp, names, first.mapping, run[1..]) {
      forall k | 0 <= k < |run| ensures all.0[k] == Find(cmp, names, run[k].name) {
        if k > 0 { assert later.0[k - 1] == Find(cmp, names, run[1..][k - 1].name); }
      }
    }
  }
}
