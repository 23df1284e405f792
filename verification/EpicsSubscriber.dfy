/** The subscriber as it initialises and snapshots: each thread discovers the PVs of its range and lays
    out its memory; the last one remaps all offsets into the concatenation the snapshots are. */
module EpicsSubscriber {
  import opened Wrappers
  import opened Bytes
  import opened Circular
  import opened WorkSplit
  import opened Placement
  import opened Callbacks

  class Subscriber {
    const numberOfVariables: nat
    const numberOfPoolThreads: nat
    const nVarsPerChunk: nat
    const maxArraySize: nat
    const elements: array<nat>
    const offset: array<nat>
    /** Where a PV's value and timestamp are kept: its pointers into the memory of a thread. */
    const spot: array<Spot>
    const stamp: array<Spot>
    const memorySize: array<nat>
    const memory: array<seq<Byte>>
    const changedFlagMem: array<bool>

    ghost predicate Valid()
      reads this
    {
      && numberOfPoolThreads > 0 && nVarsPerChunk == numberOfVariables / numberOfPoolThreads
      && elements.Length == offset.Length == changedFlagMem.Length == numberOfVariables
      && spot.Length == stamp.Length == numberOfVariables && spot != stamp
      && memorySize.Length == memory.Length == numberOfPoolThreads
      && elements != offset && elements != memorySize && offset != memorySize
    }

    constructor (variables: nat, threads: nat, maxArraySize: nat)
      requires threads > 0
      ensures Valid() && numberOfVariables == variables && numberOfPoolThreads == threads
        && this.maxArraySize == maxArraySize
      ensures forall t | 0 <= t < threads :: memorySize[t] == 0
      ensures fresh(elements) && fresh(offset) && fresh(spot) && fresh(stamp)
      ensures fresh(memorySize) && fresh(memory) && fresh(changedFlagMem)
    {
      numberOfVariables, numberOfPoolThreads, nVarsPerChunk := variables, threads, variables / threads;
      this.maxArraySize := maxArraySize;
      elements := new nat[variables](_ => 0);
      offset := new nat[variables](_ => 0);
      spot := new Spot[variables](_ => Spot(0, 0));
      stamp := new Spot[variables](_ => Spot(0, 0));
      memorySize := new nat[threads](_ => 0);
      memory := new seq<Byte>[threads](_ => []);
      changedFlagMem := new bool[variables](_ => false);
    }

    method ThreadRange(threadId: nat) returns (beg: nat, end: nat)
      requires Valid() && threadId < numberOfPoolThreads
      ensures beg == Beg(numberOfVariables, numberOfPoolThreads, threadId)
      ensures end == End(numberOfVariables, numberOfPoolThreads, threadId) && beg <= end <= numberOfVariables
    {
      Ends(numberOfVariables, numberOfPoolThreads, threadId);
      beg := threadId * nVarsPerChunk;
      end := (threadId + 1) * nVarsPerChunk;
      if numberOfVariables - end < numberOfPoolThreads { end := numberOfVariables; }
    }

    /** What the library reports of the PVs of the range decides how much memory the thread needs. */
    method DiscoverRange(pvs: seq<Pv>, beg: nat, end: nat, threadId: nat)
      requires Valid() && |pvs| == numberOfVariables && beg <= end <= numberOfVariables
        && threadId < numberOfPoolThreads
      requires memorySize[threadId] == 0
      modifies elements, memorySize
      ensures memorySize[..] == old(memorySize[..])[threadId := MemorySize(pvs, maxArraySize, beg, end)]
      ensures forall i | 0 <= i < numberOfVariables ::
        elements[i] == if beg <= i < end then Kept(pvs[i], maxArraySize).elements else old(elements[i])
    {
      var i := beg;
      while i < end
        invariant beg <= i <= end
        invariant memorySize[..] == old(memorySize[..])[threadId := MemorySize(pvs, maxArraySize, beg, i)]
        invariant forall k | 0 <= k < numberOfVariables ::
          elements[k] == if beg <= k < i then Kept(pvs[k], maxArraySize).elements else old(elements[k])
      {
        elements[i] := pvs[i].elements;
        if elements[i] > maxArraySize {
          elements[i] := 0;
        } else {
          memorySize[threadId] := memorySize[threadId] + (elements[i] * pvs[i].size + STAMP);
        }
        i := i + 1;
      }
    }

    method MovesBy(count: nat, p: Pv) returns (step: nat)
      requires count == Kept(p, maxArraySize).elements
      ensures step == Used(p, maxArraySize)
    {
      step := if count > 0 then count * p.size + STAMP else 0;
    }

    /** PV i is where thread t lays it out. */
    ghost predicate PlacedBy(pvs: seq<Pv>, t: nat, i: nat)
      requires Valid() && |pvs| == numberOfVariables && i < numberOfVariables
      reads this, elements, offset, spot, stamp
    {
      var beg := Beg(numberOfVariables, numberOfPoolThreads, t);
      && elements[i] == Kept(pvs[i], maxArraySize).elements
      && 0 <= beg <= i && offset[i] == Offset(pvs, maxArraySize, beg, i)
      && spot[i] == Spot(t, offset[i]) && stamp[i] == Spot(t, offset[i] + Value(Kept(pvs[i], maxArraySize)))
    }

    /** What PV i has of the plan: the length of its value, and the offset behind it. */
    ghost predicate Planned(pvs: seq<Pv>, offsets: seq<nat>, lengths: seq<nat>, i: nat)
      requires i < |pvs| == |lengths| && |offsets| == |pvs| + 1
    {
      offsets[i + 1] == offsets[i] + Used(pvs[i], maxArraySize) && lengths[i] == Value(Kept(pvs[i], maxArraySize))
    }

    /** PV i gets the place the offset has come to; the next one's lies behind it. */
    method PlaceOne(p: Pv, i: nat, threadId: nat, memoryOffset: nat, ghost length: nat) returns (next: nat)
      requires Valid() && i < numberOfVariables
      requires elements[i] == Kept(p, maxArraySize).elements && length == Value(Kept(p, maxArraySize))
      modifies offset, spot, stamp
      ensures next == memoryOffset + Used(p, maxArraySize)
      ensures offset[..] == old(offset[..])[i := memoryOffset]
      ensures spot[..] == old(spot[..])[i := Spot(threadId, memoryOffset)]
      ensures stamp[..] == old(stamp[..])[i := Spot(threadId, memoryOffset + length)]
    {
      spot[i] := Spot(threadId, memoryOffset);
      offset[i] := memoryOffset;
      stamp[i] := Spot(threadId, memoryOffset + elements[i] * p.size);
      var step := MovesBy(elements[i], p);
      next := memoryOffset + step;
    }

    /** Each PV of the range gets the next part of the thread's memory. */
    method LayOutRange(pvs: seq<Pv>, beg: nat, end: nat, threadId: nat, ghost offsets: seq<nat>,
                       ghost lengths: seq<nat>)
      requires Valid() && |pvs| == |lengths| == numberOfVariables && beg <= end <= numberOfVariables
      requires |offsets| == numberOfVariables + 1 && offsets[beg] == 0
      requires forall i | beg <= i < end :: Planned(pvs, offsets, lengths, i)
      requires forall i | beg <= i < end :: elements[i] == Kept(pvs[i], maxArraySize).elements
      modifies offset, spot, stamp
      ensures forall i | 0 <= i < numberOfVariables ::
        && offset[i] == (if beg <= i < end then offsets[i] else old(offset[i]))
        && spot[i] == (if beg <= i < end then Spot(threadId, offsets[i]) else old(spot[i]))
        && stamp[i] == if beg <= i < end then Spot(threadId, offsets[i] + lengths[i]) else old(stamp[i])
    {
      var memoryOffset: nat := 0;
      var i := beg;
      while i < end
        invariant beg <= i <= end && memoryOffset == offsets[i]
        invariant forall k | 0 <= k < numberOfVariables ::
          offset[k] == if beg <= k < i then offsets[k] else old(offset[k])
        invariant forall k | 0 <= k < numberOfVariables ::
          spot[k] == if beg <= k < i then Spot(threadId, offsets[k]) else old(spot[k])
        invariant forall k | 0 <= k < numberOfVariables ::
          stamp[k] == if beg <= k < i then Spot(threadId, offsets[k] + lengths[k]) else old(stamp[k])
      {
        assert Planned(pvs, offsets, lengths, i);
        memoryOffset := PlaceOne(pvs[i], i, threadId, memoryOffset, lengths[i]);
        i := i + 1;
      }
    }

    /** What one thread does when it starts. */
    method FillMemorySizes(pvs: seq<Pv>, threadId: nat)
      requires Valid() && |pvs| == numberOfVariables && threadId < numberOfPoolThreads && memorySize[threadId] == 0
      modifies elements, memorySize, offset, spot, stamp, memory
      ensures HasItsMemory(pvs, threadId)
      ensures forall i | 0 <= i < numberOfVariables && InRange(numberOfVariables, numberOfPoolThreads, threadId, i) ::
        PlacedBy(pvs, threadId, i)
      ensures forall t | 0 <= t < numberOfPoolThreads && t != threadId ::
        memorySize[t] == old(memorySize[t]) && memory[t] == old(memory[t])
      ensures forall i | 0 <= i < numberOfVariables && !InRange(numberOfVariables, numberOfPoolThreads, threadId, i) ::
        && elements[i] == old(elements[i]) && offset[i] == old(offset[i])
        && spot[i] == old(spot[i]) && stamp[i] == old(stamp[i])
    {
      var beg, end := ThreadRange(threadId);
      DiscoverRange(pvs, beg, end, threadId);
      memory[threadId] := Zeros(memorySize[threadId]);
      ghost var offsets, lengths := Offsets(pvs, maxArraySize, beg), Lengths(pvs, maxArraySize);
      forall i | beg <= i < end ensures Planned(pvs, offsets, lengths, i) {
        OffsetsGrow(pvs, maxArraySize, beg, i);
      }
      LayOutRange(pvs, beg, end, threadId, offsets, lengths);
    }

    ghost predicate HasItsMemory(pvs: seq<Pv>, t: nat)
      requires Valid() && |pvs| == numberOfVariables && t < numberOfPoolThreads
      reads this, memorySize, memory
    {
      var beg, end := Beg(numberOfVariables, numberOfPoolThreads, t), End(numberOfVariables, numberOfPoolThreads, t);
      && 0 <= beg <= end <= numberOfVariables
      && memorySize[t] == MemorySize(pvs, maxArraySize, beg, end) && memory[t] == Zeros(memorySize[t])
    }

    /** The last thread's remap: every offset moves past the memories of the threads before its owner. */
    method Remap()
      requires Valid() && nVarsPerChunk > 0
      modifies offset
      ensures forall i | 0 <= i < numberOfVariables ::
        offset[i] == old(offset[i]) + Before(numberOfVariables, memorySize[..], i)
    {
      var memCnt: nat := 0;
      var i: nat := 0;
      while i < numberOfVariables
        invariant i <= numberOfVariables
        invariant memCnt == if i == 0 then 0 else Owner(numberOfVariables, numberOfPoolThreads, i - 1)
        invariant forall k | 0 <= k < i :: offset[k] == old(offset[k]) + Before(numberOfVariables, memorySize[..], k)
        invariant forall k | i <= k < numberOfVariables :: offset[k] == old(offset[k])
      {
        NextOwner(numberOfVariables, numberOfPoolThreads, i);
        if i % nVarsPerChunk == 0 && i > 0 { memCnt := memCnt + 1; }
        if memCnt > numberOfPoolThreads - 1 { memCnt := numberOfPoolThreads - 1; }
        AddSizes(i, memCnt);
        i := i + 1;
      }
    }

    method AddSizes(i: nat, memCnt: nat)
      requires Valid() && i < numberOfVariables && memCnt <= numberOfPoolThreads
      modifies offset
      ensures offset[i] == old(offset[i]) + Sum(memorySize[..memCnt])
      ensures forall k | 0 <= k < numberOfVariables && k != i :: offset[k] == old(offset[k])
    {
      var k: nat := 0;
      while k < memCnt
        invariant k <= memCnt && offset[i] == old(offset[i]) + Sum(memorySize[..k])
        invariant forall j | 0 <= j < numberOfVariables && j != i :: offset[j] == old(offset[j])
      {
        assert memorySize[..k + 1][..k] == memorySize[..k];
        offset[i] := offset[i] + memorySize[k];
        k := k + 1;
      }
    }

    /** What the threads that have run so far leave: the memory each of them needs, and every PV where the
        last thread over it placed it. */
    ghost predicate Filled(pvs: seq<Pv>, order: seq<nat>)
      requires Valid() && |pvs| == numberOfVariables
      reads this, elements, memorySize, offset, spot, stamp, memory
    {
      && (forall u | 0 <= u < numberOfPoolThreads ::
            if u in order then HasItsMemory(pvs, u) else memorySize[u] == 0)
      && (forall i | 0 <= i < numberOfVariables ::
            var t := LastOver(numberOfVariables, numberOfPoolThreads, order, i);
            t < numberOfPoolThreads ==> PlacedBy(pvs, t, i))
    }

    method FillNext(pvs: seq<Pv>, ghost before: seq<nat>, t: nat)
      requires Valid() && |pvs| == numberOfVariables && t < numberOfPoolThreads && t !in before && Filled(pvs, before)
      modifies elements, memorySize, offset, spot, stamp, memory
      ensures Filled(pvs, before + [t])
    {
      FillMemorySizes(pvs, t);
      forall u | 0 <= u < numberOfPoolThreads
        ensures if u in before + [t] then HasItsMemory(pvs, u) else memorySize[u] == 0 {
        assert u in before + [t] <==> u in before || u == t;
        assert old(if u in before then HasItsMemory(pvs, u) else memorySize[u] == 0);
      }
      forall i | 0 <= i < numberOfVariables
        && LastOver(numberOfVariables, numberOfPoolThreads, before + [t], i) < numberOfPoolThreads
        ensures PlacedBy(pvs, LastOver(numberOfVariables, numberOfPoolThreads, before + [t], i), i)
      {
        LastOfMore(numberOfVariables, numberOfPoolThreads, before, t, i);
        if !InRange(numberOfVariables, numberOfPoolThreads, t, i) {
          assert old(PlacedBy(pvs, LastOver(numberOfVariables, numberOfPoolThreads, before, i), i));
        }
      }
    }

    ghost function TheLayout(pvs: seq<Pv>): Layout
      reads memorySize, spot
    {
      LayoutOf(pvs, maxArraySize, memorySize[..], spot[..])
    }

    /** The pointers of every connected PV lead to room of its own, and the timestamp's behind the value. */
    ghost predicate Ready(pvs: seq<Pv>)
      requires Valid() && |pvs| == numberOfVariables
      reads this, memorySize, spot, stamp, memory
    {
      && GoodLayout(TheLayout(pvs)) && Shaped(TheLayout(pvs), memory[..])
      && forall i | 0 <= i < numberOfVariables && IsConnected(pvs, maxArraySize, i) ::
        stamp[i] == Spot(spot[i].thread, spot[i].at + Value(pvs[i]))
    }

    /** All threads, in whatever order they get to run, and then the remap. Every PV has the spot that the
        last thread over it gave it, with room of its own, and its offset is that of the spot behind the
        memories of the threads before its owner; Placement proves when that is the PV's own place. */
    method Initialise(pvs: seq<Pv>, order: seq<nat>)
      requires Valid() && |pvs| == numberOfVariables && nVarsPerChunk > 0 && EachOnce(order, numberOfPoolThreads)
      requires forall t | 0 <= t < numberOfPoolThreads :: memorySize[t] == 0
      modifies elements, memorySize, offset, spot, stamp, memory
      ensures WorkSplit.Sized(pvs, maxArraySize, numberOfPoolThreads, memorySize[..])
      ensures Ready(pvs) && Spotted(pvs, maxArraySize, numberOfPoolThreads, spot[..])
      ensures forall t | 0 <= t < numberOfPoolThreads :: memory[t] == Zeros(memorySize[t])
      ensures forall i | 0 <= i < numberOfVariables ::
        && spot[i] == SpotAfter(pvs, maxArraySize, numberOfPoolThreads, order, i)
        && offset[i] == Before(numberOfVariables, memorySize[..], i) + spot[i].at
        && elements[i] == if pvs[i].elements > maxArraySize then 0 else pvs[i].elements
      ensures nVarsPerChunk + numberOfVariables % numberOfPoolThreads >= numberOfPoolThreads ==>
        forall i | 0 <= i < numberOfVariables ::
          && spot[i].thread == Owner(numberOfVariables, numberOfPoolThreads, i)
          && offset[i] == Final(pvs, maxArraySize, numberOfPoolThreads, memorySize[..], i)
    {
      var k: nat := 0;
      while k < |order|
        invariant k <= |order| && Filled(pvs, order[..k])
      {
        assert order[..k + 1] == order[..k] + [order[k]];
        FillNext(pvs, order[..k], order[k]);
        k := k + 1;
      }
      assert order[..k] == order;
      AllSized(pvs, order);
      AllPlaced(pvs, order);
      Remap();
      if nVarsPerChunk + numberOfVariables % numberOfPoolThreads >= numberOfPoolThreads {
        forall i | 0 <= i < numberOfVariables
          ensures spot[i].thread == Owner(numberOfVariables, numberOfPoolThreads, i)
          ensures offset[i] == Final(pvs, maxArraySize, numberOfPoolThreads, memorySize[..], i)
        {
          OwnerPlaces(pvs, maxArraySize, numberOfPoolThreads, memorySize[..], order, i);
        }
      }
    }

    lemma AllSized(pvs: seq<Pv>, order: seq<nat>)
      requires Valid() && |pvs| == numberOfVariables && Filled(pvs, order) && EachOnce(order, numberOfPoolThreads)
      ensures WorkSplit.Sized(pvs, maxArraySize, numberOfPoolThreads, memorySize[..])
      ensures forall t | 0 <= t < numberOfPoolThreads :: memory[t] == Zeros(memorySize[t])
    {
      forall u | 0 <= u < numberOfPoolThreads ensures HasItsMemory(pvs, u) {
        EveryThread(order, numberOfPoolThreads, u);
      }
      forall t | 0 <= t < numberOfPoolThreads
        ensures 0 <= Beg(|pvs|, numberOfPoolThreads, t) <= End(|pvs|, numberOfPoolThreads, t) <= |pvs|
        ensures memorySize[..][t]
          == MemorySize(pvs, maxArraySize, Beg(|pvs|, numberOfPoolThreads, t), End(|pvs|, numberOfPoolThreads, t))
        ensures memory[t] == Zeros(memorySize[t])
      {
        assert HasItsMemory(pvs, t);
      }
    }

    lemma AllPlaced(pvs: seq<Pv>, order: seq<nat>)
      requires Valid() && |pvs| == numberOfVariables && Filled(pvs, order) && EachOnce(order, numberOfPoolThreads)
      requires WorkSplit.Sized(pvs, maxArraySize, numberOfPoolThreads, memorySize[..])
      requires forall t | 0 <= t < numberOfPoolThreads :: memory[t] == Zeros(memorySize[t])
      ensures forall i | 0 <= i < numberOfVariables ::
        && spot[i] == SpotAfter(pvs, maxArraySize, numberOfPoolThreads, order, i) && offset[i] == spot[i].at
        && elements[i] == Kept(pvs[i], maxArraySize).elements
      ensures Ready(pvs) && Spotted(pvs, maxArraySize, numberOfPoolThreads, spot[..])
    {
      forall i | 0 <= i < numberOfVariables
        ensures spot[i] == SpotAfter(pvs, maxArraySize, numberOfPoolThreads, order, i) && offset[i] == spot[i].at
        ensures elements[i] == Kept(pvs[i], maxArraySize).elements
        ensures stamp[i] == Spot(spot[i].thread, spot[i].at + Value(Kept(pvs[i], maxArraySize)))
      {
        LastHas(numberOfVariables, numberOfPoolThreads, order, i);
        assert PlacedBy(pvs, LastOver(numberOfVariables, numberOfPoolThreads, order, i), i);
      }
      assert Spotted(pvs, maxArraySize, numberOfPoolThreads, spot[..]);
      LaidOutWell(pvs, maxArraySize, memorySize[..], spot[..]);
    }

    lemma SpotOf(pvs: seq<Pv>, i: nat)
      requires Valid() && |pvs| == numberOfVariables && Ready(pvs) && Has(TheLayout(pvs), i)
      ensures var l := TheLayout(pvs);
        && spot[i] == l.spots[i] && l.lengths[i] == Some(Value(pvs[i])) && spot[i].thread < numberOfPoolThreads
        && stamp[i] == Spot(spot[i].thread, spot[i].at + Value(pvs[i]))
        && spot[i].at + Value(pvs[i]) + STAMP <= |memory[spot[i].thread]|
    {
      assert Fits(TheLayout(pvs), i);
    }

    /** A value arrives for a connected PV: it is copied to where the PV points, under the lock, and the PV is
        flagged. */
    method GetValueCallback(pvs: seq<Pv>, i: nat, value: seq<Byte>)
      requires Valid() && |pvs| == numberOfVariables && Ready(pvs) && GoodNews(TheLayout(pvs), NewValue(i, value))
      modifies memory, changedFlagMem
      ensures Ready(pvs) && memory[..] == Deliver(TheLayout(pvs), old(memory[..]), NewValue(i, value))
      ensures changedFlagMem[..] == old(changedFlagMem[..])[i := true]
    {
      SpotOf(pvs, i);
      CopyTo(spot[i], value);
      changedFlagMem[i] := true;
    }

    /** A timestamp arrives: it is copied behind the value, and the PV is not flagged for it. */
    method GetTimeoutCallback(pvs: seq<Pv>, i: nat, stampBytes: seq<Byte>)
      requires Valid() && |pvs| == numberOfVariables && Ready(pvs) && GoodNews(TheLayout(pvs), NewStamp(i, stampBytes))
      modifies memory
      ensures Ready(pvs) && memory[..] == Deliver(TheLayout(pvs), old(memory[..]), NewStamp(i, stampBytes))
    {
      SpotOf(pvs, i);
      CopyTo(stamp[i], stampBytes);
    }

    /** Copies to a place in the memory of a thread. */
    method CopyTo(to: Spot, bytes: seq<Byte>)
      requires Valid() && to.thread < numberOfPoolThreads && to.at + |bytes| <= |memory[to.thread]|
      modifies memory
      ensures memory[..] == Copied(old(memory[..]), to.thread, to.at, bytes)
    {
      memory[to.thread] := Memory.Put(memory[to.thread], to.at, bytes);
    }

    /** A snapshot: the threads' memories one after the other, and the change flags, which are cleared. */
    method Synchronise() returns (memoryOut: seq<Byte>, changedFlags: seq<bool>)
      requires Valid()
      modifies changedFlagMem
      ensures memoryOut == Flatten(memory[..]) && changedFlags == old(changedFlagMem[..])
      ensures forall i | 0 <= i < numberOfVariables :: !changedFlagMem[i]
    {
      memoryOut := [];
      for i := 0 to numberOfPoolThreads
        invariant memoryOut == Flatten(memory[..i]) && changedFlagMem[..] == old(changedFlagMem[..])
      {
        FlattenSnoc(memory[..i], memory[i]);
        assert memory[..i + 1] == memory[..i] + [memory[i]];
        memoryOut := memoryOut + memory[i];
      }
      assert memory[..numberOfPoolThreads] == memory[..];
      changedFlags := changedFlagMem[..];
      for i := 0 to numberOfVariables
        invariant forall k | 0 <= k < i :: !changedFlagMem[k]
      {
        changedFlagMem[i] := false;
      }
    }
  }

  ghost function Offsets(pvs: seq<Pv>, maxArraySize: nat, beg: nat): (offsets: seq<nat>)
    requires beg <= |pvs|
    ensures |offsets| == |pvs| + 1 && forall k | beg <= k <= |pvs| :: offsets[k] == Offset(pvs, maxArraySize, beg, k)
  {
    seq(|pvs| + 1, k requires 0 <= k <= |pvs| => if k < beg then 0 else Offset(pvs, maxArraySize, beg, k))
  }

  ghost function Lengths(pvs: seq<Pv>, maxArraySize: nat): (lengths: seq<nat>)
    ensures |lengths| == |pvs| && forall k | 0 <= k < |pvs| :: lengths[k] == Value(Kept(pvs[k], maxArraySize))
  {
    seq(|pvs|, k requires 0 <= k < |pvs| => Value(Kept(pvs[k], maxArraySize)))
  }

  lemma OffsetsGrow(pvs: seq<Pv>, maxArraySize: nat, beg: nat, i: nat)
    requires beg <= i < |pvs|
    ensures var offsets := Offsets(pvs, maxArraySize, beg); offsets[i + 1] == offsets[i] + Used(pvs[i], maxArraySize)
  {
  }

  /** The owner changes where a chunk begins, until the last thread. */
  lemma NextOwner(n: nat, threads: nat, i: nat)
    requires threads > 0 && n / threads > 0 && i < n
    ensures var q := n / threads;
      var before := if i == 0 then 0 else Owner(n, threads, i - 1);
      var stepped := if i % q == 0 && i > 0 then before + 1 else before;
      Owner(n, threads, i) == if stepped > threads - 1 then threads - 1 else stepped
  {
    var q := n / threads;
    NextQuotient(i, q);
  }

  lemma NextQuotient(i: nat, q: nat)
    requires q > 0
    ensures i == 0 ==> i / q == 0
    ensures i > 0 ==> i / q == (i - 1) / q + if i % q == 0 then 1 else 0
  {
    if i > 0 {
      var k, r := i / q, i % q;
      assert i == k * q + r;
      if r == 0 {
        assert (k - 1) * q == k * q - q;
        QuotientUnique(i - 1, q, k - 1, q - 1);
      } else {
        QuotientUnique(i - 1, q, k, r - 1);
      }
    }
  }
}
