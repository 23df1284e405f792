/** The sender's cycle loop as it runs: a list of PV indices swapped in place, addressed modulo its
    length from a moving index. Each method is proved to do to the rotated list what Ring says. */
module PrioritySending {
  import opened Ring
  import opened SizeOrder
  import Waiting
  import opened Circular
  import opened Slices

  class PrioritySender {
    const sizes: seq<nat>
    const numberOfVariables: nat
    const sentPerCycle: nat
    const numberOfPoolThreads: nat
    const maxBytesPerCycle: nat
    const resetCounter: nat
    const sendOnlyChanged: bool
    var numberOfChunks: nat
    const indexList: array<nat>
    const indexListThreads: array<nat>
    var currentIdx: nat
    var currentIdxThreads: nat
    var currentChangePos: nat
    var chunckCounter: nat
    var numberOfChangedVariables: nat
    var nThreadsFinished: nat

    ghost function Settings(): Config
      reads this
    {
      Config(numberOfVariables, sentPerCycle, numberOfChunks, resetCounter, maxBytesPerCycle, sendOnlyChanged)
    }

    ghost predicate Shaped()
      reads this
    {
      && indexList.Length == indexListThreads.Length == |sizes| == numberOfVariables
      && indexList != indexListThreads && currentIdx < numberOfVariables && sentPerCycle <= numberOfVariables
    }

    /** The schedule, seen from the current index. */
    ghost function View(): (s: Sched)
      requires Shaped()
      reads this, indexList
      ensures |s.ring| == |s.sizes| == numberOfVariables > 0
    {
      Sched(Rotate(indexList[..], currentIdx), Rotate(sizes, currentIdx), currentChangePos, chunckCounter)
    }

    ghost predicate Valid()
      reads this, indexList
    {
      Shaped() && Good(Settings(), View())
    }

    /** Sets up the list of PVs in order. The count of cycles that go round is the quotient, rounded
        up. */
    constructor (sizes: seq<nat>, signals: nat, threads: nat, maxBytes: nat, reset: nat, onlyChanged: bool)
      requires signals * threads > 0 && |sizes| >= signals * threads
      ensures Valid() && fresh(indexList) && fresh(indexListThreads)
      ensures Settings() == Config(|sizes|, threads * signals, numberOfChunks, reset, maxBytes, onlyChanged)
      ensures View() == Waiting.Fresh(Settings(), sizes).s
      ensures indexListThreads[..] == indexList[..] && nThreadsFinished == 0
    {
      this.sizes := sizes;
      numberOfVariables := |sizes|;
      var perCycle := threads * signals;
      sentPerCycle := perCycle;
      numberOfPoolThreads := threads;
      maxBytesPerCycle, resetCounter, sendOnlyChanged := maxBytes, reset, onlyChanged;
      var list := new nat[|sizes|](i => i);
      var copy := new nat[|sizes|](i => i);
      indexList, indexListThreads := list, copy;
      var chunks := CountChunks(|sizes|, perCycle);
      numberOfChunks := chunks;
      currentIdx, currentIdxThreads, currentChangePos, chunckCounter := 0, 0, 0, 0;
      numberOfChangedVariables, nThreadsFinished := 0, 0;
      new;
      assert Rotate(indexList[..], 0) == indexList[..] && Rotate(sizes, 0) == sizes;
      assert indexList[..] == Waiting.Fresh(Settings(), sizes).s.ring;
    }

    static method CountChunks(variables: nat, perCycle: nat) returns (chunks: nat)
      requires perCycle > 0
      ensures chunks == (variables + perCycle - 1) / perCycle
    {
      chunks := variables / perCycle;
      if variables % perCycle > 0 { chunks := chunks + 1; }
      RoundedUp(variables, perCycle);
    }

    method SwapPlaces(a: nat, b: nat)
      requires a < indexList.Length && b < indexList.Length
      modifies indexList
      ensures indexList[..] == Swap(old(indexList[..]), a, b)
    {
      indexList[a], indexList[b] := indexList[b], indexList[a];
    }

    /** One comparison of the push forward: swap, or stop. `p` is the position in the ring of the PV
        that is moved. */
    method PushOnce(j: nat, pvSize: nat, ghost ring: seq<nat>, ghost around: seq<nat>, ghost p: nat)
      returns (swapped: bool, ghost next: seq<nat>)
      requires Shaped() && 0 < j && ring == Rotate(indexList[..], currentIdx) && around == Rotate(sizes, currentIdx)
      requires p == Turn(j, numberOfVariables)
      modifies indexList
      ensures p < numberOfVariables && Before(p, numberOfVariables) == Turn(j - 1, numberOfVariables)
      ensures swapped == (around[Before(p, numberOfVariables)] > pvSize)
      ensures next == Rotate(indexList[..], currentIdx) && next ==
        if swapped then Swap(ring, Before(p, numberOfVariables), p) else ring
    {
      var jIndex := (currentIdx + j) % numberOfVariables;
      var prevJIndex := if jIndex == 0 then numberOfVariables - 1 else jIndex - 1;
      PlacesSwapped(indexList[..], sizes, currentIdx, j, jIndex, prevJIndex, p);
      swapped := SwapIfLarger(prevJIndex, jIndex, pvSize);
      next := Rotate(indexList[..], currentIdx);
    }

    method SwapIfLarger(prevJIndex: nat, jIndex: nat, pvSize: nat) returns (swapped: bool)
      requires prevJIndex < indexList.Length == |sizes| && jIndex < indexList.Length
      modifies indexList
      ensures swapped == (sizes[prevJIndex] > pvSize)
      ensures indexList[..] == if swapped then Swap(old(indexList[..]), prevJIndex, jIndex) else old(indexList[..])
    {
      swapped := sizes[prevJIndex] > pvSize;
      if swapped { SwapPlaces(prevJIndex, jIndex); }
    }

    /** What one comparison leaves of the push forward that ends in `done`. */
    method PushStep(j: nat, pvSize: nat, ghost ring: seq<nat>, ghost around: seq<nat>, ghost p: nat,
                    ghost done: seq<nat>)
      returns (swapped: bool, ghost next: seq<nat>)
      requires Shaped() && 0 < j && ring == Rotate(indexList[..], currentIdx) && around == Rotate(sizes, currentIdx)
      requires p == Turn(j, numberOfVariables) && done == Bubble(ring, around, j, p, pvSize)
      modifies indexList
      ensures p < numberOfVariables && next == Rotate(indexList[..], currentIdx)
      ensures swapped ==> Before(p, numberOfVariables) == Turn(j - 1, numberOfVariables)
      ensures swapped ==> done == Bubble(next, around, j - 1, Before(p, numberOfVariables), pvSize)
      ensures !swapped ==> done == next
    {
      swapped, next := PushOnce(j, pvSize, ring, around, p);
    }

    /** Moves the PV at the end of the window down past the larger sizes. */
    method PushForward(pvSize: nat, ghost p0: nat)
      requires Shaped() && p0 == Turn(currentChangePos, numberOfVariables)
      modifies indexList
      ensures Rotate(indexList[..], currentIdx)
           == Bubble(old(Rotate(indexList[..], currentIdx)), Rotate(sizes, currentIdx), currentChangePos, p0, pvSize)
    {
      ghost var around, ring, p := Rotate(sizes, currentIdx), Rotate(indexList[..], currentIdx), p0;
      ghost var done := Bubble(ring, around, currentChangePos, p, pvSize);
      var j: nat := currentChangePos;
      var swapped := true;
      while j > 0 && swapped
        invariant ring == Rotate(indexList[..], currentIdx) && p < numberOfVariables
        invariant swapped ==> p == Turn(j, numberOfVariables) && done == Bubble(ring, around, j, p, pvSize)
        invariant !swapped ==> done == ring
        decreases j
      {
        swapped, ring := PushStep(j, pvSize, ring, around, p, done);
        j, p := j - 1, Before(p, numberOfVariables);
      }
    }

    /** One flagged PV: it goes to the end of the window, then down it by size. */
    method TakeChanged(i: nat)
      requires Shaped() && i < numberOfVariables
      modifies this`currentChangePos, indexList
      ensures currentChangePos == old(currentChangePos) + 1
      ensures Rotate(indexList[..], currentIdx)
           == TakeIn(Rotate(sizes, currentIdx), old(Rotate(indexList[..], currentIdx)), old(currentChangePos), i)
      ensures exists m: nat :: TakenIn(Rotate(sizes, currentIdx), old(Rotate(indexList[..], currentIdx)),
        Rotate(indexList[..], currentIdx), old(currentChangePos), i, m)
    {
      ghost var ring := Rotate(indexList[..], currentIdx);
      TurnIsRemainder(currentIdx + i, numberOfVariables);
      RotateAt(sizes, currentIdx, i);
      var nextIndex := (currentIdx + i) % numberOfVariables;
      var pvSize := sizes[nextIndex];
      ghost var next := PushIn(i, nextIndex);
      PushForward(pvSize, Turn(currentChangePos, numberOfVariables));
      ghost var m := TakenInBySize(Rotate(sizes, currentIdx), ring, currentChangePos, i);
      currentChangePos := currentChangePos + 1;
    }

    /** The swap to the end of the window. */
    method PushIn(i: nat, nextIndex: nat) returns (ghost next: seq<nat>)
      requires Shaped() && i < numberOfVariables && nextIndex == Turn(currentIdx + i, numberOfVariables)
      modifies indexList
      ensures next == Rotate(indexList[..], currentIdx)
      ensures next == Swap(old(Rotate(indexList[..], currentIdx)), Turn(currentChangePos, numberOfVariables), i)
    {
      var prevIndex := (currentIdx + currentChangePos) % numberOfVariables;
      PushedIn(indexList[..], currentIdx, currentChangePos, i, prevIndex, nextIndex);
      SwapPlaces(prevIndex, nextIndex);
      next := Rotate(indexList[..], currentIdx);
    }

    method IsChanged(i: nat, changeFlag: seq<bool>) returns (changed: bool)
      requires Shaped() && |changeFlag| == numberOfVariables && i < numberOfVariables
      requires IsPermutation(Rotate(indexList[..], currentIdx), numberOfVariables)
      ensures changed == changeFlag[Rotate(indexList[..], currentIdx)[i]]
    {
      RotateAt(indexList[..], currentIdx, i);
      TurnIsRemainder(currentIdx + i, numberOfVariables);
      var index := (currentIdx + i) % numberOfVariables;
      var signalIdx := indexList[index];
      changed := changeFlag[signalIdx];
    }

    /** One PV of the sorted pass; what is left of the pass goes on from the next one. */
    method SortStep(changeFlag: seq<bool>, i: nat, ghost ring: seq<nat>, ghost around: seq<nat>)
      returns (changed: bool, ghost next: seq<nat>)
      requires Shaped() && |changeFlag| == numberOfVariables && i < numberOfVariables
      requires ring == Rotate(indexList[..], currentIdx) && around == Rotate(sizes, currentIdx)
        && IsPermutation(ring, numberOfVariables)
      modifies this`currentChangePos, indexList
      ensures next == Rotate(indexList[..], currentIdx) && IsPermutation(next, numberOfVariables)
      ensures currentChangePos == if changed then old(currentChangePos) + 1 else old(currentChangePos)
      ensures SortPass(changeFlag, around, ring, old(currentChangePos), i)
        == SortPass(changeFlag, around, next, currentChangePos, i + 1)
    {
      SortOnce(changeFlag, around, ring, currentChangePos, i);
      changed := IsChanged(i, changeFlag);
      if changed { TakeChanged(i); }
      next := Rotate(indexList[..], currentIdx);
    }

    /** The sorted pass over the list from the current index. */
    method SortChanged(changeFlag: seq<bool>) returns (nVariables: nat)
      requires Shaped() && |changeFlag| == numberOfVariables
      requires IsPermutation(Rotate(indexList[..], currentIdx), numberOfVariables)
      modifies this`currentChangePos, indexList
      ensures (Rotate(indexList[..], currentIdx), currentChangePos)
           == SortPass(changeFlag, Rotate(sizes, currentIdx), old(Rotate(indexList[..], currentIdx)),
             old(currentChangePos), 0)
      ensures nVariables == currentChangePos
      ensures old(currentChangePos) == 0 ==> forall k | 0 <= k < numberOfVariables ::
        var v := Rotate(indexList[..], currentIdx)[k]; v < numberOfVariables && (changeFlag[v] <==> k < nVariables)
    {
      if currentChangePos == 0 {
        FromEmptyWindow(changeFlag, Rotate(sizes, currentIdx), Rotate(indexList[..], currentIdx));
      }
      nVariables := currentChangePos;
      ghost var around, ring := Rotate(sizes, currentIdx), Rotate(indexList[..], currentIdx);
      ghost var done := SortPass(changeFlag, around, ring, currentChangePos, 0);
      var i: nat := 0;
      while i < numberOfVariables
        invariant i <= numberOfVariables && nVariables == currentChangePos
        invariant ring == Rotate(indexList[..], currentIdx) && IsPermutation(ring, numberOfVariables)
        invariant done == SortPass(changeFlag, around, ring, currentChangePos, i)
      {
        var changed;
        changed, ring := SortStep(changeFlag, i, ring, around);
        if changed { nVariables := nVariables + 1; }
        i := i + 1;
      }
    }

    /** The byte budget, looked up by position. */
    method CheckBandwidth(varsToCheck: nat) returns (nVariables: nat)
      requires Shaped() && varsToCheck <= numberOfVariables
      ensures nVariables == Budget(Rotate(sizes, currentIdx), varsToCheck, 0, 0, maxBytesPerCycle)
    {
      ghost var around := Rotate(sizes, currentIdx);
      var totalSize: nat := 0;
      nVariables := 0;
      while nVariables < varsToCheck
        invariant nVariables <= varsToCheck
        invariant Budget(around, varsToCheck, 0, 0, maxBytesPerCycle)
               == Budget(around, varsToCheck, nVariables, totalSize, maxBytesPerCycle)
      {
        RotateAt(sizes, currentIdx, nVariables);
        TurnIsRemainder(currentIdx + nVariables, numberOfVariables);
        var nextIndex := (currentIdx + nVariables) % numberOfVariables;
        totalSize := totalSize + sizes[nextIndex];
        if totalSize > maxBytesPerCycle {
          if nVariables > 0 { nVariables := nVariables - 1; }
          break;
        }
        nVariables := nVariables + 1;
      }
    }

    /** The first half of a cycle: reorder the list or count the cycle, fit the number of PVs to the
        byte budget, shrink the window, and reset it when it is too long or the time has come. */
    method Prepare(changeFlag: seq<bool>, chunkCounterRead: nat, sendCounter: nat) returns (nVariables: nat)
      requires Valid() && |changeFlag| == numberOfVariables
      modifies this`currentChangePos, this`chunckCounter, indexList
      ensures Valid()
      ensures Prepared(View(), nVariables)
           == Ring.Prepare(Settings(), old(View()), chunkCounterRead, changeFlag, sendCounter)
    {
      Waiting.PrepareKeeps(Settings(), View(), chunkCounterRead, changeFlag, sendCounter);
      nVariables := SortOrCount(changeFlag, chunkCounterRead);
      if !sendOnlyChanged { nVariables := sentPerCycle; }
      if nVariables > sentPerCycle { nVariables := sentPerCycle; }
      nVariables := CheckBandwidth(nVariables);
      ShrinkWindow(nVariables, sendCounter);
    }

    /** A cycle that has gone round sorts, others are counted. */
    method SortOrCount(changeFlag: seq<bool>, chunkCounterRead: nat) returns (nVariables: nat)
      requires Valid() && |changeFlag| == numberOfVariables
      modifies this`currentChangePos, this`chunckCounter, indexList
      ensures (Rotate(indexList[..], currentIdx), currentChangePos)
           == Reordered(Settings(), old(View()), chunkCounterRead, changeFlag)
      ensures chunckCounter == if chunkCounterRead >= numberOfChunks then old(chunckCounter) else old(chunckCounter) + 1
      ensures nVariables == if chunkCounterRead >= numberOfChunks then currentChangePos else sentPerCycle
    {
      nVariables := sentPerCycle;
      if chunkCounterRead >= numberOfChunks {
        nVariables := SortChanged(changeFlag);
      } else {
        chunckCounter := chunckCounter + 1;
      }
    }

    method ShrinkWindow(nVariables: nat, sendCounter: nat)
      requires sentPerCycle <= numberOfVariables
      modifies this`currentChangePos, this`chunckCounter
      ensures var pend := if old(currentChangePos) > nVariables then old(currentChangePos) - nVariables else 0;
        if pend > numberOfVariables - sentPerCycle || sendCounter >= resetCounter then
          currentChangePos == chunckCounter == 0
        else currentChangePos == pend && chunckCounter == old(chunckCounter)
    {
      if currentChangePos > nVariables {
        currentChangePos := currentChangePos - nVariables;
      } else {
        currentChangePos := 0;
      }
      var tooManyChanged := currentChangePos > numberOfVariables - sentPerCycle;
      if tooManyChanged || sendCounter >= resetCounter {
        currentChangePos, chunckCounter := 0, 0;
      }
    }

    method CopyIndexList()
      requires indexList.Length == indexListThreads.Length && indexList != indexListThreads
      modifies indexListThreads
      ensures indexListThreads[..] == indexList[..]
    {
      for i := 0 to indexList.Length
        invariant forall k | 0 <= k < i :: indexListThreads[k] == indexList[k]
      {
        indexListThreads[i] := indexList[i];
      }
    }

    /** The second half: hand the list, the index and the number of PVs to the pool threads, and move
        the index past them. What the threads will address from their copies is what Ring sends. */
    method Dispatch(nVariables: nat)
      requires Valid() && nVariables <= sentPerCycle
      modifies this`currentIdx, this`currentIdxThreads, this`numberOfChangedVariables, this`nThreadsFinished,
        indexListThreads
      ensures Shaped() && View() == Ring.Dispatch(Prepared(old(View()), nVariables))
      ensures nThreadsFinished == 0 && numberOfChangedVariables == nVariables
      ensures currentIdxThreads < indexListThreads.Length
      ensures Rotate(indexListThreads[..], currentIdxThreads)[..nVariables] == Sent(Prepared(old(View()), nVariables))
    {
      nThreadsFinished := 0;
      CopyIndexList();
      currentIdxThreads := currentIdx;
      AdvanceIndex(nVariables);
      numberOfChangedVariables := nVariables;
    }

    method AdvanceIndex(nVariables: nat)
      requires Shaped() && nVariables <= numberOfVariables
      modifies this`currentIdx
      ensures currentIdx < numberOfVariables
      ensures Rotate(indexList[..], currentIdx) == Rotate(old(Rotate(indexList[..], currentIdx)), nVariables)
      ensures Rotate(sizes, currentIdx) == Rotate(old(Rotate(sizes, currentIdx)), nVariables)
    {
      RotateOn(indexList[..], currentIdx, nVariables);
      RotateOn(sizes, currentIdx, nVariables);
      TurnIsRemainder(currentIdx + nVariables, numberOfVariables);
      currentIdx := currentIdx + nVariables;
      currentIdx := currentIdx % numberOfVariables;
    }

    /** A whole cycle is one step of Ring's run. Pool threads may set the chunk counter back while it
        runs: `e` says whether one does so after the loop has read the counter, or at the end. */
    method CycleOnce(e: Input, sendCounter: nat, ghost run: Run)
      requires Valid() && |e.flags| == numberOfVariables
      requires Kept(Settings(), run) && run.s == View() && run.sends == sendCounter
      modifies this`currentIdx, this`currentIdxThreads, this`numberOfChangedVariables, this`nThreadsFinished,
               this`currentChangePos, this`chunckCounter, indexList, indexListThreads
      ensures Valid() && View() == Cycle(Settings(), run, e).s
    {
      CycleKeeps(Settings(), run, e);
      var chunkCounterRead := chunckCounter;
      if e.resetDuring { chunckCounter := 0; }
      var n := Prepare(e.flags, chunkCounterRead, sendCounter);
      Dispatch(n);
      if e.resetAfter { chunckCounter := 0; }
    }

    method VarsPerThread(threadId: nat) returns (nVarsPerThread: nat)
      requires threadId < numberOfPoolThreads
      ensures nVarsPerThread == Quota(numberOfChangedVariables, numberOfPoolThreads, threadId)
    {
      nVarsPerThread := numberOfChangedVariables / numberOfPoolThreads;
      if threadId == numberOfPoolThreads - 1 {
        nVarsPerThread := nVarsPerThread + numberOfChangedVariables % numberOfPoolThreads;
      }
    }

    /** A pool thread claims the next share. `order` lists the threads that have claimed since the
        dispatch at `start`. Sending.ClaimedShare says which PVs are found from there. */
    method ClaimShare(threadId: nat, ghost start: nat, ghost order: seq<nat>)
      returns (listIndex: nat, nVarsPerThread: nat)
      requires Shaped() && threadId < numberOfPoolThreads && start < numberOfVariables
      requires numberOfChangedVariables <= numberOfVariables && ClaimOrder(order + [threadId], numberOfPoolThreads)
      requires currentIdxThreads
        == Turn(start + Claimed(numberOfChangedVariables, numberOfPoolThreads, order), numberOfVariables)
      modifies this`currentIdxThreads
      ensures nVarsPerThread == Quota(numberOfChangedVariables, numberOfPoolThreads, threadId) <= numberOfVariables
      ensures currentIdxThreads
           == Turn(start + Claimed(numberOfChangedVariables, numberOfPoolThreads, order + [threadId]),
             numberOfVariables)
      ensures listIndex == Turn(start + Claimed(numberOfChangedVariables, numberOfPoolThreads, order),
        numberOfVariables)
    {
      nVarsPerThread := VarsPerThread(threadId);
      CursorMoves(start, numberOfChangedVariables, numberOfPoolThreads, order, threadId, numberOfVariables);
      listIndex := currentIdxThreads;
      MoveCursor(nVarsPerThread);
    }

    method MoveCursor(n: nat)
      requires numberOfVariables > 0
      modifies this`currentIdxThreads
      ensures currentIdxThreads == Turn(old(currentIdxThreads) + n, numberOfVariables)
    {
      TurnIsRemainder(currentIdxThreads + n, numberOfVariables);
      currentIdxThreads := currentIdxThreads + n;
      currentIdxThreads := currentIdxThreads % numberOfVariables;
    }
  }

  /** The places the push forward compares, as the code computes them. */
  lemma PlacesOf(cur: nat, j: nat, n: nat)
    requires cur < n && 0 < j
    ensures (cur + j) % n == Turn(cur + j, n)
    ensures (if (cur + j) % n == 0 then n - 1 else (cur + j) % n - 1) == Turn(cur + (j - 1), n)
    ensures Before(Turn(j, n), n) == Turn(j - 1, n)
  {
    TurnIsRemainder(cur + j, n);
    TurnBefore(cur + j, n);
    TurnBefore(j, n);
    assert cur + j - 1 == cur + (j - 1);
  }

  lemma PlacesSwapped(list: seq<nat>, sizes: seq<nat>, cur: nat, j: nat, index: nat, prev: nat, p: nat)
    requires cur < |list| == |sizes| && 0 < j && index == (cur + j) % |list| && p == Turn(j, |list|)
    requires prev == if index == 0 then |list| - 1 else index - 1
    ensures index < |list| && prev < |list| && p < |list| && Before(p, |list|) == Turn(j - 1, |list|)
    ensures Rotate(sizes, cur)[Before(p, |list|)] == sizes[prev]
    ensures Rotate(Swap(list, prev, index), cur) == Swap(Rotate(list, cur), Before(p, |list|), p)
  {
    PlacesOf(cur, j, |list|);
    PlacesAt(list, sizes, cur, j, Turn(cur + (j - 1), |list|), Turn(cur + j, |list|), Turn(j - 1, |list|), p);
  }

  lemma PlacesAt(list: seq<nat>, sizes: seq<nat>, cur: nat, j: nat, x: nat, y: nat, a: nat, b: nat)
    requires cur < |list| == |sizes| && 0 < j && x == Turn(cur + (j - 1), |list|) && y == Turn(cur + j, |list|)
    requires a == Turn(j - 1, |list|) && b == Turn(j, |list|)
    ensures x < |list| && y < |list| && a < |list| && b < |list| && Rotate(sizes, cur)[a] == sizes[x]
    ensures Rotate(Swap(list, x, y), cur) == Swap(Rotate(list, cur), a, b)
  {
    RotateAt(sizes, cur, j - 1);
    RotateSwap(list, cur, j - 1, j);
  }

  lemma {:induction false} PushedIn(list: seq<nat>, cur: nat, pos: nat, i: nat, prev: nat, next: nat)
    requires cur < |list| && i < |list| && prev == (cur + pos) % |list| && next == Turn(cur + i, |list|)
    ensures prev < |list| && next < |list|
    ensures Rotate(Swap(list, prev, next), cur) == Swap(Rotate(list, cur), Turn(pos, |list|), i)
  {
    TurnIsRemainder(cur + pos, |list|);
    RotateSwap(list, cur, pos, i);
  }

  /** One step of the sorted pass, and that it leaves a permutation. */
  lemma {:induction false} SortOnce(flags: seq<bool>, sizes: seq<nat>, ring: seq<nat>, pend: nat, i: nat)
    requires |ring| == |sizes| && i < |ring| && IsPermutation(ring, |flags|)
    ensures IsPermutation(TakeIn(sizes, ring, pend, i), |flags|)
    ensures SortPass(flags, sizes, ring, pend, i) ==
      if !flags[ring[i]] then SortPass(flags, sizes, ring, pend, i + 1)
      else SortPass(flags, sizes, TakeIn(sizes, ring, pend, i), pend + 1, i + 1)
  {
    TakeInPermutes(sizes, ring, |flags|, pend, i);
  }
}
