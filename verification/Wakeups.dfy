/** When a round of the barrier can still complete: exactly while no thread has missed the event. A
    thread that counts itself resets the event, also for a thread that has not woken yet. */
module Wakeups {
  import opened Barrier

  /** The event is down, nobody is about to raise it, and a blocked thread has not counted itself. */
  ghost predicate LostThread(c: Setting, s: State, t: nat)
    requires |s.threads| == c.threads
  {
    !s.event && !Copying(s.loop) && s.loop != Boot && t < c.threads && Blocked(s.threads[t]) && t !in s.counted
  }

  ghost predicate Lost(c: Setting, s: State)
    requires |s.threads| == c.threads
  {
    exists t: nat :: LostThread(c, s, t)
  }

  lemma StaysLost(c: Setting, s: State, a: Action, t: nat)
    requires Inv(c, s) && LostThread(c, s, t) && Enabled(c, s, a)
    ensures LostThread(c, Next(c, s, a), t)
  {
    AtMostAll(s.counted, c.threads);
  }

  /** Once a thread has missed the event, no step ever posts it again: the thread stays where it is
      and nothing more is dispatched. */
  lemma {:induction false} LostForever(c: Setting, s: State, steps: seq<Action>, t: nat)
    requires Inv(c, s) && LostThread(c, s, t) && Feasible(c, s, steps)
    requires GoodSetting(c)
    ensures var s' := After(c, s, steps); |s'.threads| == c.threads && LostThread(c, s', t)
    decreases |steps|
  {
    if steps != [] {
      StepKeeps(c, s, steps[0]);
      StaysLost(c, s, steps[0], t);
      LostForever(c, Next(c, s, steps[0]), steps[1..], t);
    }
  }

  // ----- finishing a round

  /** How many steps the thread is from counting itself. */
  function Rank(s: State, t: nat): nat
    requires t < |s.threads|
  {
    if t in s.counted then 0
    else
      match s.threads[t]
      case Waiting => 4
      case StartWait => 3
      case Released => 3
      case Sending => 2
      case Connecting => 2
      case Arriving => 1
      case Failing => 1
  }

  function Ranks(s: State, n: nat): nat
    requires n <= |s.threads|
  {
    if n == 0 then 0 else Ranks(s, n - 1) + Rank(s, n - 1)
  }

  lemma {:induction false} RanksDrop(s: State, s': State, t: nat, n: nat)
    requires |s.threads| == |s'.threads| && n <= |s.threads| && t < |s.threads|
    requires Rank(s', t) < Rank(s, t)
    requires forall u | 0 <= u < |s.threads| && u != t :: Rank(s', u) == Rank(s, u)
    ensures Ranks(s', n) <= Ranks(s, n) && (t < n ==> Ranks(s', n) < Ranks(s, n))
  {
    if n > 0 { RanksDrop(s, s', t, n - 1); }
  }

  /** The thread to move next: one that still has to wake, if there is one. */
  ghost predicate Movable(c: Setting, s: State, t: nat)
    requires |s.threads| == c.threads
  {
    && t < c.threads && t !in s.counted
    && ((exists u: nat :: u < c.threads && u !in s.counted && Blocked(s.threads[u])) ==> Blocked(s.threads[t]))
  }

  ghost predicate NotLost(c: Setting, s: State)
  {
    Inv(c, s) && !Lost(c, s)
  }

  lemma MovesRank(c: Setting, s: State, t: nat)
    requires CountsThreads(c, s) && GoodSetting(c) && Enabled(c, s, Thread(t, false)) && t < c.threads
      && t !in s.counted
    ensures var s' := ThreadStep(c, s, t, false);
      |s'.threads| == c.threads && Rank(s', t) < Rank(s, t) && s'.loop == s.loop
      && forall u | 0 <= u < c.threads && u != t :: Rank(s', u) == Rank(s, u)
  {
  }

  lemma CountingLosesNobody(c: Setting, s: State, t: nat, pc: ThreadPc)
    requires CountsThreads(c, s) && t < c.threads && !Blocked(s.threads[t]) && Movable(c, s, t)
    ensures !Lost(c, CountIn(s, t, pc))
  {
    forall u: nat ensures !LostThread(c, CountIn(s, t, pc), u) {}
  }

  lemma MoveLosesNobody(c: Setting, s: State, t: nat)
    requires CountsThreads(c, s) && GoodSetting(c) && !Lost(c, s) && (s.loop == Top || s.loop.Counted?)
      && Movable(c, s, t)
    ensures Enabled(c, s, Thread(t, false))
    ensures var s' := ThreadStep(c, s, t, false); |s'.threads| == c.threads && !Lost(c, s')
  {
    if Blocked(s.threads[t]) {
      assert !LostThread(c, s, t);
    } else if s.threads[t] == Arriving {
      CountingLosesNobody(c, s, t, Waiting);
    } else if s.threads[t] == Failing {
      CountingLosesNobody(c, s, t, StartWait);
    } else {
      var s' := ThreadStep(c, s, t, false);
      forall u: nat ensures !LostThread(c, s', u) {
        assert !LostThread(c, s, u);
      }
    }
  }

  lemma {:induction false} MovesOn(c: Setting, s: State, t: nat)
    requires NotLost(c, s) && GoodSetting(c) && (s.loop == Top || s.loop.Counted?) && Movable(c, s, t)
    ensures Enabled(c, s, Thread(t, false))
    ensures var s' := Next(c, s, Thread(t, false));
      NotLost(c, s') && s'.loop == s.loop && Ranks(s', c.threads) < Ranks(s, c.threads)
  {
    MoveLosesNobody(c, s, t);
    MovesRank(c, s, t);
    StepKeeps(c, s, Thread(t, false));
    RanksDrop(s, Next(c, s, Thread(t, false)), t, c.threads);
  }

  lemma SomeMovable(c: Setting, s: State) returns (t: nat)
    requires Inv(c, s) && exists t :: 0 <= t < c.threads && t !in s.counted
    ensures Movable(c, s, t)
  {
    if u: nat :| u < c.threads && u !in s.counted && Blocked(s.threads[u]) {
      t := u;
    } else {
      t :| 0 <= t < c.threads && t !in s.counted;
    }
  }

  function Phase(s: State): nat
  {
    if s.loop == Boot then 2 else if Copying(s.loop) then 0 else 1
  }

  function LoopRank(c: Setting, l: LoopPc): nat
  {
    match l
    case Boot => 0
    case Top => 1
    case Counted(n) => if n == c.threads then 0 else 2
    case Zeroed => 4
    case MemoryCopied => 3
    case ListCopied => 2
    case IndexCopied => 1
    case VarsCopied => 0
  }

  /** The loop's own steps towards the next post, once every thread has counted itself. */
  lemma {:induction false} LoopMovesOn(c: Setting, s: State)
    requires NotLost(c, s) && GoodSetting(c) && s.loop != VarsCopied
    requires s.loop == Top || s.loop.Counted? ==> forall t | 0 <= t < c.threads :: t in s.counted
    ensures Enabled(c, s, Loop(0, 0))
    ensures var s' := Next(c, s, Loop(0, 0));
      && NotLost(c, s')
      && (Phase(s') < Phase(s) || (Phase(s') == Phase(s) && Ranks(s', c.threads) == Ranks(s, c.threads)
                                  && LoopRank(c, s'.loop) < LoopRank(c, s.loop)))
  {
    var s' := Next(c, s, Loop(0, 0));
    StepKeeps(c, s, Loop(0, 0));
    forall u: nat ensures !LostThread(c, s', u) {
      assert !LostThread(c, s, u);
    }
    if s.loop == Top || s.loop.Counted? {
      assert forall t | t in s.counted :: t < c.threads;
      AllCounted(c, s);
    }
    if Phase(s') == Phase(s) { SameRanks(s, s', c.threads); }
  }

  lemma AllCounted(c: Setting, s: State)
    requires CountsThreads(c, s) && forall t | 0 <= t < c.threads :: t in s.counted
    ensures s.finished == c.threads
  {
    AtMostAll(s.counted, c.threads);
    AtLeast(s.counted, c.threads);
  }

  lemma AtLeast(s: set<nat>, n: nat)
    requires forall t | 0 <= t < n :: t in s
    ensures |s| >= n
  {
    if n > 0 {
      var last := n - 1;
      AtLeast(s - {last}, last);
    }
  }

  lemma {:induction false} SameRanks(s: State, s': State, n: nat)
    requires s.threads == s'.threads && s.counted == s'.counted && n <= |s.threads|
    ensures Ranks(s', n) == Ranks(s, n)
  {
    if n > 0 { SameRanks(s, s', n - 1); }
  }

  /** If no thread has missed the event, the round can be completed. */
  lemma Completes(c: Setting, s: State) returns (steps: seq<Action>)
    requires NotLost(c, s) && GoodSetting(c)
    ensures Feasible(c, s, steps) && After(c, s, steps).loop == VarsCopied
    decreases Phase(s), Ranks(s, c.threads), LoopRank(c, s.loop)
  {
    if s.loop == VarsCopied {
      steps := [];
    } else {
      var a := Loop(0, 0);
      if (s.loop == Top || s.loop.Counted?) && exists t :: 0 <= t < c.threads && t !in s.counted {
        var t := SomeMovable(c, s);
        MovesOn(c, s, t);
        a := Thread(t, false);
      } else {
        LoopMovesOn(c, s);
      }
      var later := Completes(c, Next(c, s, a));
      steps := FirstThen(c, s, a, later);
    }
  }

  /** From any state a run reaches, the loop can dispatch again exactly when no thread has missed the
      event. */
  lemma {:induction false} RoundCompletesExactlyWhen(c: Setting, s: State)
    requires Inv(c, s) && GoodSetting(c)
    ensures (exists steps :: Feasible(c, s, steps) && After(c, s, steps).loop == VarsCopied) <==> !Lost(c, s)
  {
    if Lost(c, s) {
      var t :| LostThread(c, s, t);
      forall steps | Feasible(c, s, steps) ensures After(c, s, steps).loop != VarsCopied {
        LostForever(c, s, steps, t);
      }
    } else {
      var steps := Completes(c, s);
    }
  }

  lemma LoopWakes(c: Setting, s: State, index: nat, vars: nat)
    requires GoodSetting(c) && c.threads == 1 && CountsThreads(c, s) && QuietCopies(c, s) && !Lost(c, s)
    ensures !Lost(c, LoopStep(c, s, index, vars))
  {
    forall u: nat ensures !LostThread(c, LoopStep(c, s, index, vars), u) {
      assert !LostThread(c, s, u);
    }
  }

  lemma AloneWakes(c: Setting, s: State, fails: bool)
    requires GoodSetting(c) && c.threads == 1 && CountsThreads(c, s) && QuietCopies(c, s) && !Lost(c, s)
    requires Enabled(c, s, Thread(0, fails))
    ensures !Lost(c, ThreadStep(c, s, 0, fails))
  {
    forall u: nat ensures !LostThread(c, ThreadStep(c, s, 0, fails), u) {
      assert !LostThread(c, s, u);
    }
  }

  lemma AloneStaysAwake(c: Setting, s: State, a: Action)
    requires GoodSetting(c) && c.threads == 1 && NotLost(c, s) && Enabled(c, s, a)
    ensures |Next(c, s, a).threads| == 1 && !Lost(c, Next(c, s, a))
  {
    match a
    case Loop(index, vars) => LoopWakes(c, s, index, vars);
    case Thread(t, fails) => AloneWakes(c, s, fails);
  }

  /** With one thread the event is never missed. */
  lemma {:induction false} AloneNeverLost(c: Setting, s: State, steps: seq<Action>)
    requires GoodSetting(c) && c.threads == 1 && NotLost(c, s) && Feasible(c, s, steps)
    ensures NotLost(c, After(c, s, steps))
    decreases |steps|
  {
    if steps != [] {
      var s' := Next(c, s, steps[0]);
      StepKeeps(c, s, steps[0]);
      AloneStaysAwake(c, s, steps[0]);
      AloneNeverLost(c, s', steps[1..]);
    }
  }

  /** With two or more threads it can be missed before anything was sent: thread 0 starts, connects
      and counts itself while thread 1 has not woken yet. */
  lemma MissedAtStart(c: Setting) returns (steps: seq<Action>)
    requires GoodSetting(c) && c.threads >= 2
    ensures Feasible(c, Init(c), steps)
    ensures var s := After(c, Init(c), steps); |s.threads| == c.threads && LostThread(c, s, 1)
  {
    var go := Thread(0, false);
    var s0 := Init(c);
    var s1 := Next(c, s0, Loop(0, 0));
    var s2 := Next(c, s1, go);
    var s3 := Next(c, s2, go);
    steps := FirstThen(c, s3, go, []);
    steps := FirstThen(c, s2, go, steps);
    steps := FirstThen(c, s1, go, steps);
    steps := FirstThen(c, s0, Loop(0, 0), steps);
  }

  lemma FirstThen(c: Setting, s: State, a: Action, later: seq<Action>) returns (steps: seq<Action>)
    requires GoodSetting(c) && Enabled(c, s, a) && Feasible(c, Next(c, s, a), later)
    ensures Feasible(c, s, steps) && After(c, s, steps) == After(c, Next(c, s, a), later)
  {
    steps := [a] + later;
    assert steps[1..] == later;
  }

  /** The diode can stop for good exactly when it has more than one pool thread. */
  lemma {:induction false} CanStopExactlyWhen(c: Setting)
    requires GoodSetting(c)
    ensures (exists steps :: Feasible(c, Init(c), steps)
               && |After(c, Init(c), steps).threads| == c.threads && Lost(c, After(c, Init(c), steps)))
            <==> c.threads >= 2
  {
    InitInv(c);
    if c.threads >= 2 {
      var steps := MissedAtStart(c);
      assert LostThread(c, After(c, Init(c), steps), 1);
    } else {
      forall steps | Feasible(c, Init(c), steps) ensures NotLost(c, After(c, Init(c), steps)) {
        AloneNeverLost(c, Init(c), steps);
      }
    }
  }
}
