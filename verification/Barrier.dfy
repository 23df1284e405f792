/** The meeting of the cycle loop and the pool threads, step by step: a counter of finished threads,
    an event that lets them go, and the copies they send from. Every interleaving is a run. */
module Barrier {
  import opened Queues
  import opened Ring
  import opened Slices
  import Pool = Sending

  /** Where the cycle loop is; Counted is after it has read the counter. */
  datatype LoopPc = Boot | Top | Counted(n: nat) | Zeroed | MemoryCopied | ListCopied | IndexCopied | VarsCopied

  /** Where a pool thread is. It waits for the event when it starts and after it has counted itself;
      a thread whose sending failed closes its connection, counts itself and starts again. */
  datatype ThreadPc = StartWait | Connecting | Arriving | Waiting | Released | Sending | Failing

  /** In which round each of the shared copies was last written. */
  datatype Copies = Copies(memory: nat, list: nat, index: nat, vars: nat)

  /** `counted` and `order` remember, since the counter was last set to zero, which threads have
      counted themselves and which have claimed a share. `start` and `vars` are what the loop last
      dispatched, `cursor` the shared index the claims move. */
  datatype State = State(loop: LoopPc, event: bool, finished: nat, threads: seq<ThreadPc>, counted: set<nat>,
                         round: nat, copies: Copies, order: seq<nat>, start: nat, cursor: nat, vars: nat)

  datatype Setting = Setting(threads: nat, variables: nat)

  /** A step of the loop, which dispatches `vars` PVs from `index` when it gets there; or of a thread,
      whose sending may fail. */
  datatype Action = Loop(index: nat, vars: nat) | Thread(t: nat, fails: bool)

  predicate Blocked(pc: ThreadPc) { pc == StartWait || pc == Waiting }

  predicate InSendVariables(pc: ThreadPc) { pc == Released || pc == Sending }

  predicate Copying(l: LoopPc)
  {
    l == Zeroed || l == MemoryCopied || l == ListCopied || l == IndexCopied || l == VarsCopied
  }

  /** The next step of the loop posts the event. */
  predicate Posting(l: LoopPc) { l == Boot || l == VarsCopied }

  ghost predicate Enabled(c: Setting, s: State, a: Action)
  {
    match a
    case Loop(index, vars) => index < c.variables && vars <= c.variables
    case Thread(t, _) => t < |s.threads| && (Blocked(s.threads[t]) ==> s.event)
  }

  ghost function LoopStep(c: Setting, s: State, index: nat, vars: nat): State
  {
    match s.loop
    case Boot => s.(loop := Top, event := true)
    case Top => s.(loop := Counted(s.finished))
    case Counted(n) =>
      if n == c.threads then s.(loop := Zeroed, finished := 0, counted := {}, order := [], round := s.round + 1)
      else s.(loop := Top)
    case Zeroed => s.(loop := MemoryCopied, copies := s.copies.(memory := s.round))
    case MemoryCopied => s.(loop := ListCopied, copies := s.copies.(list := s.round))
    case ListCopied => s.(loop := IndexCopied, copies := s.copies.(index := s.round), start := index, cursor := index)
    case IndexCopied => s.(loop := VarsCopied, copies := s.copies.(vars := s.round), vars := vars)
    case VarsCopied => s.(loop := Top, event := true)
  }

  /** A thread counts itself and resets the event, both under the lock. */
  ghost function CountIn(s: State, t: nat, pc: ThreadPc): State
    requires t < |s.threads|
  {
    s.(threads := s.threads[t := pc], event := false, finished := s.finished + 1, counted := s.counted + {t})
  }

  ghost function ThreadStep(c: Setting, s: State, t: nat, fails: bool): State
    requires t < |s.threads| && 0 < c.threads && 0 < c.variables
  {
    match s.threads[t]
    case StartWait => s.(threads := s.threads[t := Connecting])
    case Connecting => s.(threads := s.threads[t := Arriving])
    case Arriving => CountIn(s, t, Waiting)
    case Waiting => s.(threads := s.threads[t := Released])
    case Released =>
      s.(threads := s.threads[t := Sending], order := s.order + [t],
         cursor := Turn(s.cursor + Quota(s.vars, c.threads, t), c.variables))
    case Sending => s.(threads := s.threads[t := if fails then Failing else Arriving])
    case Failing => CountIn(s, t, StartWait)
  }

  ghost function Next(c: Setting, s: State, a: Action): State
    requires Enabled(c, s, a) && 0 < c.threads && 0 < c.variables
  {
    match a
    case Loop(index, vars) => LoopStep(c, s, index, vars)
    case Thread(t, fails) => ThreadStep(c, s, t, fails)
  }

  // ----- what every step keeps

  /** The counter counts exactly the threads that counted themselves in this round; they are all
      blocked, and the event is down as soon as there is one. */
  ghost predicate CountsThreads(c: Setting, s: State)
  {
    && |s.threads| == c.threads > 0 && s.finished == |s.counted|
    && (forall t | t in s.counted :: 0 <= t < c.threads && Blocked(s.threads[t]))
    && (s.counted != {} ==> !s.event)
    && (s.loop.Counted? ==> s.loop.n <= s.finished)
  }

  /** While the loop copies, and before it first lets the threads go, nobody moves. */
  ghost predicate QuietCopies(c: Setting, s: State)
    requires |s.threads| == c.threads
  {
    && (Copying(s.loop) || s.loop == Boot ==>
          !s.event && s.counted == {} && s.order == [] && forall t | 0 <= t < c.threads :: Blocked(s.threads[t]))
    && (!Copying(s.loop) ==> s.copies == Copies(s.round, s.round, s.round, s.round))
    && (s.loop == VarsCopied ==> s.copies == Copies(s.round, s.round, s.round, s.round))
    && (s.loop == IndexCopied ==> s.copies.memory == s.copies.list == s.copies.index == s.round)
    && (s.loop == ListCopied ==> s.copies.memory == s.copies.list == s.round)
    && (s.loop == MemoryCopied ==> s.copies.memory == s.round)
  }

  /** Each thread claims at most one share a round. */
  ghost predicate ClaimsInTurn(c: Setting, s: State)
    requires |s.threads| == c.threads > 0
  {
    && ClaimOrder(s.order, c.threads)
    && (forall t | t in s.order ::
          t in s.counted || s.threads[t] == Sending || s.threads[t] == Arriving || s.threads[t] == Failing)
  }

  /** Once the loop has set it, the cursor is where the claims of this round have taken it. */
  ghost predicate CursorFollows(c: Setting, s: State)
    requires c.threads > 0
  {
    && s.start < c.variables && s.vars <= c.variables
    && (s.loop != Zeroed && s.loop != MemoryCopied && s.loop != ListCopied ==>
          0 < c.variables && s.cursor == Turn(s.start + Claimed(s.vars, c.threads, s.order), c.variables))
  }

  ghost predicate Inv(c: Setting, s: State)
  {
    CountsThreads(c, s) && QuietCopies(c, s) && ClaimsInTurn(c, s) && CursorFollows(c, s)
  }

  function Init(c: Setting): State
  {
    State(Boot, false, 0, seq(c.threads, _ => StartWait), {}, 0, Copies(0, 0, 0, 0), [], 0, 0, 0)
  }

  lemma InitInv(c: Setting)
    requires 0 < c.threads && 0 < c.variables
    ensures Inv(c, Init(c))
  {
  }

  lemma AtMostAll(s: set<nat>, n: nat)
    requires forall t | t in s :: t < n
    ensures |s| <= n && (|s| == n ==> forall t | 0 <= t < n :: t in s)
  {
    if n > 0 {
      var last := n - 1;
      AtMostAll(s - {last}, last);
      if last !in s { assert s - {last} == s; }
    } else {
      assert forall t | t in s :: false;
      assert s == {};
    }
  }

  lemma LoopKeepsCount(c: Setting, s: State, index: nat, vars: nat)
    requires CountsThreads(c, s) && QuietCopies(c, s)
    ensures CountsThreads(c, LoopStep(c, s, index, vars))
  {
  }

  lemma LoopKeepsCopies(c: Setting, s: State, index: nat, vars: nat)
    requires CountsThreads(c, s) && QuietCopies(c, s)
    ensures QuietCopies(c, LoopStep(c, s, index, vars))
  {
    AtMostAll(s.counted, c.threads);
  }

  lemma LoopKeepsClaims(c: Setting, s: State, index: nat, vars: nat)
    requires CountsThreads(c, s) && QuietCopies(c, s) && ClaimsInTurn(c, s)
    ensures ClaimsInTurn(c, LoopStep(c, s, index, vars))
  {
  }

  lemma LoopKeepsCursor(c: Setting, s: State, index: nat, vars: nat)
    requires CountsThreads(c, s) && QuietCopies(c, s) && CursorFollows(c, s) && index < c.variables
      && vars <= c.variables
    ensures CursorFollows(c, LoopStep(c, s, index, vars))
  {
    if s.loop == ListCopied {
      NoMove(s.vars, c.threads, index, c.variables);
    } else if s.loop == IndexCopied {
      NoMove(s.vars, c.threads, s.start, c.variables);
      NoMove(vars, c.threads, s.start, c.variables);
    }
  }

  lemma NoMove(vars: nat, threads: nat, start: nat, n: nat)
    requires start < n && 0 < threads
    ensures Turn(start + Claimed(vars, threads, []), n) == start
  {
    assert Claimed(vars, threads, []) == 0;
  }

  lemma CountInKeepsCount(c: Setting, s: State, t: nat, pc: ThreadPc)
    requires CountsThreads(c, s) && t < c.threads && t !in s.counted && Blocked(pc)
    ensures CountsThreads(c, CountIn(s, t, pc))
  {
  }

  lemma ThreadKeepsCount(c: Setting, s: State, t: nat, fails: bool)
    requires CountsThreads(c, s) && Enabled(c, s, Thread(t, fails)) && 0 < c.variables
    ensures CountsThreads(c, ThreadStep(c, s, t, fails))
  {
    match s.threads[t]
    case Arriving => CountInKeepsCount(c, s, t, Waiting);
    case Failing => CountInKeepsCount(c, s, t, StartWait);
    case _ =>
  }

  lemma ThreadKeepsCopies(c: Setting, s: State, t: nat, fails: bool)
    requires CountsThreads(c, s) && QuietCopies(c, s) && Enabled(c, s, Thread(t, fails)) && 0 < c.variables
    ensures QuietCopies(c, ThreadStep(c, s, t, fails))
  {
  }

  lemma ThreadKeepsClaims(c: Setting, s: State, t: nat, fails: bool)
    requires CountsThreads(c, s) && ClaimsInTurn(c, s) && Enabled(c, s, Thread(t, fails)) && 0 < c.variables
    ensures ClaimsInTurn(c, ThreadStep(c, s, t, fails))
  {
    match s.threads[t]
    case Released => NewClaim(s.order, t, c.threads);
    case Sending =>
    case _ =>
  }

  lemma NewClaim(order: seq<nat>, t: nat, threads: nat)
    requires ClaimOrder(order, threads) && t !in order && t < threads
    ensures ClaimOrder(order + [t], threads)
  {
  }

  lemma ThreadKeepsCursor(c: Setting, s: State, t: nat, fails: bool)
    requires CountsThreads(c, s) && QuietCopies(c, s) && ClaimsInTurn(c, s) && CursorFollows(c, s)
    requires Enabled(c, s, Thread(t, fails))
    ensures CursorFollows(c, ThreadStep(c, s, t, fails))
  {
    if s.threads[t] == Released {
      ReleasedKeepsCursor(c, s, t, fails);
    } else {
      OthersKeepCursor(c, s, t, fails);
    }
  }

  lemma ReleasedKeepsCursor(c: Setting, s: State, t: nat, fails: bool)
    requires 0 < c.threads && 0 < c.variables && t < |s.threads| == c.threads && s.threads[t] == Released
    requires !Copying(s.loop) && ClaimOrder(s.order, c.threads) && t !in s.order && CursorFollows(c, s)
    ensures CursorFollows(c, ThreadStep(c, s, t, fails))
  {
    NewClaim(s.order, t, c.threads);
    ClaimFollows(c, s, t);
    ClaimStep(c, s, t, fails);
  }

  lemma ClaimStep(c: Setting, s: State, t: nat, fails: bool)
    requires 0 < c.threads && 0 < c.variables && t < |s.threads| && s.threads[t] == Released
    ensures var s' := ThreadStep(c, s, t, fails);
      && s'.cursor == Turn(s.cursor + Quota(s.vars, c.threads, t), c.variables) && s'.order == s.order + [t]
      && s'.start == s.start && s'.vars == s.vars && s'.loop == s.loop
  {
  }

  lemma OthersKeepCursor(c: Setting, s: State, t: nat, fails: bool)
    requires 0 < c.threads && 0 < c.variables && t < |s.threads| && s.threads[t] != Released
    ensures var s' := ThreadStep(c, s, t, fails);
      s'.cursor == s.cursor && s'.start == s.start && s'.vars == s.vars && s'.order == s.order && s'.loop == s.loop
  {
  }

  lemma ClaimFollows(c: Setting, s: State, t: nat)
    requires c.threads > 0 && CursorFollows(c, s) && !Copying(s.loop) && ClaimOrder(s.order + [t], c.threads)
    ensures Turn(s.cursor + Quota(s.vars, c.threads, t), c.variables)
         == Turn(s.start + Claimed(s.vars, c.threads, s.order + [t]), c.variables)
  {
    CursorMoves(s.start, s.vars, c.threads, s.order, t, c.variables);
  }

  lemma StepKeeps(c: Setting, s: State, a: Action)
    requires Inv(c, s) && Enabled(c, s, a)
    ensures Inv(c, Next(c, s, a))
  {
    match a
    case Loop(index, vars) =>
      LoopKeepsCount(c, s, index, vars);
      LoopKeepsCopies(c, s, index, vars);
      LoopKeepsClaims(c, s, index, vars);
      LoopKeepsCursor(c, s, index, vars);
    case Thread(t, fails) =>
      ThreadKeepsCount(c, s, t, fails);
      ThreadKeepsCopies(c, s, t, fails);
      ThreadKeepsClaims(c, s, t, fails);
      ThreadKeepsCursor(c, s, t, fails);
  }

  // ----- runs

  ghost predicate GoodSetting(c: Setting) { 0 < c.threads && 0 < c.variables }

  /** Steps that can be taken one after the other. */
  ghost predicate Feasible(c: Setting, s: State, steps: seq<Action>)
    requires GoodSetting(c)
    decreases |steps|
  {
    steps == [] || (Enabled(c, s, steps[0]) && Feasible(c, Next(c, s, steps[0]), steps[1..]))
  }

  ghost function After(c: Setting, s: State, steps: seq<Action>): State
    requires GoodSetting(c) && Feasible(c, s, steps)
    decreases |steps|
  {
    if steps == [] then s else After(c, Next(c, s, steps[0]), steps[1..])
  }

  lemma {:induction false} RunKeeps(c: Setting, s: State, steps: seq<Action>)
    requires GoodSetting(c) && Inv(c, s) && Feasible(c, s, steps)
    ensures Inv(c, After(c, s, steps))
    decreases |steps|
  {
    if steps != [] {
      StepKeeps(c, s, steps[0]);
      RunKeeps(c, Next(c, s, steps[0]), steps[1..]);
    }
  }

  /** In every interleaving: the event is posted only when the counter is zero and every thread is
      blocked; a thread about to count itself has not counted in this round; while the copies are
      written no thread is sending, and whoever sends has all four copies from the same round. */
  lemma {:induction false} BarrierIsSafe(c: Setting, steps: seq<Action>)
    requires GoodSetting(c) && Feasible(c, Init(c), steps)
    ensures var s := After(c, Init(c), steps);
      && |s.threads| == c.threads && s.finished == |s.counted|
      && (Posting(s.loop) ==> s.finished == 0 && forall t | 0 <= t < c.threads :: Blocked(s.threads[t]))
      && (forall t | 0 <= t < c.threads && (s.threads[t] == Arriving || s.threads[t] == Failing) :: t !in s.counted)
      && (forall t | 0 <= t < c.threads && InSendVariables(s.threads[t]) ::
            !Copying(s.loop) && s.copies == Copies(s.round, s.round, s.round, s.round))
  {
    InitInv(c);
    RunKeeps(c, Init(c), steps);
  }

  /** What the thread finds in the list at the shared cursor is the share that its turn gives it. */
  ghost predicate FindsItsShare(c: Setting, s: State, list: seq<nat>, t: nat)
    requires 0 < c.threads && |list| == c.variables && s.start < c.variables
  {
    var quota := Quota(s.vars, c.threads, t);
    && s.cursor < |list| && quota <= |list|
    && Pool.ShareAt(list, s.cursor, quota) == Share(Rotate(list, s.start), s.vars, c.threads, s.order + [t], |s.order|)
  }

  lemma NextFindsItsShare(c: Setting, s: State, list: seq<nat>, t: nat)
    requires Inv(c, s) && GoodSetting(c) && |list| == c.variables && t < c.threads && s.threads[t] == Released
    ensures FindsItsShare(c, s, list, t)
  {
    NewClaim(s.order, t, c.threads);
    Pool.ClaimedShare(list, s.start, s.vars, c.threads, s.order, t);
  }

  lemma RotateDistinct(list: seq<nat>, k: nat)
    requires NoDuplicates(list) && k <= |list|
    ensures NoDuplicates(Rotate(list, k))
  {
  }

  /** In every interleaving: a thread about to claim finds its share at the cursor; the shares claimed in
      a round are disjoint parts of what was dispatched, and once every thread has claimed they are all
      of it. */
  lemma {:induction false} SharesAreExact(c: Setting, steps: seq<Action>, list: seq<nat>)
    requires GoodSetting(c) && Feasible(c, Init(c), steps) && |list| == c.variables && NoDuplicates(list)
    ensures var s := After(c, Init(c), steps);
      && |s.threads| == c.threads && ClaimOrder(s.order, c.threads) && s.vars <= c.variables && s.start < c.variables
      && (forall t | 0 <= t < c.threads && s.threads[t] == Released :: FindsItsShare(c, s, list, t))
      && var ring := Rotate(list, s.start);
         && (forall i, j, v | 0 <= i < j < |s.order| && v in Share(ring, s.vars, c.threads, s.order, i) ::
               v !in Share(ring, s.vars, c.threads, s.order, j))
         && (|s.order| == c.threads ==> Together(ring, s.vars, c.threads, s.order, c.threads) == ring[..s.vars])
  {
    InitInv(c);
    RunKeeps(c, Init(c), steps);
    var s := After(c, Init(c), steps);
    forall t | 0 <= t < c.threads && s.threads[t] == Released ensures FindsItsShare(c, s, list, t) {
      NextFindsItsShare(c, s, list, t);
    }
    var ring := Rotate(list, s.start);
    RotateDistinct(list, s.start);
    forall i, j, v | 0 <= i < j < |s.order| && v in Share(ring, s.vars, c.threads, s.order, i)
      ensures v !in Share(ring, s.vars, c.threads, s.order, j)
    {
      SharesDisjoint(ring, s.vars, c.threads, s.order, i, j, v);
    }
    if |s.order| == c.threads {
      SharesAreTheDispatched(ring, s.vars, c.threads, s.order);
    }
  }

  // ----- what a round dispatches

  /** While the loop copies, nobody else can take a step. */
  lemma OnlyTheLoop(c: Setting, s: State, a: Action)
    requires Inv(c, s) && Enabled(c, s, a) && Copying(s.loop)
    ensures a.Loop?
  {
  }

  /** Once every thread has been counted, the next five steps are the loop's, and they let the threads go with the
      copies of that round: the index and the number of PVs that the loop had when it copied them. */
  lemma RoundDispatches(c: Setting, s: State, steps: seq<Action>)
    requires GoodSetting(c) && Inv(c, s) && s.loop == Zeroed && |steps| == 5 && Feasible(c, s, steps)
    ensures forall i | 0 <= i < 5 :: steps[i].Loop?
    ensures var r := After(c, s, steps);
      && r.loop == Top && r.event && r.finished == 0 && r.order == [] && r.threads == s.threads
      && r.copies == Copies(s.round, s.round, s.round, s.round)
      && r.start == r.cursor == steps[2].index && r.vars == steps[3].vars
  {
    var s1 := OneOfRound(c, s, steps);
    var s2 := OneOfRound(c, s1, steps[1..]);
    var s3 := OneOfRound(c, s2, steps[2..]);
    var s4 := OneOfRound(c, s3, steps[3..]);
    var s5 := OneOfRound(c, s4, steps[4..]);
  }

  lemma OneOfRound(c: Setting, s: State, steps: seq<Action>) returns (r: State)
    requires GoodSetting(c) && Inv(c, s) && Copying(s.loop) && steps != [] && Feasible(c, s, steps)
    ensures steps[0].Loop? && r == LoopStep(c, s, steps[0].index, steps[0].vars) && Inv(c, r)
    ensures Feasible(c, r, steps[1..]) && After(c, s, steps) == After(c, r, steps[1..])
  {
    OnlyTheLoop(c, s, steps[0]);
    StepKeeps(c, s, steps[0]);
    r := Next(c, s, steps[0]);
  }

  /** A copy is of the present round exactly if the loop has written it since it last set the counter to zero. */
  ghost predicate Dated(s: State)
  {
    && s.copies.memory <= s.round && s.copies.list <= s.round && s.copies.index <= s.round && s.copies.vars <= s.round
    && (s.copies.memory == s.round <==> s.loop != Zeroed)
    && (s.copies.list == s.round <==> s.loop != Zeroed && s.loop != MemoryCopied)
    && (s.copies.index == s.round <==> s.loop != Zeroed && s.loop != MemoryCopied && s.loop != ListCopied)
    && (s.copies.vars == s.round <==> !Copying(s.loop) || s.loop == VarsCopied)
  }

  lemma StepKeepsDates(c: Setting, s: State, a: Action)
    requires GoodSetting(c) && Inv(c, s) && Dated(s) && Enabled(c, s, a)
    ensures Dated(Next(c, s, a))
  {
  }

  lemma {:induction false} RunKeepsDates(c: Setting, s: State, steps: seq<Action>)
    requires GoodSetting(c) && Inv(c, s) && Dated(s) && Feasible(c, s, steps)
    ensures Dated(After(c, s, steps))
    decreases |steps|
  {
    if steps != [] {
      StepKeeps(c, s, steps[0]);
      StepKeepsDates(c, s, steps[0]);
      RunKeepsDates(c, Next(c, s, steps[0]), steps[1..]);
    }
  }

  /** In every interleaving: so no thread ever sends what an earlier round copied. */
  lemma {:induction false} CopiesAreDated(c: Setting, steps: seq<Action>)
    requires GoodSetting(c) && Feasible(c, Init(c), steps)
    ensures Dated(After(c, Init(c), steps))
  {
    InitInv(c);
    RunKeepsDates(c, Init(c), steps);
  }
}
