/** That put notifies never block for good: whatever the request task, the database and the event task have done,
    they can still answer every request, and a request that arrives can be answered like those before. */
module PutProgress {
  import opened PutNotify
  import opened Queues

  /** A busy notify that is not queued is with the database, or in the hands of the request task. */
  ghost predicate Backed(s: State)
  {
    forall ch | 0 <= ch < |s.notifies| && s.notifies[ch].busy && !s.notifies[ch].marked ::
      s.notifies[ch].running || s.request == Processing(ch) || s.request == Rechecking(ch)
  }

  lemma StepKeepsBacked(s: State, a: Action)
    requires Inv(s) && Enabled(s, a) && Backed(s)
    ensures Backed(Next(s, a))
  {
  }

  /** In every interleaving. */
  lemma {:induction false} RunKeepsBacked(s: State, steps: seq<Action>)
    requires Inv(s) && Feasible(s, steps) && Backed(s)
    ensures Backed(After(s, steps))
    decreases |steps|
  {
    if steps != [] {
      StepKeeps(s, steps[0]);
      StepKeepsBacked(s, steps[0]);
      RunKeepsBacked(Next(s, steps[0]), steps[1..]);
    }
  }

  // ----- to an end

  /** Everything accepted is answered, and nobody has anything to do. */
  ghost predicate Settled(s: State)
  {
    && s.request == Idle && s.event == Resting && s.queue == [] && s.accepted == |s.answered|
    && forall ch | 0 <= ch < |s.notifies| :: !s.notifies[ch].busy
  }

  /** The request task has a request in hand that it has not accepted yet. */
  predicate InHand(pc: RequestPc) { !pc.Idle? && !pc.Processing? }

  /** How many steps the request task is from the end of its request when no notify is busy but one in its hands. */
  function Far(pc: RequestPc): nat
  {
    match pc
    case Idle => 0
    case Processing(_) => 1
    case Starting(_) => 2
    case Checking(_) => 3
    case Waiting(_) => 4
    case Refusing(_, _) => 4
    case Rechecking(_) => 5
    case Cancelling(_) => 6
    case TimedOut(_) => 7
  }

  function Running(ns: seq<Notify>): (r: set<nat>)
    ensures forall ch :: ch in r <==> 0 <= ch < |ns| && ns[ch].running
    ensures |r| <= |ns|
  {
    var r := set ch: nat | ch < |ns| && ns[ch].running;
    Within(r, |ns|);
    r
  }

  lemma Within(r: set<nat>, n: nat)
    requires forall ch | ch in r :: ch < n
    ensures |r| <= n
  {
    if n > 0 {
      Within(r - {n - 1}, n - 1);
      if n - 1 !in r { assert r - {n - 1} == r; }
    } else {
      assert r == {};
    }
  }

  /** What to do next: answer, then complete, then go on with the request. */
  ghost predicate Chosen(s: State, a: Action)
  {
    if s.event.Replying? || s.queue != [] then a == EventTask
    else if Running(s.notifies) != {} then a.Complete? && a.ch in Running(s.notifies)
    else a == RequestTask(false) && s.request != Idle
  }

  lemma SomeChoice(s: State) returns (a: Action)
    requires Inv(s) && Backed(s) && !Settled(s)
    ensures Chosen(s, a) && Enabled(s, a)
  {
    if s.event.Replying? || s.queue != [] {
      a := EventTask;
    } else if Running(s.notifies) != {} {
      var ch :| ch in Running(s.notifies);
      a := Complete(ch);
    } else {
      a := RequestTask(false);
      if s.request == Idle { NothingLeft(s); }
    }
  }

  lemma NothingLeft(s: State)
    requires Inv(s) && Backed(s) && s.event == Resting && s.queue == [] && s.request == Idle
    requires Running(s.notifies) == {}
    ensures Settled(s)
  {
    forall ch | 0 <= ch < |s.notifies| ensures !s.notifies[ch].busy {
      assert ch !in Running(s.notifies) && ch !in s.queue;
    }
    NoneBusy(s.notifies);
  }

  predicate Closer(s: State, s': State)
  {
    if Far(s'.request) != Far(s.request) then Far(s'.request) < Far(s.request)
    else if |Running(s'.notifies)| != |Running(s.notifies)| then |Running(s'.notifies)| < |Running(s.notifies)|
    else if |s'.queue| != |s.queue| then |s'.queue| < |s.queue|
    else s.event.Replying? && s'.event.Resting?
  }

  ghost predicate Onward(s: State, s': State)
  {
    Inv(s') && Backed(s') && Closer(s, s') && SameAccount(s, s')
  }

  /** A request in hand counts before and after it is accepted. */
  predicate SameAccount(s: State, s': State)
  {
    s'.accepted + (if InHand(s'.request) then 1 else 0) == s.accepted + if InHand(s.request) then 1 else 0
  }

  lemma EventOnward(s: State)
    requires Inv(s) && Backed(s) && (s.event.Replying? || s.queue != [])
    ensures Onward(s, Next(s, EventTask))
  {
    StepKeeps(s, EventTask);
    StepKeepsBacked(s, EventTask);
    assert Running(Next(s, EventTask).notifies) == Running(s.notifies);
  }

  lemma CompleteOnward(s: State, ch: nat)
    requires Inv(s) && Backed(s) && ch in Running(s.notifies)
    ensures Onward(s, Next(s, Complete(ch)))
  {
    StepKeeps(s, Complete(ch));
    StepKeepsBacked(s, Complete(ch));
    assert Running(Next(s, Complete(ch)).notifies) == Running(s.notifies) - {ch};
  }

  lemma RequestOnward(s: State)
    requires Inv(s) && Backed(s) && s.request != Idle && s.queue == [] && Running(s.notifies) == {}
    ensures Onward(s, Next(s, RequestTask(false)))
  {
    StepKeeps(s, RequestTask(false));
    StepKeepsBacked(s, RequestTask(false));
    var ch := s.request.ch;
    assert ch !in Running(s.notifies) && ch !in s.queue;
  }

  lemma ChoiceOnward(s: State, a: Action)
    requires Inv(s) && Backed(s) && Chosen(s, a) && Enabled(s, a)
    ensures Onward(s, Next(s, a))
  {
    match a
    case EventTask => EventOnward(s);
    case Complete(ch) => CompleteOnward(s, ch);
    case RequestTask(_) => RequestOnward(s);
    case Arrive(_) => assert false;
  }

  lemma GoesOn(s: State, a: Action, steps: seq<Action>)
    requires Inv(s) && Enabled(s, a) && Inv(Next(s, a)) && Feasible(Next(s, a), steps)
    ensures Feasible(s, [a] + steps) && After(s, [a] + steps) == After(Next(s, a), steps)
  {
    assert ([a] + steps)[1..] == steps;
  }

  /** Nothing new arrives, and no wait times out. */
  predicate Quiet(steps: seq<Action>)
  {
    forall i | 0 <= i < |steps| :: !steps[i].Arrive? && steps[i] != RequestTask(true)
  }

  /** These steps lead to an end at which all requests are answered, those accepted before and the one the request
      task has in hand. */
  ghost predicate AnswersAll(s: State, steps: seq<Action>)
    requires Inv(s)
  {
    && Feasible(s, steps) && Settled(After(s, steps))
    && After(s, steps).accepted == s.accepted + if InHand(s.request) then 1 else 0
  }

  lemma AnswersFirst(s: State, a: Action, steps: seq<Action>)
    requires Inv(s) && Enabled(s, a) && Inv(Next(s, a)) && AnswersAll(Next(s, a), steps)
    requires SameAccount(s, Next(s, a))
    ensures AnswersAll(s, [a] + steps)
  {
    GoesOn(s, a, steps);
  }

  lemma GoOn(s: State) returns (a: Action)
    requires Inv(s) && Backed(s) && !Settled(s)
    ensures Enabled(s, a) && Onward(s, Next(s, a)) && Quiet([a])
  {
    a := SomeChoice(s);
    ChoiceOnward(s, a);
  }

  /** From every state there are such steps. */
  lemma {:induction false} CanAnswerAll(s: State) returns (steps: seq<Action>)
    requires Inv(s) && Backed(s)
    ensures AnswersAll(s, steps) && Quiet(steps)
    decreases Far(s.request), |Running(s.notifies)|, |s.queue|, if s.event.Replying? then 1 else 0
  {
    if Settled(s) {
      steps := [];
    } else {
      var a := GoOn(s);
      var later := CanAnswerAll(Next(s, a));
      AnswersFirst(s, a, later);
      QuietFirst(a, later);
      steps := [a] + later;
    }
  }

  lemma QuietFirst(a: Action, steps: seq<Action>)
    requires Quiet([a]) && Quiet(steps)
    ensures Quiet([a] + steps)
  {
    assert [a][0] == a;
  }

  /** So it is at every point of every interleaving, and then one more request can arrive on any channel and be
      answered too. */
  lemma {:induction false} NeverBlocked(channels: nat, steps: seq<Action>, ch: nat) returns (more: seq<Action>,
                                                                                            one: seq<Action>)
    requires (InitInv(channels); Feasible(Init(channels), steps)) && ch < channels
    ensures Inv(Init(channels))
    ensures var s := After(Init(channels), steps);
      && AnswersAll(s, more) && Quiet(more)
      && Feasible(After(s, more), one) && one != [] && one[0] == Arrive(ch) && Quiet(one[1..])
      && var r := After(After(s, more), one);
        Settled(r) && r.accepted == After(s, more).accepted + 1
  {
    InitInv(channels);
    RunKeepsBacked(Init(channels), steps);
    var s := After(Init(channels), steps);
    more := CanAnswerAll(s);
    RunKeepsBacked(s, more);
    var t := After(s, more);
    SameChannels(Init(channels), steps);
    SameChannels(s, more);
    StepKeeps(t, Arrive(ch));
    StepKeepsBacked(t, Arrive(ch));
    var later := CanAnswerAll(Next(t, Arrive(ch)));
    GoesOn(t, Arrive(ch), later);
    one := [Arrive(ch)] + later;
  }

  lemma {:induction false} SameChannels(s: State, steps: seq<Action>)
    requires Inv(s) && Feasible(s, steps)
    ensures |After(s, steps).notifies| == |s.notifies|
    decreases |steps|
  {
    if steps != [] {
      StepKeeps(s, steps[0]);
      SameChannels(Next(s, steps[0]), steps[1..]);
    }
  }
}
