/** Put notifies in the server: the task that takes requests, the database that completes them, and the
    event task that answers them, step by step. Every interleaving is a run. */
module PutNotify {
  import opened Queues

  /** The notify block of a channel. `marked` is the flag that it is on the extra labor queue, `running`
      whether the database may still call back, `msg` which accepted request it holds. */
  datatype Notify = Notify(busy: bool, marked: bool, running: bool, msg: nat)

  /** Where the request task is, with the channel it works on. */
  datatype RequestPc =
    | Idle
    | Checking(ch: nat)
    | Waiting(ch: nat)
    | TimedOut(ch: nat)
    | Cancelling(ch: nat)
    | Rechecking(ch: nat)
    | Refusing(ch: nat, id: nat)
    | Starting(ch: nat)
    | Processing(ch: nat)

  datatype EventPc = Resting | Replying(id: nat)

  /** Accepted requests are numbered; `answered` are the numbers in the order of the replies. `doubled`
      says that the database was found calling back twice. */
  datatype State = State(notifies: seq<Notify>, queue: seq<nat>, request: RequestPc, event: EventPc,
                         accepted: nat, answered: seq<nat>, doubled: bool)

  datatype Action = Arrive(ch: nat) | RequestTask(timeout: bool) | Complete(ch: nat) | EventTask

  ghost predicate Enabled(s: State, a: Action)
  {
    match a
    case Arrive(ch) => s.request == Idle && ch < |s.notifies|
    case RequestTask(_) => s.request != Idle
    case Complete(ch) => ch < |s.notifies| && s.notifies[ch].running
    case EventTask => true
  }

  function Set(s: State, ch: nat, n: Notify): State
    requires ch < |s.notifies|
  {
    s.(notifies := s.notifies[ch := n])
  }

  /** The request task: it waits while the channel's notify is busy; when that takes too long it cancels
      the notify and, if that was in time, answers the old request itself. */
  function RequestStep(s: State, timeout: bool): State
    requires s.request != Idle && s.request.ch < |s.notifies|
  {
    var ch := s.request.ch;
    var n := s.notifies[ch];
    match s.request
    case Checking(_) => s.(request := if n.busy then Waiting(ch) else Starting(ch))
    case Waiting(_) => s.(request := if timeout then TimedOut(ch) else Checking(ch))
    case TimedOut(_) => s.(request := if n.busy then Cancelling(ch) else Rechecking(ch))
    case Cancelling(_) => Set(s, ch, n.(running := false)).(request := Rechecking(ch))
    case Rechecking(_) =>
      if n.busy then
        Set(s, ch, n.(busy := false)).(queue := if n.marked then Remove(s.queue, ch) else s.queue,
          request := Refusing(ch, n.msg))
      else s.(request := Checking(ch))
    case Refusing(_, id) => s.(answered := s.answered + [id], request := Checking(ch))
    case Starting(_) => Set(s, ch, Notify(true, false, n.running, s.accepted)).(accepted := s.accepted + 1,
      request := Processing(ch))
    case Processing(_) => Set(s, ch, n.(running := true)).(request := Idle)
  }

  /** The database is done: the notify goes to the event task, unless that was done already. */
  function Completed(s: State, ch: nat): State
    requires ch < |s.notifies|
  {
    var n := s.notifies[ch].(running := false);
    if !n.busy || n.marked then Set(s, ch, n).(doubled := true)
    else Set(s, ch, n.(marked := true)).(queue := s.queue + [ch])
  }

  /** The event task takes a notify off the queue, and then replies. */
  function EventStep(s: State): State
    requires forall i | 0 <= i < |s.queue| :: s.queue[i] < |s.notifies|
  {
    match s.event
    case Replying(id) => s.(answered := s.answered + [id], event := Resting)
    case Resting =>
      if s.queue == [] then s
      else
        var n := s.notifies[s.queue[0]];
        Set(s, s.queue[0], n.(marked := false, busy := false)).(queue := s.queue[1..], event := Replying(n.msg))
  }

  ghost predicate Shaped(s: State)
  {
    (forall i | 0 <= i < |s.queue| :: s.queue[i] < |s.notifies|) && (s.request != Idle ==> s.request.ch < |s.notifies|)
  }

  function Next(s: State, a: Action): State
    requires Shaped(s) && Enabled(s, a)
  {
    match a
    case Arrive(ch) => s.(request := Checking(ch))
    case RequestTask(timeout) => RequestStep(s, timeout)
    case Complete(ch) => Completed(s, ch)
    case EventTask => EventStep(s)
  }

  // ----- what every step keeps

  /** The queue holds exactly the notifies that are busy and marked; the database calls back only for
      busy ones that are not. */
  ghost predicate Queued(s: State)
  {
    && Shaped(s) && NoDuplicates(s.queue)
    && (forall ch | 0 <= ch < |s.notifies| :: ch in s.queue <==> s.notifies[ch].busy && s.notifies[ch].marked)
    && (forall ch | 0 <= ch < |s.notifies| && s.notifies[ch].running :: s.notifies[ch].busy && !s.notifies[ch].marked)
    && !s.doubled
  }

  /** What the request task may rely on where it is. */
  ghost predicate AtWork(s: State)
    requires Shaped(s)
  {
    match s.request
    case Rechecking(ch) => !s.notifies[ch].running
    case Starting(ch) => !s.notifies[ch].busy
    case Processing(ch) => s.notifies[ch].busy && !s.notifies[ch].marked && !s.notifies[ch].running
    case Refusing(ch, _) => !s.notifies[ch].busy
    case _ => true
  }

  lemma RequestKeepsQueue(s: State, timeout: bool)
    requires Queued(s) && AtWork(s) && s.request != Idle
    ensures Queued(RequestStep(s, timeout)) && AtWork(RequestStep(s, timeout))
  {
    Removed(s.queue, s.request.ch);
  }

  lemma CompleteKeepsQueue(s: State, ch: nat)
    requires Queued(s) && AtWork(s) && ch < |s.notifies| && s.notifies[ch].running
    ensures Queued(Completed(s, ch)) && AtWork(Completed(s, ch))
  {
  }

  lemma EventKeepsQueue(s: State)
    requires Queued(s) && AtWork(s)
    ensures Queued(EventStep(s)) && AtWork(EventStep(s))
  {
    if s.event == Resting && s.queue != [] {
      assert s.queue == [s.queue[0]] + s.queue[1..];
      assert s.queue[0] !in s.queue[1..];
    }
  }

  // ----- every request is answered once

  ghost predicate Holds(s: State, id: nat)
  {
    exists ch :: 0 <= ch < |s.notifies| && s.notifies[ch].busy && s.notifies[ch].msg == id
  }

  /** A reply to the request is about to be sent. */
  ghost predicate InFlight(s: State, id: nat)
  {
    (s.request.Refusing? && s.request.id == id) || (s.event.Replying? && s.event.id == id)
  }

  /** No request is answered twice, none that was answered is still held, and no two are confused. */
  ghost predicate AnsweredOnce(s: State)
  {
    && NoDuplicates(s.answered) && (forall i | 0 <= i < |s.answered| :: s.answered[i] < s.accepted)
    && (forall ch | 0 <= ch < |s.notifies| && s.notifies[ch].busy ::
          && s.notifies[ch].msg < s.accepted && s.notifies[ch].msg !in s.answered && !InFlight(s, s.notifies[ch].msg))
    && (forall c, d | 0 <= c < d < |s.notifies| && s.notifies[c].busy && s.notifies[d].busy ::
          s.notifies[c].msg != s.notifies[d].msg)
    && (s.request.Refusing? ==> s.request.id < s.accepted && s.request.id !in s.answered)
    && (s.event.Replying? ==> s.event.id < s.accepted && s.event.id !in s.answered)
    && (s.request.Refusing? && s.event.Replying? ==> s.request.id != s.event.id)
  }

  /** None is forgotten. */
  ghost predicate NoneLost(s: State)
  {
    forall id | 0 <= id < s.accepted :: id in s.answered || Holds(s, id) || InFlight(s, id)
  }

  function Busy(ns: seq<Notify>): nat
  {
    if ns == [] then 0 else Busy(ns[..|ns| - 1]) + if ns[|ns| - 1].busy then 1 else 0
  }

  lemma BusyChanges(ns: seq<Notify>, ch: nat, n: Notify)
    requires ch < |ns|
    ensures Busy(ns[ch := n]) == Busy(ns) + (if n.busy then 1 else 0) - if ns[ch].busy then 1 else 0
    decreases |ns|
  {
    var front := ns[..|ns| - 1];
    if ch < |front| {
      BusyChanges(front, ch, n);
      assert ns[ch := n][..|ns| - 1] == front[ch := n];
    } else {
      assert ns[ch := n][..|ns| - 1] == front;
    }
  }

  /** The requests accepted are those answered, those whose notify is busy, and those whose reply is
      about to be sent. */
  ghost predicate Conserved(s: State)
  {
    s.accepted == |s.answered| + Busy(s.notifies) + (if s.request.Refusing? then 1 else 0)
      + if s.event.Replying? then 1 else 0
  }

  lemma RequestAnswers(s: State, timeout: bool)
    requires Queued(s) && AtWork(s) && s.request != Idle && AnsweredOnce(s)
    ensures AnsweredOnce(RequestStep(s, timeout))
  {
  }

  lemma RequestLosesNone(s: State, timeout: bool)
    requires Queued(s) && AtWork(s) && s.request != Idle && NoneLost(s)
    ensures NoneLost(RequestStep(s, timeout))
  {
    var s', ch := RequestStep(s, timeout), s.request.ch;
    assert s.request.Refusing? ==> s'.answered[|s.answered|] == s.request.id;
    assert forall i | 0 <= i < |s.answered| :: s'.answered[i] == s.answered[i];
    forall id | 0 <= id < s'.accepted ensures id in s'.answered || Holds(s', id) || InFlight(s', id) {
      if id == s.accepted {
        assert s'.notifies[ch].busy && s'.notifies[ch].msg == id;
      } else if Holds(s, id) {
        var k :| 0 <= k < |s.notifies| && s.notifies[k].busy && s.notifies[k].msg == id;
        assert (s'.notifies[k].busy && s'.notifies[k].msg == id) || s'.request == Refusing(ch, id);
      }
    }
  }

  lemma RequestConserves(s: State, timeout: bool)
    requires Queued(s) && AtWork(s) && s.request != Idle && Conserved(s)
    ensures Conserved(RequestStep(s, timeout))
  {
    var s', ch := RequestStep(s, timeout), s.request.ch;
    assert s'.notifies == s.notifies[ch := s'.notifies[ch]];
    BusyChanges(s.notifies, ch, s'.notifies[ch]);
  }

  lemma CompleteAnswers(s: State, ch: nat)
    requires Queued(s) && AnsweredOnce(s) && NoneLost(s) && Conserved(s) && ch < |s.notifies| && s.notifies[ch].running
    ensures AnsweredOnce(Completed(s, ch)) && NoneLost(Completed(s, ch)) && Conserved(Completed(s, ch))
  {
    var s' := Completed(s, ch);
    BusyChanges(s.notifies, ch, s'.notifies[ch]);
    forall id | 0 <= id < s'.accepted ensures id in s'.answered || Holds(s', id) || InFlight(s', id) {
      if Holds(s, id) {
        var k :| 0 <= k < |s.notifies| && s.notifies[k].busy && s.notifies[k].msg == id;
        assert s'.notifies[k].busy && s'.notifies[k].msg == id;
      }
    }
  }

  lemma EventAnswers(s: State)
    requires Queued(s) && AnsweredOnce(s)
    ensures AnsweredOnce(EventStep(s))
  {
    if s.event == Resting && s.queue != [] {
      assert s.queue[0] in s.queue;
    }
  }

  lemma EventLosesNone(s: State)
    requires Queued(s) && NoneLost(s)
    ensures NoneLost(EventStep(s))
  {
    var s' := EventStep(s);
    assert s.event.Replying? ==> s'.answered[|s.answered|] == s.event.id;
    assert forall i | 0 <= i < |s.answered| :: s'.answered[i] == s.answered[i];
    forall id | 0 <= id < s'.accepted ensures id in s'.answered || Holds(s', id) || InFlight(s', id) {
      if Holds(s, id) {
        var k :| 0 <= k < |s.notifies| && s.notifies[k].busy && s.notifies[k].msg == id;
        assert s'.notifies[k] == s.notifies[k] || s'.event == Replying(id);
      }
    }
  }

  lemma EventConserves(s: State)
    requires Queued(s) && Conserved(s)
    ensures Conserved(EventStep(s))
  {
    if s.event == Resting && s.queue != [] {
      assert s.queue[0] in s.queue;
      BusyChanges(s.notifies, s.queue[0], EventStep(s).notifies[s.queue[0]]);
    }
  }

  // ----- runs

  ghost predicate Inv(s: State)
  {
    Queued(s) && AtWork(s) && AnsweredOnce(s) && NoneLost(s) && Conserved(s)
  }

  lemma StepKeeps(s: State, a: Action)
    requires Inv(s) && Enabled(s, a)
    ensures Inv(Next(s, a))
  {
    match a
    case Arrive(ch) =>
    case RequestTask(timeout) =>
      RequestKeepsQueue(s, timeout);
      RequestAnswers(s, timeout);
      RequestLosesNone(s, timeout);
      RequestConserves(s, timeout);
    case Complete(ch) =>
      CompleteKeepsQueue(s, ch);
      CompleteAnswers(s, ch);
    case EventTask =>
      EventKeepsQueue(s);
      EventAnswers(s);
      EventLosesNone(s);
      EventConserves(s);
  }

  function Init(channels: nat): State
  {
    State(seq(channels, _ => Notify(false, false, false, 0)), [], Idle, Resting, 0, [], false)
  }

  lemma {:induction false} NoneBusy(ns: seq<Notify>)
    requires forall i | 0 <= i < |ns| :: !ns[i].busy
    ensures Busy(ns) == 0
  {
    if ns != [] { NoneBusy(ns[..|ns| - 1]); }
  }

  ghost predicate Feasible(s: State, steps: seq<Action>)
    requires Inv(s)
    decreases |steps|
  {
    steps == [] || (Enabled(s, steps[0]) && (StepKeeps(s, steps[0]); Feasible(Next(s, steps[0]), steps[1..])))
  }

  ghost function After(s: State, steps: seq<Action>): (r: State)
    requires Inv(s) && Feasible(s, steps)
    ensures Inv(r)
    decreases |steps|
  {
    if steps == [] then s else (StepKeeps(s, steps[0]); After(Next(s, steps[0]), steps[1..]))
  }

  /** In every interleaving: a queued notify is busy and marked, the database is never found calling
      back twice, no request is answered twice, every accepted request is answered, still held by a busy
      notify, or about to be answered, and the numbers add up. */
  lemma {:induction false} EveryRequestAnsweredOnce(channels: nat, steps: seq<Action>)
    requires (InitInv(channels); Feasible(Init(channels), steps))
    ensures Inv(Init(channels))
    ensures var s := After(Init(channels), steps);
      && (forall ch | 0 <= ch < |s.notifies| :: ch in s.queue <==> s.notifies[ch].busy && s.notifies[ch].marked)
      && !s.doubled && NoDuplicates(s.answered)
      && (forall id | 0 <= id < s.accepted ::
            (id in s.answered || Holds(s, id) || InFlight(s, id))
              && !(id in s.answered && (Holds(s, id) || InFlight(s, id))))
      && (s.event == Resting && !s.request.Refusing? ==> s.accepted - |s.answered| == Busy(s.notifies))
  {
    InitInv(channels);
    var s := After(Init(channels), steps);
    assert NoneLost(s) && AnsweredOnce(s);
  }

  lemma InitInv(channels: nat)
    ensures Inv(Init(channels))
  {
    NoneBusy(Init(channels).notifies);
  }

  // ----- when a request is refused

  /** The request task is not about to take a notify back. */
  predicate Calm(s: State)
  {
    s.request.Idle? || s.request.Checking? || s.request.Waiting? || s.request.Starting? || s.request.Processing?
  }

  /** A wait of the request task ends without the notify having been freed. */
  predicate TimesOut(s: State, a: Action)
  {
    a == RequestTask(true) && s.request.Waiting?
  }

  ghost predicate SomeTimeout(s: State, steps: seq<Action>)
    requires Inv(s) && Feasible(s, steps)
    decreases |steps|
  {
    steps != [] && (TimesOut(s, steps[0]) || (StepKeeps(s, steps[0]); SomeTimeout(Next(s, steps[0]), steps[1..])))
  }

  /** At some point of the run the request task has taken back a notify and is about to refuse its request. */
  ghost predicate SomeRefusal(s: State, steps: seq<Action>)
    requires Inv(s) && Feasible(s, steps)
    decreases |steps|
  {
    s.request.Refusing? || (steps != [] && (StepKeeps(s, steps[0]); SomeRefusal(Next(s, steps[0]), steps[1..])))
  }

  lemma CalmStays(s: State, a: Action)
    requires Inv(s) && Enabled(s, a) && Calm(s) && !TimesOut(s, a)
    ensures Calm(Next(s, a))
  {
  }

  lemma {:induction false} RefusedAfterTimeout(s: State, steps: seq<Action>)
    requires Inv(s) && Feasible(s, steps) && Calm(s) && SomeRefusal(s, steps)
    ensures SomeTimeout(s, steps)
    decreases |steps|
  {
    if !TimesOut(s, steps[0]) {
      StepKeeps(s, steps[0]);
      CalmStays(s, steps[0]);
      RefusedAfterTimeout(Next(s, steps[0]), steps[1..]);
    }
  }

  /** A request for a busy channel waits for it: in every interleaving no request is refused unless such a wait
      timed out. */
  lemma NoneRefusedWithoutTimeout(channels: nat, steps: seq<Action>)
    requires (InitInv(channels); Feasible(Init(channels), steps))
    ensures Inv(Init(channels)) && (SomeRefusal(Init(channels), steps) ==> SomeTimeout(Init(channels), steps))
  {
    InitInv(channels);
    if SomeRefusal(Init(channels), steps) { RefusedAfterTimeout(Init(channels), steps); }
  }

  /** The request task's steps, the first with a timeout. */
  function Tries(timeout: bool, n: nat): (steps: seq<Action>)
    ensures |steps| == n
  {
    if n == 0 then [] else [RequestTask(timeout)] + Tries(false, n - 1)
  }

  lemma TriesOnce(s: State, timeout: bool, n: nat)
    requires Inv(s) && s.request != Idle
    ensures Inv(Next(s, RequestTask(timeout)))
    ensures var s', steps := Next(s, RequestTask(timeout)), Tries(timeout, n + 1);
      && (Feasible(s, steps) <==> Feasible(s', Tries(false, n)))
      && (Feasible(s, steps) ==> After(s, steps) == After(s', Tries(false, n)))
      && (Feasible(s, steps) && SomeRefusal(s', Tries(false, n)) ==> SomeRefusal(s, steps))
  {
    StepKeeps(s, RequestTask(timeout));
    assert Tries(timeout, n + 1)[1..] == Tries(false, n);
  }

  /** The notify is taken back, if it is still busy, and its request is about to be refused. */
  lemma TakesBack(s: State, ch: nat)
    requires Inv(s) && s.request == Cancelling(ch) && s.notifies[ch].busy
    ensures var s1 := Next(s, RequestTask(false));
      && Inv(s1) && s1.request == Rechecking(ch)
      && var r := Next(s1, RequestTask(false));
        && Inv(r) && r.request == Refusing(ch, s.notifies[ch].msg) && r.answered == s.answered
        && |r.notifies| == |s.notifies| && !r.notifies[ch].busy && ch !in r.queue && r.accepted == s.accepted
  {
    StepKeeps(s, RequestTask(false));
    var s1 := Next(s, RequestTask(false));
    StepKeeps(s1, RequestTask(false));
  }

  /** And when one does while the channel stays busy, the request that held it is answered by the request task,
      the notify is free and off the queue, and the new request goes on. */
  lemma TimeoutRefusesTheOld(s: State, ch: nat)
    requires Inv(s) && s.request == Waiting(ch) && s.notifies[ch].busy
    ensures Feasible(s, Tries(true, 5)) && SomeRefusal(s, Tries(true, 5))
    ensures var r := After(s, Tries(true, 5));
      && r.request == Checking(ch) && r.answered == s.answered + [s.notifies[ch].msg]
      && ch < |r.notifies| && !r.notifies[ch].busy && ch !in r.queue && r.accepted == s.accepted
  {
    var a := RequestTask(false);
    TriesOnce(s, true, 4);
    var s1 := Next(s, RequestTask(true));
    TriesOnce(s1, false, 3);
    var s2 := Next(s1, a);
    TakesBack(s2, ch);
    RefusesThen(s2, ch);
  }

  lemma RefusesThen(s: State, ch: nat)
    requires Inv(s) && s.request == Cancelling(ch) && s.notifies[ch].busy
    ensures Feasible(s, Tries(false, 3)) && SomeRefusal(s, Tries(false, 3))
    ensures var r := After(s, Tries(false, 3));
      && r.request == Checking(ch) && r.answered == s.answered + [s.notifies[ch].msg]
      && ch < |r.notifies| && !r.notifies[ch].busy && ch !in r.queue && r.accepted == s.accepted
  {
    TakesBack(s, ch);
    var s1 := Next(s, RequestTask(false));
    var s2 := Next(s1, RequestTask(false));
    TriesOnce(s, false, 2);
    TriesOnce(s1, false, 1);
    TriesOnce(s2, false, 0);
  }

  // ----- in which order requests are answered

  /** The requests whose notifies are on the queue. */
  function Queue(s: State): (ids: seq<nat>)
    requires Shaped(s)
    ensures |ids| == |s.queue| && forall i | 0 <= i < |ids| :: ids[i] == s.notifies[s.queue[i]].msg
  {
    seq(|s.queue|, i requires 0 <= i < |s.queue| => s.notifies[s.queue[i]].msg)
  }

  /** Those answered, then the one about to be, then those that wait for the event task. */
  function InOrder(s: State): seq<nat>
    requires Shaped(s)
  {
    s.answered + (if s.event.Replying? then [s.event.id] else []) + Queue(s)
  }

  /** The requests that the database completes in the run, in that order. */
  ghost function Completions(s: State, steps: seq<Action>): seq<nat>
    requires Inv(s) && Feasible(s, steps)
    decreases |steps|
  {
    if steps == [] then []
    else
      StepKeeps(s, steps[0]);
      (if steps[0].Complete? then [s.notifies[steps[0].ch].msg] else []) + Completions(Next(s, steps[0]), steps[1..])
  }

  /** Nothing waits, or is answered, in another order than before. */
  lemma SameOrder(s: State, s': State)
    requires Shaped(s) && Shaped(s') && s'.queue == s.queue && s'.answered == s.answered && s'.event == s.event
    requires forall i | 0 <= i < |s.queue| :: s'.notifies[s.queue[i]].msg == s.notifies[s.queue[i]].msg
    ensures InOrder(s') == InOrder(s)
  {
    assert Queue(s') == Queue(s);
  }

  lemma RequestInOrder(s: State, timeout: bool)
    requires Queued(s) && AtWork(s) && s.request != Idle && Calm(s) && !(timeout && s.request.Waiting?)
    ensures Shaped(RequestStep(s, timeout)) && InOrder(RequestStep(s, timeout)) == InOrder(s)
  {
    forall i | 0 <= i < |s.queue| ensures s.notifies[s.queue[i]].busy && s.notifies[s.queue[i]].marked {
      assert s.queue[i] in s.queue;
    }
    SameOrder(s, RequestStep(s, timeout));
  }

  lemma CompleteInOrder(s: State, ch: nat)
    requires Queued(s) && ch < |s.notifies| && s.notifies[ch].running
    ensures Shaped(Completed(s, ch)) && InOrder(Completed(s, ch)) == InOrder(s) + [s.notifies[ch].msg]
  {
    var s' := Completed(s, ch);
    assert Queue(s') == Queue(s) + [s.notifies[ch].msg];
    Joins(s.answered + (if s.event.Replying? then [s.event.id] else []), Queue(s), [s.notifies[ch].msg]);
  }

  lemma Joins(a: seq<nat>, b: seq<nat>, c: seq<nat>)
    ensures a + b + c == a + (b + c)
  {
  }

  lemma FirstTaken(s: State)
    requires Queued(s) && s.event == Resting && s.queue != []
    ensures Shaped(EventStep(s)) && Queue(s) == [s.notifies[s.queue[0]].msg] + Queue(EventStep(s))
  {
    var s' := EventStep(s);
    forall i | 0 <= i < |s.queue| ensures s'.notifies[s.queue[i]].msg == s.notifies[s.queue[i]].msg {}
  }

  lemma EventInOrder(s: State)
    requires Queued(s)
    ensures Shaped(EventStep(s)) && InOrder(EventStep(s)) == InOrder(s)
  {
    if s.event.Replying? {
      assert Queue(EventStep(s)) == Queue(s);
    } else if s.queue != [] {
      FirstTaken(s);
      Joins(s.answered, [s.notifies[s.queue[0]].msg], Queue(EventStep(s)));
    }
  }

  lemma StepInOrder(s: State, a: Action)
    requires Inv(s) && Enabled(s, a) && Calm(s) && !TimesOut(s, a)
    ensures Shaped(Next(s, a))
    ensures InOrder(Next(s, a)) == InOrder(s) + if a.Complete? then [s.notifies[a.ch].msg] else []
  {
    match a
    case Arrive(_) => SameOrder(s, Next(s, a));
    case RequestTask(timeout) => RequestInOrder(s, timeout);
    case Complete(ch) => CompleteInOrder(s, ch);
    case EventTask => EventInOrder(s);
  }

  lemma {:induction false} RunInOrder(s: State, steps: seq<Action>)
    requires Inv(s) && Feasible(s, steps) && Calm(s) && !SomeTimeout(s, steps)
    ensures InOrder(After(s, steps)) == InOrder(s) + Completions(s, steps)
    decreases |steps|
  {
    if steps != [] {
      var a := steps[0];
      StepKeeps(s, a);
      CalmStays(s, a);
      StepInOrder(s, a);
      RunInOrder(Next(s, a), steps[1..]);
      Joins(InOrder(s), if a.Complete? then [s.notifies[a.ch].msg] else [], Completions(Next(s, a), steps[1..]));
    }
  }

  /** As long as no wait times out, requests are answered in the order in which the database completes them, in
      every interleaving: those not answered yet are the last ones it completed. */
  lemma AnsweredInOrder(channels: nat, steps: seq<Action>)
    requires (InitInv(channels); Feasible(Init(channels), steps) && !SomeTimeout(Init(channels), steps))
    ensures Inv(Init(channels)) && InOrder(After(Init(channels), steps)) == Completions(Init(channels), steps)
    ensures After(Init(channels), steps).answered <= Completions(Init(channels), steps)
  {
    InitInv(channels);
    RunInOrder(Init(channels), steps);
  }
}
