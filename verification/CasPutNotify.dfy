/** The put notify blocks of a client and the queue of those the database is done with, as the
    callback, the event task and the request task change them under the lock. */
module CasPutNotify {
  import opened PutNotify
  import opened Queues

  class Notifies {
    var notifies: seq<Notify>
    var putNotifyQue: seq<nat>
    var accepted: nat
    var answered: seq<nat>
    var doubled: bool

    /** The state with the event task at rest and the request task where the caller says. */
    ghost function View(request: RequestPc): State
      reads this
    {
      State(notifies, putNotifyQue, request, Resting, accepted, answered, doubled)
    }

    ghost predicate Valid(request: RequestPc)
      reads this
    {
      Inv(View(request))
    }

    constructor (channels: nat)
      ensures Valid(Idle) && View(Idle) == Init(channels)
    {
      notifies := seq(channels, _ => Notify(false, false, false, 0));
      putNotifyQue, accepted, answered, doubled := [], 0, [], false;
      new;
      InitInv(channels);
    }

    /** The database is done. That it was done before is never found. */
    method WriteNotifyDone(ch: nat, ghost request: RequestPc)
      requires Valid(request) && ch < |notifies| && notifies[ch].running
      modifies this
      ensures Valid(request) && View(request) == Completed(old(View(request)), ch) && !doubled
    {
      StepKeeps(View(request), Complete(ch));
      var n := notifies[ch].(running := false);
      if !n.busy || n.marked {
        // A second call back for the same put would be found here.
        assert false;
      } else {
        putNotifyQue := putNotifyQue + [ch];
        notifies := notifies[ch := n.(marked := true)];
      }
    }

    /** The event task answers the first notify of the queue. */
    method ReplyFirst(ghost request: RequestPc)
      requires Valid(request) && putNotifyQue != []
      modifies this
      ensures Valid(request) && View(request) == Replied(old(View(request)))
      ensures |putNotifyQue| == |old(putNotifyQue)| - 1
    {
      RepliedKeeps(View(request));
      assert putNotifyQue[0] in putNotifyQue;
      var ch := putNotifyQue[0];
      putNotifyQue := putNotifyQue[1..];
      var n := notifies[ch];
      notifies := notifies[ch := n.(marked := false, busy := false)];
      answered := answered + [n.msg];
    }

    /** All of them, in the order the database was done with them. */
    method WriteNotifyReply(ghost request: RequestPc)
      requires Valid(request)
      modifies this
      ensures Valid(request) && putNotifyQue == [] && View(request) == AllReplied(old(View(request)))
      ensures answered == old(answered) + Held(old(notifies), old(putNotifyQue))
    {
      ghost var all := answered + Held(notifies, putNotifyQue);
      while putNotifyQue != []
        invariant Valid(request) && AllReplied(View(request)) == AllReplied(old(View(request)))
        invariant all == answered + Held(notifies, putNotifyQue)
        decreases |putNotifyQue|
      {
        ghost var before, queue := notifies, putNotifyQue;
        HeldFirst(before, queue, answered);
        ReplyFirst(request);
        HeldSame(before, notifies, putNotifyQue);
      }
    }

    /** The wait took too long and the database was told to stop: a notify that is still busy is taken
        back, wherever it is, and its request is answered here. */
    method TakeBack(ch: nat) returns (busy: bool)
      requires Valid(Rechecking(ch)) && ch < |notifies|
      modifies this
      ensures Valid(Checking(ch)) && busy == old(notifies)[ch].busy && !notifies[ch].busy && ch !in putNotifyQue
      ensures answered == if busy then old(answered) + [old(notifies)[ch].msg] else old(answered)
      ensures View(Checking(ch)) == TakenBack(old(View(Rechecking(ch))))
    {
      StepKeeps(View(Rechecking(ch)), RequestTask(false));
      busy := notifies[ch].busy;
      if busy {
        ghost var refusing := Next(View(Rechecking(ch)), RequestTask(false));
        StepKeeps(refusing, RequestTask(false));
        if notifies[ch].marked { putNotifyQue := Remove(putNotifyQue, ch); }
        var n := notifies[ch];
        notifies := notifies[ch := n.(busy := false)];
        answered := answered + [n.msg];
        assert View(Checking(ch)) == Next(refusing, RequestTask(false));
      }
    }
  }

  ghost function Replied(s: State): State
    requires Shaped(s) && s.event == Resting && s.queue != []
  {
    EventStep(EventStep(s))
  }

  ghost function AllReplied(s: State): State
    requires Inv(s) && s.event == Resting
    decreases |s.queue|
  {
    if s.queue == [] then s
    else
      RepliedKeeps(s);
      AllReplied(Replied(s))
  }

  lemma RepliedKeeps(s: State)
    requires Inv(s) && s.event == Resting && s.queue != []
    ensures Inv(Replied(s)) && Replied(s).event == Resting && Replied(s).queue == s.queue[1..]
  {
    StepKeeps(s, EventTask);
    StepKeeps(Next(s, EventTask), EventTask);
  }

  /** The request task's steps from taking a notify back to looking again. */
  ghost function TakenBack(s: State): State
    requires Inv(s) && s.request.Rechecking?
  {
    StepKeeps(s, RequestTask(false));
    var after := Next(s, RequestTask(false));
    if after.request.Refusing? then Next(after, RequestTask(false)) else after
  }

  /** The requests held by the notifies of a queue, in order. */
  function Held(notifies: seq<Notify>, queue: seq<nat>): seq<nat>
    requires forall i | 0 <= i < |queue| :: queue[i] < |notifies|
  {
    if queue == [] then [] else [notifies[queue[0]].msg] + Held(notifies, queue[1..])
  }

  lemma {:induction false} HeldFirst(notifies: seq<Notify>, queue: seq<nat>, answered: seq<nat>)
    requires queue != [] && forall i | 0 <= i < |queue| :: queue[i] < |notifies|
    ensures answered + Held(notifies, queue) == answered + [notifies[queue[0]].msg] + Held(notifies, queue[1..])
  {
  }

  lemma {:induction false} HeldSame(before: seq<Notify>, after: seq<Notify>, queue: seq<nat>)
    requires |before| == |after| && (forall i | 0 <= i < |queue| :: queue[i] < |before|)
    requires forall i | 0 <= i < |before| :: after[i].msg == before[i].msg
    ensures Held(after, queue) == Held(before, queue)
  {
    if queue != [] { HeldSame(before, after, queue[1..]); }
  }
}
