/** That the server's channels are never stuck: whatever has happened, every channel that was not cleared can still
    go into service and its client can be told its rights; and one that was cleared stays out of it. */
module ServiceProgress {
  import opened Queues
  import opened ServerChannels
  import opened Wrappers

  /** How far a channel is from being in service with nothing left to tell. */
  function Far(c: Chan, replying: bool): nat
  {
    (match c.state
     case Zeroed => 7
     case PendConnectResp => if c.registered then 0 else 6
     case InService => if c.claiming then 1 else 0
     case Shutdown => 0
     case _ => if replying then 2 else 3) + if c.calling then 4 else 0
  }

  function AllFar(s: State): (r: seq<nat>)
    ensures |r| == |s.chans| && forall ch | 0 <= ch < |r| :: r[ch] == Far(s.chans[ch], s.replying == Some(ch))
  {
    seq(|s.chans|, ch requires 0 <= ch < |s.chans| => Far(s.chans[ch], s.replying == Some(ch)))
  }

  function Sum(ns: seq<nat>): nat { if ns == [] then 0 else ns[0] + Sum(ns[1..]) }

  lemma {:induction false} LessInOne(a: seq<nat>, b: seq<nat>, k: nat)
    requires |a| == |b| && k < |a| && b[k] < a[k] && forall i | 0 <= i < |a| && i != k :: b[i] == a[i]
    ensures Sum(b) < Sum(a)
    decreases |a|
  {
    if k == 0 {
      assert a[1..] == b[1..];
    } else {
      LessInOne(a[1..], b[1..], k - 1);
    }
  }

  /** What the channel's own steps to service leave as it is: its rights, whether it was cleared, and whether access
      security knows it, which `active` decides if that is still open. */
  datatype Fate = Fate(rights: nat, cleared: bool, registered: bool)

  function FateOf(c: Chan, active: bool): Fate
  {
    Fate(c.rights, c.state == Shutdown,
         if c.state == Zeroed || (c.state == PendConnectResp && !c.registered) then active else c.registered)
  }

  ghost predicate SameFates(s: State, s': State, active: bool)
  {
    && |s'.chans| == |s.chans|
    && forall ch | 0 <= ch < |s.chans| :: FateOf(s'.chans[ch], active) == FateOf(s.chans[ch], active)
  }

  ghost predicate Inv(s: State) { Listed(s) && AllTold(s) }

  /** The steps that bring channels into service: a channel's own, or those of the event task. */
  predicate Serves(a: Action, active: bool)
  {
    a.Enlist? || (a.Register? && a.active == active) || a.Claim? || a.Callback? || a.Reply? || a.Finish?
  }

  /** The channel such a step is about. */
  function About(s: State, a: Action): nat
    requires Inv(s) && Enabled(s, a) && (a.Enlist? || a.Register? || a.Claim? || a.Callback? || a.Reply? || a.Finish?)
  {
    match a
    case Reply => s.pendingList[0]
    case Finish => s.replying.value
    case _ => a.ch
  }

  ghost predicate Nearer(s: State, s': State, ch: nat, active: bool)
  {
    && |s'.chans| == |s.chans| && ch < |s.chans|
    && (forall k | 0 <= k < |s.chans| && k != ch ::
          s'.chans[k] == s.chans[k] && (s'.replying == Some(k) <==> s.replying == Some(k)))
    && FateOf(s'.chans[ch], active) == FateOf(s.chans[ch], active)
    && Far(s'.chans[ch], s'.replying == Some(ch)) < Far(s.chans[ch], s.replying == Some(ch))
  }

  lemma StepNearer(s: State, a: Action, active: bool)
    requires Inv(s) && Enabled(s, a) && Serves(a, active)
    requires a.Callback? ==> s.pendingList == []
    ensures Nearer(s, Next(s, a), About(s, a), active)
  {
    var ch := About(s, a);
    assert ChanTold(s.chans[ch], s.replying == Some(ch));
    if a.Reply? { assert ch in s.pendingList; }
  }

  lemma NearerIsLess(s: State, s': State, ch: nat, active: bool)
    requires Nearer(s, s', ch, active)
    ensures SameFates(s, s', active) && Sum(AllFar(s')) < Sum(AllFar(s))
  {
    LessInOne(AllFar(s), AllFar(s'), ch);
  }

  ghost predicate AtRest(s: State)
  {
    forall ch | 0 <= ch < |s.chans| :: Far(s.chans[ch], s.replying == Some(ch)) == 0
  }

  lemma SomeChoice(s: State, active: bool) returns (a: Action)
    requires Inv(s) && !AtRest(s)
    ensures Serves(a, active) && Enabled(s, a) && (a.Callback? ==> s.pendingList == [])
  {
    if s.replying.Some? {
      a := Finish;
    } else if s.pendingList != [] {
      a := Reply;
    } else {
      var ch :| 0 <= ch < |s.chans| && Far(s.chans[ch], s.replying == Some(ch)) != 0;
      var c := s.chans[ch];
      assert ChanTold(c, false) && ch !in s.pendingList;
      a := if c.state == Zeroed then Enlist(ch)
        else if c.state == PendConnectResp && !c.registered then Register(ch, active)
        else if c.calling then Callback(ch)
        else Claim(ch);
    }
  }

  lemma GoOn(s: State, active: bool) returns (a: Action)
    requires Inv(s) && !AtRest(s)
    ensures Serves(a, active) && Enabled(s, a) && Inv(Next(s, a))
    ensures SameFates(s, Next(s, a), active) && Sum(AllFar(Next(s, a))) < Sum(AllFar(s))
  {
    a := SomeChoice(s, active);
    StepKeeps(s, a);
    StepNearer(s, a, active);
    NearerIsLess(s, Next(s, a), About(s, a), active);
  }

  ghost predicate AllServe(steps: seq<Action>, active: bool)
  {
    forall i | 0 <= i < |steps| :: Serves(steps[i], active)
  }

  /** The channel was answered once, its client knows its rights, and nothing is left to tell it. */
  predicate InGoodService(c: Chan)
  {
    c.state == InService && !c.calling && !c.claiming && c.created == 1 && c.sent == Some(c.rights)
  }

  /** These steps bring every channel into service that was not cleared, with the rights it has. */
  ghost predicate ServesAll(s: State, steps: seq<Action>, active: bool)
    requires Inv(s)
  {
    && Feasible(s, steps) && AllServe(steps, active)
    && var r := After(s, steps);
      && SameFates(s, r, active) && r.replying == None && r.pendingList == []
      && forall ch | 0 <= ch < |r.chans| && r.chans[ch].state != Shutdown :: InGoodService(r.chans[ch])
  }

  lemma FirstIn(q: seq<nat>)
    ensures q != [] ==> q[0] in q
  {
  }

  lemma NothingAtRest(s: State)
    requires Inv(s) && AtRest(s)
    ensures s.replying == None && s.pendingList == []
  {
    FirstIn(s.pendingList);
    forall ch | 0 <= ch < |s.chans| ensures !Pending(s.chans[ch].state) {
      assert Far(s.chans[ch], s.replying == Some(ch)) == 0;
    }
  }

  lemma RestIsService(s: State, active: bool)
    requires Inv(s) && AtRest(s)
    ensures ServesAll(s, [], active)
  {
    NothingAtRest(s);
    forall ch | 0 <= ch < |s.chans| && s.chans[ch].state != Shutdown ensures InGoodService(s.chans[ch]) {
      assert ChanTold(s.chans[ch], s.replying == Some(ch));
    }
  }

  lemma ServesFirst(s: State, a: Action, steps: seq<Action>, active: bool)
    requires Inv(s) && Enabled(s, a) && Serves(a, active) && Inv(Next(s, a)) && ServesAll(Next(s, a), steps, active)
    requires SameFates(s, Next(s, a), active)
    ensures ServesAll(s, [a] + steps, active)
  {
    assert ([a] + steps)[1..] == steps;
  }

  /** From every state there are such steps, with access security active or not. */
  lemma {:induction false} CanServeAll(s: State, active: bool) returns (steps: seq<Action>)
    requires Inv(s)
    ensures ServesAll(s, steps, active)
    decreases Sum(AllFar(s))
  {
    if AtRest(s) {
      RestIsService(s, active);
      steps := [];
    } else {
      var a := GoOn(s, active);
      var later := CanServeAll(Next(s, a), active);
      ServesFirst(s, a, later, active);
      steps := [a] + later;
    }
  }

  /** A channel that is created, in any state, can go into service with the rights it is created with, and access
      security knows it then exactly if it is active. */
  lemma NewChannelIsServed(s: State, rights: nat, active: bool) returns (steps: seq<Action>)
    requires Inv(s)
    ensures Inv(Next(s, Allocate(rights))) && ServesAll(Next(s, Allocate(rights)), steps, active)
    ensures var r, ch := After(Next(s, Allocate(rights)), steps), |s.chans|;
      && |r.chans| == ch + 1 && InGoodService(r.chans[ch]) && r.chans[ch].sent == Some(rights)
      && r.chans[ch].registered == active
  {
    StepKeeps(s, Allocate(rights));
    var s1 := Next(s, Allocate(rights));
    steps := CanServeAll(s1, active);
    assert FateOf(After(s1, steps).chans[|s.chans|], active) == FateOf(s1.chans[|s.chans|], active);
  }

  /** And when the rights of one change, its client can be told the new ones. */
  lemma ChangeIsTold(s: State, ch: nat, rights: nat, active: bool) returns (steps: seq<Action>)
    requires Inv(s) && Enabled(s, ChangeRights(ch, rights)) && s.chans[ch].state != Shutdown
    ensures var s1 := Next(s, ChangeRights(ch, rights));
      && Inv(s1) && ServesAll(s1, steps, active) && ch < |After(s1, steps).chans|
      && var c := After(s1, steps).chans[ch];
        InGoodService(c) && c.sent == Some(rights)
  {
    StepKeeps(s, ChangeRights(ch, rights));
    var s1 := Next(s, ChangeRights(ch, rights));
    steps := CanServeAll(s1, active);
    assert FateOf(After(s1, steps).chans[ch], active) == FateOf(s1.chans[ch], active);
  }

  // ----- cleared channels

  /** The channel is shut down, and access security does not know it any more. */
  ghost predicate Gone(s: State, ch: nat)
  {
    && ch < |s.chans| && s.chans[ch].state == Shutdown
    && !s.chans[ch].registered && !s.chans[ch].calling && !s.chans[ch].claiming
  }

  /** A channel that is cleared is so, and in no list. */
  lemma ClearedIsGone(s: State, ch: nat)
    requires Inv(s) && Enabled(s, Clear(ch))
    ensures Inv(Next(s, Clear(ch))) && Gone(Next(s, Clear(ch)), ch)
  {
    StepKeeps(s, Clear(ch));
    assert ChanTold(s.chans[ch], false);
  }

  lemma StepLeavesGone(s: State, a: Action, ch: nat)
    requires Inv(s) && Enabled(s, a) && Gone(s, ch)
    ensures Gone(Next(s, a), ch) && Next(s, a).chans[ch] == s.chans[ch]
  {
    if a.Reply? { assert s.pendingList[0] in s.pendingList; }
    if a.Finish? { assert Pending(s.chans[s.replying.value].state); }
  }

  /** It stays as it is in every run: its client is told nothing more, and its rights no longer change. */
  lemma {:induction false} GoneForGood(s: State, steps: seq<Action>, ch: nat)
    requires Inv(s) && Feasible(s, steps) && Gone(s, ch)
    ensures var r := After(s, steps);
      && Gone(r, ch) && r.chans[ch] == s.chans[ch] && ch !in r.chanList && ch !in r.pendingList
      && r.replying != Some(ch) && !Enabled(r, Callback(ch)) && forall rights :: !Enabled(r, ChangeRights(ch, rights))
    decreases |steps|
  {
    if steps != [] {
      StepKeeps(s, steps[0]);
      StepLeavesGone(s, steps[0], ch);
      GoneForGood(Next(s, steps[0]), steps[1..], ch);
    }
  }
}
