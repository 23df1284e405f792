/** The server's channels of one client, and who moves them: the request task that creates and clears
    them, access security that reports changed rights, and the event task that tells the client. Every
    interleaving is a run; the lock on the lists is held by the event task while it replies. */
module ServerChannels {
  import opened Wrappers
  import opened Queues

  /** A channel is zeroed when it is allocated, and gets its first state as it enters the list. */
  datatype ChanState =
    | Zeroed
    | PendConnectResp
    | PendConnectRespUpdatePendAR
    | InService
    | InServiceUpdatePendAR
    | Shutdown

  /** `rights` are the channel's current access rights and `sent` the last ones the client was told;
      `calling` says that access security has changed them and its callback has not run yet; `claiming`
      that the request task is about to answer the create request itself; `created` counts answers. */
  datatype Chan = Chan(state: ChanState, rights: nat, sent: Option<nat>, registered: bool, calling: bool,
                       claiming: bool, created: nat)

  /** `replying` is the channel the event task has taken off the pending list and told, if any. */
  datatype State = State(chans: seq<Chan>, chanList: seq<nat>, pendingList: seq<nat>, replying: Option<nat>)

  datatype Action =
    | Allocate(rights: nat)
    | Enlist(ch: nat)
    | Register(ch: nat, active: bool)
    | Claim(ch: nat)
    | ChangeRights(ch: nat, rights: nat)
    | Callback(ch: nat)
    | Reply
    | Finish
    | Clear(ch: nat)

  predicate Plain(s: ChanState) { s == PendConnectResp || s == InService }

  predicate Pending(s: ChanState) { s == PendConnectRespUpdatePendAR || s == InServiceUpdatePendAR }

  /** The rights of a channel whose callback was never registered, because access security is not
      active, do not change once the client was told. The request task takes a request to clear a channel
      when it is done with the one that created it: it has registered the callback, or answered. */
  ghost predicate Enabled(s: State, a: Action)
  {
    match a
    case Allocate(_) => true
    case Enlist(ch) => ch < |s.chans| && s.replying.None? && s.chans[ch].state == Zeroed
    case Register(ch, _) => ch < |s.chans| && s.replying.None? && s.chans[ch].state == PendConnectResp
      && !s.chans[ch].registered
    case Claim(ch) => ch < |s.chans| && s.chans[ch].claiming
    case ChangeRights(ch, _) => ch < |s.chans| && (s.chans[ch].registered || s.chans[ch].state == PendConnectResp)
    case Callback(ch) => ch < |s.chans| && s.replying.None? && s.chans[ch].calling
    case Reply => s.replying.None? && s.pendingList != []
    case Finish => s.replying.Some?
    case Clear(ch) =>
      ch < |s.chans| && s.replying.None? && !s.chans[ch].claiming
        && (s.chans[ch].registered || s.chans[ch].state == InService)
  }

  function Set(s: State, ch: nat, c: Chan): State
    requires ch < |s.chans|
  {
    s.(chans := s.chans[ch := c])
  }

  /** Registering the callback runs it once; without access security the channel goes into service at
      once, and is answered after that. */
  function Registered(s: State, ch: nat, active: bool): State
    requires ch < |s.chans|
  {
    var c := s.chans[ch];
    Set(s, ch, if active then c.(registered := true, calling := true) else c.(state := InService, claiming := true))
  }

  function CalledBack(s: State, ch: nat): State
    requires ch < |s.chans|
  {
    var c := s.chans[ch].(calling := false);
    if !Plain(c.state) then Set(s, ch, c)
    else
      var pending := if c.state == PendConnectResp then PendConnectRespUpdatePendAR else InServiceUpdatePendAR;
      Set(s, ch, c.(state := pending)).(chanList := Remove(s.chanList, ch), pendingList := s.pendingList + [ch])
  }

  function Told(c: Chan): Chan
  {
    c.(sent := Some(c.rights), created := if c.state == InServiceUpdatePendAR then c.created else c.created + 1)
  }

  /** Clearing takes the channel off its list; one in any other state is strange, and stays. */
  function Cleared(s: State, ch: nat): State
    requires ch < |s.chans|
  {
    var c := s.chans[ch].(registered := false, calling := false);
    if c.state == Zeroed then Set(s, ch, c)
    else
      Set(s, ch, c.(state := Shutdown)).(
        chanList := if Plain(c.state) then Remove(s.chanList, ch) else s.chanList,
        pendingList := if Pending(c.state) then Remove(s.pendingList, ch) else s.pendingList)
  }

  ghost predicate Shaped(s: State)
  {
    && (forall i | 0 <= i < |s.pendingList| :: s.pendingList[i] < |s.chans|)
    && (s.replying.Some? ==> s.replying.value < |s.chans|)
  }

  function Next(s: State, a: Action): State
    requires Shaped(s) && Enabled(s, a)
  {
    match a
    case Allocate(rights) => s.(chans := s.chans + [Chan(Zeroed, rights, None, false, false, false, 0)])
    case Enlist(ch) => Set(s, ch, s.chans[ch].(state := PendConnectResp)).(chanList := s.chanList + [ch])
    case Register(ch, active) => Registered(s, ch, active)
    case Claim(ch) => Set(s, ch, Told(s.chans[ch]).(claiming := false))
    case ChangeRights(ch, rights) => Set(s, ch, s.chans[ch].(rights := rights, calling := s.chans[ch].registered))
    case Callback(ch) => CalledBack(s, ch)
    case Reply =>
      var ch := s.pendingList[0];
      Set(s, ch, Told(s.chans[ch])).(pendingList := s.pendingList[1..], replying := Some(ch))
    case Finish =>
      var ch := s.replying.value;
      Set(s, ch, s.chans[ch].(state := InService)).(chanList := s.chanList + [ch], replying := None)
    case Clear(ch) => Cleared(s, ch)
  }

  // ----- what every step keeps

  /** Each channel is in the list its state says, but the one the event task is replying to, which is in
      neither. */
  ghost predicate Listed(s: State)
  {
    && Shaped(s) && NoDuplicates(s.chanList) && NoDuplicates(s.pendingList)
    && (forall i | 0 <= i < |s.chanList| :: s.chanList[i] < |s.chans|)
    && (forall ch | 0 <= ch < |s.chans| :: ch in s.chanList <==> Plain(s.chans[ch].state))
    && (forall ch | 0 <= ch < |s.chans| ::
          ch in s.pendingList <==> Pending(s.chans[ch].state) && s.replying != Some(ch))
    && (s.replying.Some? ==> Pending(s.chans[s.replying.value].state))
  }

  /** The create request is answered once, when the channel goes into service; a channel in service
      whose rights are not about to be reported has told them. */
  ghost predicate ChanTold(c: Chan, replying: bool)
  {
    && c.created + (if c.claiming then 1 else 0)
       == (if c.state == InService || c.state == InServiceUpdatePendAR || replying then 1
           else if c.state == Shutdown then c.created else 0)
    && c.created <= 1
    && (c.claiming ==> c.state == InService && !c.registered)
    && (c.state == PendConnectResp && c.registered ==> c.calling)
    && ((c.state == InService && !c.claiming) || replying ==> c.calling || c.sent == Some(c.rights))
    && (c.state == InServiceUpdatePendAR || c.state == PendConnectRespUpdatePendAR ==> c.registered)
    && (c.calling ==> c.registered) && (c.registered ==> c.state != Zeroed)
  }

  ghost predicate AllTold(s: State)
  {
    forall ch | 0 <= ch < |s.chans| :: ChanTold(s.chans[ch], s.replying == Some(ch))
  }

  lemma AllocateKeeps(s: State, rights: nat)
    requires Listed(s) && AllTold(s)
    ensures Listed(Next(s, Allocate(rights))) && AllTold(Next(s, Allocate(rights)))
  {
  }

  lemma EnlistKeeps(s: State, ch: nat)
    requires Listed(s) && AllTold(s) && Enabled(s, Enlist(ch))
    ensures Listed(Next(s, Enlist(ch))) && AllTold(Next(s, Enlist(ch)))
  {
    assert ChanTold(s.chans[ch], false);
    Appended(s.chanList, ch);
  }

  lemma CallbackKeeps(s: State, ch: nat)
    requires Listed(s) && AllTold(s) && s.replying.None? && ch < |s.chans| && s.chans[ch].calling
    ensures Listed(CalledBack(s, ch)) && AllTold(CalledBack(s, ch))
  {
    assert ChanTold(s.chans[ch], false);
    CallbackLists(s, ch);
  }

  lemma CallbackLists(s: State, ch: nat)
    requires Listed(s) && s.replying.None? && ch < |s.chans|
    ensures Listed(CalledBack(s, ch))
  {
    Removed(s.chanList, ch);
    Appended(s.pendingList, ch);
  }

  lemma Appended(q: seq<nat>, ch: nat)
    ensures forall x :: x in q + [ch] <==> x in q || x == ch
    ensures NoDuplicates(q) && ch !in q ==> NoDuplicates(q + [ch])
  {
  }

  lemma ReplyKeeps(s: State)
    requires Listed(s) && AllTold(s) && s.replying.None? && s.pendingList != []
    ensures Listed(Next(s, Reply)) && AllTold(Next(s, Reply))
  {
    var ch := s.pendingList[0];
    assert ch in s.pendingList && ChanTold(s.chans[ch], false);
    assert s.pendingList == [ch] + s.pendingList[1..];
    assert ch !in s.pendingList[1..];
  }

  lemma FinishKeeps(s: State)
    requires Listed(s) && AllTold(s) && s.replying.Some?
    ensures Listed(Next(s, Finish)) && AllTold(Next(s, Finish))
  {
    assert ChanTold(s.chans[s.replying.value], true);
  }

  /** The channel to be cleared is in one of the five states the code knows, and in the list of its
      state. */
  lemma ClearKeeps(s: State, ch: nat)
    requires Listed(s) && AllTold(s) && Enabled(s, Clear(ch))
    ensures s.chans[ch].state != Zeroed && Cleared(s, ch).chans[ch].state == Shutdown
    ensures ch !in Cleared(s, ch).chanList && ch !in Cleared(s, ch).pendingList
    ensures Listed(Cleared(s, ch)) && AllTold(Cleared(s, ch))
  {
    assert ChanTold(s.chans[ch], false);
    ClearLists(s, ch);
  }

  lemma ClearLists(s: State, ch: nat)
    requires Listed(s) && s.replying.None? && ch < |s.chans|
    ensures Listed(Cleared(s, ch))
  {
    if Plain(s.chans[ch].state) {
      Removed(s.chanList, ch);
    } else if Pending(s.chans[ch].state) {
      Removed(s.pendingList, ch);
    }
  }

  lemma OthersKeep(s: State, a: Action)
    requires Listed(s) && AllTold(s) && Enabled(s, a) && (a.Register? || a.Claim? || a.ChangeRights?)
    ensures Listed(Next(s, a)) && AllTold(Next(s, a))
  {
    assert ChanTold(s.chans[a.ch], s.replying == Some(a.ch));
  }

  lemma StepKeeps(s: State, a: Action)
    requires Listed(s) && AllTold(s) && Enabled(s, a)
    ensures Listed(Next(s, a)) && AllTold(Next(s, a))
  {
    match a
    case Allocate(rights) => AllocateKeeps(s, rights);
    case Enlist(ch) => EnlistKeeps(s, ch);
    case Callback(ch) => CallbackKeeps(s, ch);
    case Reply => ReplyKeeps(s);
    case Finish => FinishKeeps(s);
    case Clear(ch) => ClearKeeps(s, ch);
    case _ => OthersKeep(s, a);
  }

  // ----- runs

  ghost predicate Feasible(s: State, steps: seq<Action>)
    requires Listed(s) && AllTold(s)
    decreases |steps|
  {
    steps == [] || (Enabled(s, steps[0]) && (StepKeeps(s, steps[0]); Feasible(Next(s, steps[0]), steps[1..])))
  }

  ghost function After(s: State, steps: seq<Action>): (r: State)
    requires Listed(s) && AllTold(s) && Feasible(s, steps)
    ensures Listed(r) && AllTold(r)
    decreases |steps|
  {
    if steps == [] then s else (StepKeeps(s, steps[0]); After(Next(s, steps[0]), steps[1..]))
  }

  /** In every interleaving, whenever the lock is free: a channel is in the channel list exactly in the
      two plain states, in the pending list exactly in the two others, and in neither once shut down, so
      the event task never finds a pending channel in another state; each create request is answered at
      most once; and a channel in service that access security is not about to report, and that the
      request task has answered, has told its client the rights it has. */
  lemma {:induction false} EveryRun(steps: seq<Action>)
    requires Feasible(State([], [], [], None), steps)
    ensures var s := After(State([], [], [], None), steps);
      s.replying.None? ==>
        && (forall ch | 0 <= ch < |s.chans| ::
              && (ch in s.chanList <==> Plain(s.chans[ch].state))
                && (ch in s.pendingList <==> Pending(s.chans[ch].state))
              && s.chans[ch].created <= 1
              && (s.chans[ch].state == InService && !s.chans[ch].calling && !s.chans[ch].claiming ==>
                    s.chans[ch].sent == Some(s.chans[ch].rights) && s.chans[ch].created == 1))
        && (forall i | 0 <= i < |s.pendingList| :: Pending(s.chans[s.pendingList[i]].state))
  {
    var s := After(State([], [], [], None), steps);
    forall ch | 0 <= ch < |s.chans|
      ensures s.chans[ch].created <= 1
      ensures s.chans[ch].state == InService && !s.chans[ch].calling && !s.chans[ch].claiming ==>
        s.chans[ch].sent == Some(s.chans[ch].rights) && s.chans[ch].created == 1
    {
      assert ChanTold(s.chans[ch], s.replying == Some(ch));
    }
    forall i | 0 <= i < |s.pendingList| && s.replying.None? ensures Pending(s.chans[s.pendingList[i]].state) {
      assert s.pendingList[i] in s.pendingList;
    }
  }
}
