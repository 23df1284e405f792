/** What the loops of the circuit come to in the steps of the lists: each is a run of them. And what such runs do
    for a channel from its installation on. */
module ListRuns {
  import opened ChannelLists
  import opened Queues

  /** The step that moves the first channel of this list to that one, and tells its user. */
  predicate Moves(a: Action, from: ListId, to: ListId, tell: seq<Notice>)
  {
    match a
    case SendCreate(v42) =>
      from == CreateReqPend && to == (if v42 then CreateRespPend else V42ConnCallbackPend) && tell == []
    case SendSubscribe => from == SubscripReqPend && to == Connected && tell == []
    case SendUpdate => from == SubscripUpdateReqPend && to == Connected && tell == []
    case Unresponsive => from == Connected && to == UnrespCircuit && tell == [Down]
    case Responsive => from == UnrespCircuit && to == SubscripUpdateReqPend && tell == [Up]
    case _ => false
  }

  function Again(a: Action, count: nat): (steps: seq<Action>)
    ensures |steps| == count
  {
    if count == 0 then [] else Again(a, count - 1) + [a]
  }

  lemma MoveIsStep(s: State, a: Action, from: ListId, to: ListId, tell: seq<Notice>)
    requires Placed(s) && Moves(a, from, to, tell)
    ensures Enabled(s, a) && from != NotInCircuit && to != NotInCircuit
    ensures Next(s, a) == MoveSome(s, from, to, tell, 1)
  {
    assert MoveSome(s, from, to, tell, 0) == s;
  }

  /** A loop of the circuit that moves `count` channels is that step taken `count` times. */
  lemma {:induction false} LoopIsRun(s: State, a: Action, from: ListId, to: ListId, tell: seq<Notice>, count: nat)
    requires Placed(s) && Moves(a, from, to, tell)
    ensures Feasible(s, Again(a, count)) && After(s, Again(a, count)) == MoveSome(s, from, to, tell, count)
  {
    if count > 0 {
      LoopIsRun(s, a, from, to, tell, count - 1);
      MoveIsStep(MoveSome(s, from, to, tell, count - 1), a, from, to, tell);
      OneMoreStep(s, Again(a, count - 1), a);
    }
  }

  // ----- who is connected by what

  /** All servers spoken to in the run have this protocol: a newer one replies to a request to create a channel. */
  predicate AllServers(steps: seq<Action>, v42: bool)
  {
    forall i | 0 <= i < |steps| && steps[i].SendCreate? :: steps[i].v42 == v42
  }

  function Awaiting(v42: bool): ListId { if v42 then CreateRespPend else V42ConnCallbackPend }

  lemma MoveLeavesEmpty(s: State, ch: nat, to: ListId, l: ListId)
    requires ch in s.chans && s.lists.Get(l) == [] && l != to
    ensures Move(s, ch, to).lists.Get(l) == []
  {
  }

  lemma StepLeavesEmpty(s: State, a: Action, v42: bool)
    requires Placed(s) && Enabled(s, a) && s.lists.Get(Awaiting(v42)) == [] && (a.SendCreate? ==> a.v42 != v42)
    ensures Next(s, a).lists.Get(Awaiting(v42)) == []
  {
    var l := Awaiting(v42);
    match a
    case ConnectReply(ch, validType) => MoveLeavesEmpty(s, ch, SubscripReqPend, l);
    case LegacyConnect =>
      var pend := s.lists.Get(V42ConnCallbackPend);
      if pend != [] { MoveLeavesEmpty(s, pend[0], SubscripReqPend, l); }
    case DisconnectAll => NoneLeft(s, l);
    case SendCreate(_) => MovesAside(s, CreateReqPend, Awaiting(!v42), [], l);
    case SendSubscribe => MovesAside(s, SubscripReqPend, Connected, [], l);
    case SendUpdate => MovesAside(s, SubscripUpdateReqPend, Connected, [], l);
    case Unresponsive => MovesAside(s, Connected, UnrespCircuit, [Down], l);
    case Responsive => MovesAside(s, UnrespCircuit, SubscripUpdateReqPend, [Up], l);
    case _ =>
  }

  lemma MovesAside(s: State, from: ListId, to: ListId, tell: seq<Notice>, l: ListId)
    requires Placed(s) && from != NotInCircuit && l != to && s.lists.Get(l) == []
    ensures MoveFirst(s, from, to, tell).lists.Get(l) == []
  {
    if s.lists.Get(from) != [] {
      var ch := s.lists.Get(from)[0];
      assert ch in s.lists.Get(from);
      MoveLeavesEmpty(s, ch, to, l);
    }
  }

  lemma {:induction false} RunLeavesEmpty(s: State, steps: seq<Action>, v42: bool)
    requires Placed(s) && Feasible(s, steps) && s.lists.Get(Awaiting(v42)) == [] && AllServers(steps, !v42)
    ensures After(s, steps).lists.Get(Awaiting(v42)) == []
    decreases |steps|
  {
    if steps != [] {
      StepLeavesEmpty(s, steps[0], v42);
      StepKeepsPlaces(s, steps[0]);
      RunLeavesEmpty(Next(s, steps[0]), steps[1..], v42);
    }
  }

  /** With newer servers no channel is ever connected but by their reply, and with older ones none waits for one:
      in every run from the empty circuit the list for the other kind stays empty. */
  lemma OneKindOfServer(steps: seq<Action>, v42: bool)
    requires Feasible(Empty(), steps) && AllServers(steps, v42)
    ensures After(Empty(), steps).lists.Get(if v42 then V42ConnCallbackPend else CreateRespPend) == []
  {
    RunLeavesEmpty(Empty(), steps, !v42);
  }

  /** A channel at the head of the create list is connected in three steps, and its user told once; an older
      server need not reply. */
  lemma ConnectsInThree(s: State, ch: nat, v42: bool)
    requires Placed(s) && s.lists.Get(CreateReqPend) != [] && s.lists.Get(CreateReqPend)[0] == ch
    requires s.lists.Get(Awaiting(v42)) == s.lists.Get(SubscripReqPend) == [] && ch in s.chans && s.chans[ch].typed
    ensures var steps := [SendCreate(v42), if v42 then ConnectReply(ch, true) else LegacyConnect, SendSubscribe];
      Feasible(s, steps)
        && var r := After(s, steps);
          ch in r.chans && r.chans[ch].member == Connected && r.chans[ch].connected
            && r.chans[ch].notices == s.chans[ch].notices + [Up]
  {
    var a, b := SendCreate(v42), if v42 then ConnectReply(ch, true) else LegacyConnect;
    var s1 := Sent(s, ch, v42);
    var s2 := Replied(s1, ch, v42);
    var s3 := Subscribed(s2, ch);
    ThreeSteps(s, a, b, SendSubscribe);
  }

  lemma FirstStep(s: State, a: Action, steps: seq<Action>)
    requires Placed(s) && Enabled(s, a) && Placed(Next(s, a)) && Feasible(Next(s, a), steps)
    ensures Feasible(s, [a] + steps) && After(s, [a] + steps) == After(Next(s, a), steps)
  {
    StepKeepsPlaces(s, a);
    assert ([a] + steps)[1..] == steps;
  }

  lemma ThreeSteps(s: State, a: Action, b: Action, c: Action)
    requires Placed(s) && Enabled(s, a) && Placed(Next(s, a)) && Enabled(Next(s, a), b)
    requires Placed(Next(Next(s, a), b)) && Enabled(Next(Next(s, a), b), c)
    ensures Feasible(s, [a, b, c]) && After(s, [a, b, c]) == Next(Next(Next(s, a), b), c)
  {
    StepKeepsPlaces(Next(Next(s, a), b), c);
    FirstStep(Next(Next(s, a), b), c, []);
    FirstStep(Next(s, a), b, [c]);
    FirstStep(s, a, [b, c]);
    assert [c] + [] == [c] && [b] + [c] == [b, c] && [a] + [b, c] == [a, b, c];
  }

  lemma Sent(s: State, ch: nat, v42: bool) returns (r: State)
    requires Placed(s) && s.lists.Get(CreateReqPend) != [] && s.lists.Get(CreateReqPend)[0] == ch && ch in s.chans
    requires s.lists.Get(Awaiting(v42)) == s.lists.Get(SubscripReqPend) == []
    ensures r == Next(s, SendCreate(v42)) && Placed(r) && r.lists.Get(SubscripReqPend) == []
    ensures r.lists.Get(Awaiting(v42)) == [ch]
    ensures ch in r.chans && r.chans[ch] == s.chans[ch].(member := Awaiting(v42))
  {
    r := Next(s, SendCreate(v42));
    StepKeepsPlaces(s, SendCreate(v42));
    MoveFirstEntry(s, CreateReqPend, Awaiting(v42), []);
    MoveIs(s, ch, Awaiting(v42));
  }

  lemma Replied(s: State, ch: nat, v42: bool) returns (r: State)
    requires Placed(s) && s.lists.Get(Awaiting(v42)) == [ch] && s.lists.Get(SubscripReqPend) == []
    requires ch in s.chans && s.chans[ch].member == Awaiting(v42) && s.chans[ch].typed
    ensures var b := if v42 then ConnectReply(ch, true) else LegacyConnect;
      Enabled(s, b) && r == Next(s, b) && Placed(r) && r.lists.Get(SubscripReqPend) == [ch]
    ensures ch in r.chans && r.chans[ch].member == SubscripReqPend && r.chans[ch].connected
    ensures r.chans[ch].notices == s.chans[ch].notices + [Up]
  {
    var b := if v42 then ConnectReply(ch, true) else LegacyConnect;
    r := Next(s, b);
    StepKeepsPlaces(s, b);
    MoveEntry(s, ch, SubscripReqPend);
    MoveIs(s, ch, SubscripReqPend);
  }

  lemma Subscribed(s: State, ch: nat) returns (r: State)
    requires Placed(s) && s.lists.Get(SubscripReqPend) == [ch] && ch in s.chans
    ensures r == Next(s, SendSubscribe) && Placed(r) && ch in r.chans
    ensures r.chans[ch] == s.chans[ch].(member := Connected)
  {
    r := Next(s, SendSubscribe);
    StepKeepsPlaces(s, SendSubscribe);
    MoveFirstEntry(s, SubscripReqPend, Connected, []);
  }

  /** The type an older server's channel is installed with decides: the step that connects it without a reply
      throws exactly when that type is not a valid one, and otherwise tells its user. */
  lemma OlderServersGoByTheInstalledType(s: State, ch: nat, validType: bool)
    requires Placed(s) && ch in s.chans && s.chans[ch].member == NotInCircuit
    requires s.lists.Get(CreateReqPend) == s.lists.Get(V42ConnCallbackPend) == []
    ensures Feasible(s, [Install(ch, validType), SendCreate(false)])
    ensures var r := After(s, [Install(ch, validType), SendCreate(false)]);
      && r.lists.Get(V42ConnCallbackPend) == [ch] && ch in r.chans
      && (Throws(r, LegacyConnect) <==> !validType)
      && var t := Next(r, LegacyConnect);
        ch in t.chans && t.chans[ch].notices == s.chans[ch].notices + if validType then [Up] else []
  {
    var a, b := Install(ch, validType), SendCreate(false);
    var s1 := JustInstalled(s, ch, validType);
    var r := SentOn(s1, ch);
    OneMoreStep(s, [], a);
    OneMoreStep(s, [a], b);
    assert [] + [a] == [a] && [a] + [b] == [a, b];
    ConnectedWithoutReply(r, ch, validType);
  }

  lemma JustInstalled(s: State, ch: nat, validType: bool) returns (r: State)
    requires Placed(s) && ch in s.chans && s.chans[ch].member == NotInCircuit
    requires s.lists.Get(CreateReqPend) == s.lists.Get(V42ConnCallbackPend) == []
    ensures r == Next(s, Install(ch, validType)) && Placed(r) && ch in r.chans
    ensures r.chans[ch] == s.chans[ch].(member := CreateReqPend, typed := validType)
    ensures r.lists.Get(CreateReqPend) == [ch] && r.lists.Get(V42ConnCallbackPend) == []
  {
    r := Next(s, Install(ch, validType));
    StepKeepsPlaces(s, Install(ch, validType));
    InstalledEntry(s, ch, validType);
  }

  lemma SentOn(s: State, ch: nat) returns (r: State)
    requires Placed(s) && s.lists.Get(CreateReqPend) == [ch] && s.lists.Get(V42ConnCallbackPend) == []
    requires ch in s.chans
    ensures r == Next(s, SendCreate(false)) && Placed(r) && r.lists.Get(V42ConnCallbackPend) == [ch]
    ensures ch in r.chans && r.chans[ch] == s.chans[ch].(member := V42ConnCallbackPend)
  {
    r := Next(s, SendCreate(false));
    StepKeepsPlaces(s, SendCreate(false));
    MoveFirstEntry(s, CreateReqPend, V42ConnCallbackPend, []);
    MoveIs(s, ch, V42ConnCallbackPend);
  }

  lemma ConnectedWithoutReply(s: State, ch: nat, validType: bool)
    requires Placed(s) && s.lists.Get(V42ConnCallbackPend) == [ch] && ch in s.chans
    requires s.chans[ch].member == V42ConnCallbackPend && s.chans[ch].typed == validType
    ensures Throws(s, LegacyConnect) <==> !validType
    ensures var t := Next(s, LegacyConnect);
      ch in t.chans && t.chans[ch].notices == s.chans[ch].notices + if validType then [Up] else []
  {
    MoveEntry(s, ch, SubscripReqPend);
  }

  lemma InstalledEntry(s: State, ch: nat, validType: bool)
    requires Placed(s) && ch in s.chans && s.chans[ch].member == NotInCircuit
    ensures var r := Installed(s, ch, validType);
      && r.lists.Get(CreateReqPend) == s.lists.Get(CreateReqPend) + [ch]
      && r.lists.Get(V42ConnCallbackPend) == s.lists.Get(V42ConnCallbackPend)
      && ch in r.chans && r.chans[ch] == s.chans[ch].(member := CreateReqPend, typed := validType)
  {
  }
}
