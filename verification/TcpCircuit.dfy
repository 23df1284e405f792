/** The circuit as an object: the seven lists are fields its methods take channels from and add them
    to. Each method does to the whole state what ChannelLists says. */
module TcpCircuit {
  import opened ChannelLists
  import opened Queues

  class Circuit {
    var createReqPend: seq<nat>
    var createRespPend: seq<nat>
    var v42ConnCallbackPend: seq<nat>
    var subscripReqPend: seq<nat>
    var connectedList: seq<nat>
    var unrespCircuit: seq<nat>
    var subscripUpdateReqPend: seq<nat>
    var chans: map<nat, Chan>
    var channelCountTot: int
    var outstanding: int
    var unresponsiveCircuit: bool

    ghost function View(): State
      reads this
    {
      State(Lists(createReqPend, createRespPend, v42ConnCallbackPend, subscripReqPend, connectedList, unrespCircuit,
                  subscripUpdateReqPend), chans, channelCountTot, outstanding)
    }

    constructor ()
      ensures View() == Empty() && Placed(View()) && !unresponsiveCircuit
    {
      createReqPend, createRespPend, v42ConnCallbackPend, subscripReqPend := [], [], [], [];
      connectedList, unrespCircuit, subscripUpdateReqPend := [], [], [];
      chans, channelCountTot, outstanding, unresponsiveCircuit := map[], 0, 0, false;
    }

    // ----- notifications

    method NotifyConnect(ch: nat)
      requires ch in chans
      modifies this`chans, this`outstanding
      ensures View() == Tell(old(View()), ch, Up)
    {
      chans := chans[ch := chans[ch].(connected := true, before := true, notices := chans[ch].notices + [Up])];
      if !chans[ch].hasCallback { outstanding := outstanding - 1; }
    }

    method NotifyDisconnect(ch: nat)
      requires ch in chans
      modifies this`chans, this`outstanding
      ensures View() == Tell(old(View()), ch, Down)
    {
      chans := chans[ch := chans[ch].(connected := false, notices := chans[ch].notices + [Down])];
      if !chans[ch].hasCallback { outstanding := outstanding + 1; }
    }

    method ChangeConnectionEvent(ch: nat, hasCallback: bool)
      requires ch in chans
      modifies this`chans, this`outstanding
      ensures View() == CallbackChanged(old(View()), ch, hasCallback)
    {
      if !chans[ch].connected {
        if hasCallback {
          if !chans[ch].hasCallback { outstanding := outstanding - 1; }
        } else {
          if chans[ch].hasCallback { outstanding := outstanding + 1; }
        }
      }
      chans := chans[ch := chans[ch].(hasCallback := hasCallback)];
    }

    method CreateChannel(ch: nat, hasCallback: bool)
      requires ch !in chans
      modifies this`chans, this`outstanding
      ensures View() == Created(old(View()), ch, hasCallback)
    {
      chans := chans[ch := Chan(NotInCircuit, hasCallback, false, false, false, [])];
      if !hasCallback { outstanding := outstanding + 1; }
    }

    // ----- installing and uninstalling

    method InstallChannel(ch: nat, validType: bool)
      requires ch in chans && chans[ch].member == NotInCircuit
      modifies this`createReqPend, this`chans, this`channelCountTot
      ensures View() == Installed(old(View()), ch, validType)
    {
      createReqPend := createReqPend + [ch];
      channelCountTot := channelCountTot + 1;
      chans := chans[ch := chans[ch].(member := CreateReqPend, typed := validType)];
    }

    method UninstallChan(ch: nat)
      requires ch in chans
      modifies this
      ensures View() == Uninstalled(old(View()), ch) && unresponsiveCircuit == old(unresponsiveCircuit)
    {
      RemoveFromList(chans[ch].member, ch);
      channelCountTot := channelCountTot - 1;
      chans := chans[ch := chans[ch].(member := NotInCircuit)];
    }

    method RemoveFromList(member: ListId, ch: nat)
      modifies this
      ensures View()
           == old(View()).(lists := old(View()).lists.With(member, Remove(old(View()).lists.Get(member), ch)))
      ensures unresponsiveCircuit == old(unresponsiveCircuit)
    {
      match member {
        case CreateReqPend => createReqPend := Remove(createReqPend, ch);
        case CreateRespPend => createRespPend := Remove(createRespPend, ch);
        case V42ConnCallbackPend => v42ConnCallbackPend := Remove(v42ConnCallbackPend, ch);
        case SubscripReqPend => subscripReqPend := Remove(subscripReqPend, ch);
        case Connected => connectedList := Remove(connectedList, ch);
        case UnrespCircuit => unrespCircuit := Remove(unrespCircuit, ch);
        case SubscripUpdateReqPend => subscripUpdateReqPend := Remove(subscripUpdateReqPend, ch);
        case NotInCircuit => // The code only complains.
      }
    }

    method DestroyChannel(ch: nat)
      requires ch in chans
      modifies this
      ensures View() == Destroyed(old(View()), ch)
    {
      var owes := !chans[ch].hasCallback && !chans[ch].connected;
      if chans[ch].member != NotInCircuit { UninstallChan(ch); }
      chans := chans - {ch};
      if owes { outstanding := outstanding - 1; }
    }

    // ----- connecting

    method LeaveRespPend(ch: nat)
      requires ch in chans && chans[ch].member == CreateRespPend
      modifies this`createRespPend, this`subscripReqPend, this`chans
      ensures View() == Move(old(View()), ch, SubscripReqPend)
    {
      MovedOnce(View(), ch, SubscripReqPend);
      createRespPend := Remove(createRespPend, ch);
      subscripReqPend := subscripReqPend + [ch];
      chans := chans[ch := chans[ch].(member := SubscripReqPend)];
    }

    method LeaveCallbackPend(ch: nat)
      requires ch in chans && chans[ch].member == V42ConnCallbackPend
      modifies this`v42ConnCallbackPend, this`subscripReqPend, this`chans
      ensures View() == Move(old(View()), ch, SubscripReqPend)
    {
      MovedOnce(View(), ch, SubscripReqPend);
      v42ConnCallbackPend := Remove(v42ConnCallbackPend, ch);
      subscripReqPend := subscripReqPend + [ch];
      chans := chans[ch := chans[ch].(member := SubscripReqPend)];
    }

    method ConnectNotify(ch: nat) returns (wasExpected: bool)
      requires ch in chans
      modifies this`createRespPend, this`v42ConnCallbackPend, this`subscripReqPend, this`chans
      ensures wasExpected == Awaited(old(chans)[ch].member)
      ensures View() == if wasExpected then Move(old(View()), ch, SubscripReqPend) else old(View())
    {
      wasExpected := false;
      if chans[ch].member == CreateRespPend {
        LeaveRespPend(ch);
        wasExpected := true;
      } else if chans[ch].member == V42ConnCallbackPend {
        LeaveCallbackPend(ch);
        wasExpected := true;
      }
    }

    /** Takes the server's reply; a type that is not valid throws before anything is recorded. */
    method Connect(ch: nat, validType: bool) returns (thrown: bool)
      requires ch in chans
      modifies this`chans, this`outstanding
      ensures thrown == !validType
      ensures View() == if thrown then old(View())
        else Tell(old(View()).(chans := old(chans)[ch := old(chans)[ch].(typed := true)]), ch, Up)
    {
      thrown := !validType;
      if !thrown {
        chans := chans[ch := chans[ch].(typed := true)];
        NotifyConnect(ch);
      }
    }

    method ConnectReply(ch: nat, validType: bool) returns (thrown: bool)
      requires InLists(View()) && ch in chans
      modifies this
      ensures View() == Connecting(old(View()), ch, validType)
      ensures thrown == (Awaited(old(chans)[ch].member) && !validType)
    {
      var wasExpected := ConnectNotify(ch);
      thrown := false;
      if wasExpected { thrown := Connect(ch, validType); }
    }

    // ----- the send thread

    method FlushBlockThreshold() returns (blocked: bool) { blocked := *; }

    method TakeCreate(v42: bool) returns (ch: nat)
      requires Placed(View()) && createReqPend != []
      modifies this`createReqPend, this`createRespPend, this`v42ConnCallbackPend, this`chans
      ensures Placed(View()) && |createReqPend| == |old(createReqPend)| - 1
      ensures View() == MoveFirst(old(View()), CreateReqPend, if v42 then CreateRespPend else V42ConnCallbackPend, [])
    {
      TakesFirst(View(), CreateReqPend, if v42 then CreateRespPend else V42ConnCallbackPend, []);
      ch := ShiftCreate(v42);
    }

    method ShiftCreate(v42: bool) returns (ch: nat)
      requires createReqPend != [] && createReqPend[0] in chans
      modifies this`createReqPend, this`createRespPend, this`v42ConnCallbackPend, this`chans
      ensures ch == old(createReqPend)[0] && |createReqPend| == |old(createReqPend)| - 1
      ensures View() == FirstMoved(old(View()), CreateReqPend, if v42 then CreateRespPend else V42ConnCallbackPend)
    {
      ch := createReqPend[0];
      createReqPend := createReqPend[1..];
      if v42 {
        createRespPend := createRespPend + [ch];
        chans := chans[ch := chans[ch].(member := CreateRespPend)];
      } else {
        v42ConnCallbackPend := v42ConnCallbackPend + [ch];
        chans := chans[ch := chans[ch].(member := V42ConnCallbackPend)];
      }
    }

    /** The requests to create channels; `v42` says what the server's protocol is. Stops when the queue
        is full. */
    method SendCreates(v42: bool) returns (laborPending: bool, ghost count: nat)
      requires Placed(View())
      modifies this`createReqPend, this`createRespPend, this`v42ConnCallbackPend, this`chans
      ensures Placed(View())
      ensures View() == MoveSome(old(View()), CreateReqPend, if v42 then CreateRespPend else V42ConnCallbackPend, [],
        count)
      ensures !laborPending ==> createReqPend == []
    {
      laborPending, count := false, 0;
      ghost var to := if v42 then CreateRespPend else V42ConnCallbackPend;
      var blocked := false;
      while createReqPend != [] && !blocked
        invariant Placed(View()) && View() == MoveSome(old(View()), CreateReqPend, to, [], count)
        invariant blocked ==> laborPending
        decreases |createReqPend|
      {
        var ch := TakeCreate(v42);
        if !v42 { laborPending := true; }
        count := count + 1;
        blocked := FlushBlockThreshold();
        if blocked { laborPending := true; }
      }
    }

    method TakeSubscription() returns (ch: nat)
      requires Placed(View()) && subscripReqPend != []
      modifies this`subscripReqPend, this`connectedList, this`chans
      ensures Placed(View()) && View() == MoveFirst(old(View()), SubscripReqPend, Connected, [])
        && |subscripReqPend| == |old(subscripReqPend)| - 1
    {
      TakesFirst(View(), SubscripReqPend, Connected, []);
      ch := ShiftSubscription();
    }

    method ShiftSubscription() returns (ch: nat)
      requires subscripReqPend != [] && subscripReqPend[0] in chans
      modifies this`subscripReqPend, this`connectedList, this`chans
      ensures ch == old(subscripReqPend)[0] && |subscripReqPend| == |old(subscripReqPend)| - 1
      ensures View() == FirstMoved(old(View()), SubscripReqPend, Connected)
    {
      ch := subscripReqPend[0];
      subscripReqPend := subscripReqPend[1..];
      connectedList := connectedList + [ch];
      chans := chans[ch := chans[ch].(member := Connected)];
    }

    method TakeUpdate() returns (ch: nat)
      requires Placed(View()) && subscripUpdateReqPend != []
      modifies this`subscripUpdateReqPend, this`connectedList, this`chans
      ensures Placed(View()) && View() == MoveFirst(old(View()), SubscripUpdateReqPend, Connected, [])
        && |subscripUpdateReqPend| == |old(subscripUpdateReqPend)| - 1
    {
      TakesFirst(View(), SubscripUpdateReqPend, Connected, []);
      ch := ShiftUpdate();
    }

    method ShiftUpdate() returns (ch: nat)
      requires subscripUpdateReqPend != [] && subscripUpdateReqPend[0] in chans
      modifies this`subscripUpdateReqPend, this`connectedList, this`chans
      ensures ch == old(subscripUpdateReqPend)[0] && |subscripUpdateReqPend| == |old(subscripUpdateReqPend)| - 1
      ensures View() == FirstMoved(old(View()), SubscripUpdateReqPend, Connected)
    {
      ch := subscripUpdateReqPend[0];
      subscripUpdateReqPend := subscripUpdateReqPend[1..];
      connectedList := connectedList + [ch];
      chans := chans[ch := chans[ch].(member := Connected)];
    }

    method SendSubscriptions() returns (laborPending: bool, ghost count: nat)
      requires Placed(View())
      modifies this`subscripReqPend, this`connectedList, this`chans
      ensures View() == MoveSome(old(View()), SubscripReqPend, Connected, [], count)
      ensures !laborPending ==> subscripReqPend == []
    {
      laborPending, count := false, 0;
      while subscripReqPend != [] && !laborPending
        invariant Placed(View()) && View() == MoveSome(old(View()), SubscripReqPend, Connected, [], count)
        decreases |subscripReqPend|
      {
        var ch := TakeSubscription();
        count := count + 1;
        laborPending := FlushBlockThreshold();
      }
    }

    method SendUpdates() returns (laborPending: bool, ghost count: nat)
      requires Placed(View())
      modifies this`subscripUpdateReqPend, this`connectedList, this`chans
      ensures View() == MoveSome(old(View()), SubscripUpdateReqPend, Connected, [], count)
      ensures !laborPending ==> subscripUpdateReqPend == []
    {
      laborPending, count := false, 0;
      while subscripUpdateReqPend != [] && !laborPending
        invariant Placed(View()) && View() == MoveSome(old(View()), SubscripUpdateReqPend, Connected, [], count)
        decreases |subscripUpdateReqPend|
      {
        var ch := TakeUpdate();
        count := count + 1;
        laborPending := FlushBlockThreshold();
      }
    }

    // ----- the circuit stops responding, responds again, goes

    method TakeConnected() returns (ch: nat)
      requires Placed(View()) && connectedList != []
      modifies this`connectedList, this`unrespCircuit, this`chans, this`outstanding
      ensures Placed(View()) && View() == MoveFirst(old(View()), Connected, UnrespCircuit, [Down])
        && |connectedList| == |old(connectedList)| - 1
    {
      TakesFirst(View(), Connected, UnrespCircuit, [Down]);
      ch := ShiftConnected();
      NotifyDisconnect(ch);
    }

    method ShiftConnected() returns (ch: nat)
      requires connectedList != [] && connectedList[0] in chans
      modifies this`connectedList, this`unrespCircuit, this`chans
      ensures ch == old(connectedList)[0] && |connectedList| == |old(connectedList)| - 1
      ensures View() == FirstMoved(old(View()), Connected, UnrespCircuit)
    {
      ch := connectedList[0];
      connectedList := connectedList[1..];
      unrespCircuit := unrespCircuit + [ch];
      chans := chans[ch := chans[ch].(member := UnrespCircuit)];
    }

    method TakeUnresponsive() returns (ch: nat)
      requires Placed(View()) && unrespCircuit != []
      modifies this`unrespCircuit, this`subscripUpdateReqPend, this`chans, this`outstanding
      ensures Placed(View()) && View() == MoveFirst(old(View()), UnrespCircuit, SubscripUpdateReqPend, [Up])
        && |unrespCircuit| == |old(unrespCircuit)| - 1
    {
      TakesFirst(View(), UnrespCircuit, SubscripUpdateReqPend, [Up]);
      ch := ShiftUnresponsive();
      NotifyConnect(ch);
    }

    method ShiftUnresponsive() returns (ch: nat)
      requires unrespCircuit != [] && unrespCircuit[0] in chans
      modifies this`unrespCircuit, this`subscripUpdateReqPend, this`chans
      ensures ch == old(unrespCircuit)[0] && |unrespCircuit| == |old(unrespCircuit)| - 1
      ensures View() == FirstMoved(old(View()), UnrespCircuit, SubscripUpdateReqPend)
    {
      ch := unrespCircuit[0];
      unrespCircuit := unrespCircuit[1..];
      subscripUpdateReqPend := subscripUpdateReqPend + [ch];
      chans := chans[ch := chans[ch].(member := SubscripUpdateReqPend)];
    }

    method UnresponsiveCircuitNotify() returns (ghost count: nat)
      requires Placed(View())
      modifies this`unresponsiveCircuit, this`connectedList, this`unrespCircuit, this`chans, this`outstanding
      ensures unresponsiveCircuit && View() == MoveSome(old(View()), Connected, UnrespCircuit, [Down], count)
      ensures if old(unresponsiveCircuit) then View() == old(View()) else connectedList == []
    {
      count := 0;
      if !unresponsiveCircuit {
        unresponsiveCircuit := true;
        while connectedList != []
          invariant Placed(View()) && View() == MoveSome(old(View()), Connected, UnrespCircuit, [Down], count)
          invariant unresponsiveCircuit
          decreases |connectedList|
        {
          var ch := TakeConnected();
          count := count + 1;
        }
      }
    }

    /** The channels' types were valid when they connected, so connecting them again does not throw. */
    method ResponsiveCircuitNotify() returns (ghost count: nat)
      requires Placed(View())
      modifies this`unresponsiveCircuit, this`unrespCircuit, this`subscripUpdateReqPend, this`chans, this`outstanding
      ensures !unresponsiveCircuit && View() == MoveSome(old(View()), UnrespCircuit, SubscripUpdateReqPend, [Up], count)
      ensures if old(unresponsiveCircuit) then unrespCircuit == [] else View() == old(View())
    {
      count := 0;
      if unresponsiveCircuit {
        unresponsiveCircuit := false;
        while unrespCircuit != []
          invariant Placed(View()) && View() == MoveSome(old(View()), UnrespCircuit, SubscripUpdateReqPend, [Up], count)
          invariant !unresponsiveCircuit
          decreases |unrespCircuit|
        {
          var ch := TakeUnresponsive();
          count := count + 1;
        }
      }
    }

    /** Back to being searched for. */
    method InstallDisconnectedChannel(ch: nat)
      requires ch in chans
      modifies this`chans
      ensures chans == old(chans)[ch := old(chans)[ch].(member := NotInCircuit, typed := false)]
    {
      chans := chans[ch := chans[ch].(member := NotInCircuit, typed := false)];
    }

    /** Takes the first channel off a list. */
    method GetFirst(from: ListId) returns (ch: nat)
      requires View().lists.Get(from) != []
      modifies this
      ensures ch == old(View()).lists.Get(from)[0] && unresponsiveCircuit == old(unresponsiveCircuit)
      ensures View() == old(View()).(lists := old(View()).lists.With(from, old(View()).lists.Get(from)[1..]))
    {
      match from {
        case CreateReqPend => ch, createReqPend := createReqPend[0], createReqPend[1..];
        case CreateRespPend => ch, createRespPend := createRespPend[0], createRespPend[1..];
        case V42ConnCallbackPend => ch, v42ConnCallbackPend := v42ConnCallbackPend[0], v42ConnCallbackPend[1..];
        case SubscripReqPend => ch, subscripReqPend := subscripReqPend[0], subscripReqPend[1..];
        case Connected => ch, connectedList := connectedList[0], connectedList[1..];
        case UnrespCircuit => ch, unrespCircuit := unrespCircuit[0], unrespCircuit[1..];
        case SubscripUpdateReqPend => ch, subscripUpdateReqPend := subscripUpdateReqPend[0], subscripUpdateReqPend[1..];
      }
    }

    method IsEmpty(l: ListId) returns (empty: bool)
      ensures empty == (View().lists.Get(l) == [])
    {
      empty := Lists(createReqPend, createRespPend, v42ConnCallbackPend, subscripReqPend, connectedList, unrespCircuit,
                     subscripUpdateReqPend).Get(l) == [];
    }

    method DropFirst(from: ListId)
      requires InLists(View()) && View().lists.Get(from) != []
      modifies this
      ensures View() == GoneFirst(old(View()), from) && InLists(View())
      ensures Drained(View(), from) == Drained(old(View()), from)
      ensures |View().lists.Get(from)| < |old(View()).lists.Get(from)|
    {
      DropsFirst(View(), from);
      var ch := GetFirst(from);
      InstallDisconnectedChannel(ch);
      if from == SubscripReqPend || from == Connected || from == SubscripUpdateReqPend { NotifyDisconnect(ch); }
    }

    method Drop(from: ListId)
      requires InLists(View())
      modifies this
      ensures View() == Drained(old(View()), from)
    {
      var empty := IsEmpty(from);
      while !empty
        invariant InLists(View()) && Drained(View(), from) == Drained(old(View()), from)
        invariant empty == (View().lists.Get(from) == [])
        decreases |View().lists.Get(from)|
      {
        DropFirst(from);
        empty := IsEmpty(from);
      }
    }

    method DisconnectAllChannels()
      requires InLists(View())
      modifies this
      ensures View() == AllGone(old(View()))
    {
      Drop(CreateReqPend);
      Drop(CreateRespPend);
      Drop(V42ConnCallbackPend);
      Drop(SubscripReqPend);
      Drop(Connected);
      Drop(UnrespCircuit);
      Drop(SubscripUpdateReqPend);
      channelCountTot := 0;
    }
  }

  /** What taking the first channel of a list, adding it to another, and telling its user comes to. */
  lemma TakesFirst(s: State, from: ListId, to: ListId, tell: seq<Notice>)
    requires Placed(s) && from != NotInCircuit && to != NotInCircuit && s.lists.Get(from) != []
    ensures s.lists.Get(from)[0] in s.chans && Placed(MoveFirst(s, from, to, tell))
    ensures var moved := FirstMoved(s, from, to);
      MoveFirst(s, from, to, tell) == if tell == [] then moved else Tell(moved, s.lists.Get(from)[0], tell[0])
  {
    var ch := s.lists.Get(from)[0];
    assert ch in s.lists.Get(from);
    MoveIs(s, ch, to);
    MoveFirstKeepsPlaces(s, from, to, tell);
  }

  lemma {:induction false} MovedOnce(s: State, ch: nat, to: ListId)
    requires ch in s.chans && s.chans[ch].member != to
    ensures var from := s.chans[ch].member;
      var left := s.lists.With(from, Remove(s.lists.Get(from), ch));
      Move(s, ch, to)
        == s.(lists := left.With(to, s.lists.Get(to) + [ch]), chans := s.chans[ch := s.chans[ch].(member := to)])
  {
    MoveEntry(s, ch, to);
  }

  lemma DropsIs(s: State, from: ListId)
    requires InLists(s) && s.lists.Get(from) != []
    ensures var l := s.lists.Get(from);
      var left := s.(lists := s.lists.With(from, l[1..]),
                     chans := s.chans[l[0] := s.chans[l[0]].(member := NotInCircuit, typed := false)]);
      l[0] in s.chans && GoneFirst(s, from) == (if ToldUp(from) then Tell(left, l[0], Down) else left)
  {
    var ch := s.lists.Get(from)[0];
    assert ch in s.lists.Get(from);
    LeaveEntry(s, ch);
    GoneFirstLeaves(s, from, ch);
  }

  lemma {:induction false} DropsFirst(s: State, from: ListId)
    requires InLists(s) && s.lists.Get(from) != []
    ensures var l := s.lists.Get(from);
      var left := s.(lists := s.lists.With(from, l[1..]),
                     chans := s.chans[l[0] := s.chans[l[0]].(member := NotInCircuit, typed := false)]);
      && l[0] in s.chans && InLists(GoneFirst(s, from))
      && GoneFirst(s, from) == (if ToldUp(from) then Tell(left, l[0], Down) else left)
      && Drained(GoneFirst(s, from), from) == Drained(s, from)
      && |GoneFirst(s, from).lists.Get(from)| < |l|
  {
    DropsIs(s, from);
    GoneFirstKeepsLists(s, from);
  }
}
