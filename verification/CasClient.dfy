/** The channels of a client in the server as creation, the access security callback, the event task and
    clearing change them under the lock: the two lists of ServerChannels, in place. */
module CasClient {
  import opened Wrappers
  import opened Queues
  import opened ServerChannels

  class Channels {
    var chans: seq<Chan>
    var chanList: seq<nat>
    var chanPendingUpdateARList: seq<nat>

    /** The lists with the lock free. */
    ghost function View(): State
      reads this
    {
      State(chans, chanList, chanPendingUpdateARList, None)
    }

    ghost predicate Valid()
      reads this
    {
      Listed(View()) && AllTold(View())
    }

    constructor ()
      ensures Valid() && View() == State([], [], [], None)
    {
      chans, chanList, chanPendingUpdateARList := [], [], [];
    }

    method CreateChannel(rights: nat)
      requires Valid()
      modifies this
      ensures Valid() && View() == Created(old(View()), rights)
    {
      CreatedKeeps(View(), rights);
      var ch := |chans|;
      chans := chans + [Chan(Zeroed, rights, None, false, false, false, 0)];
      chans := chans[ch := chans[ch].(state := PendConnectResp)];
      chanList := chanList + [ch];
    }

    /** Access security reports that the rights of the channel have changed. */
    method AccessRightsCB(ch: nat)
      requires Valid() && ch < |chans| && chans[ch].calling
      modifies this
      ensures Valid() && View() == CalledBack(old(View()), ch)
    {
      CallbackKeeps(View(), ch);
      var c := chans[ch].(calling := false);
      if c.state == PendConnectResp {
        chanList := Remove(chanList, ch);
        chans := chans[ch := c.(state := PendConnectRespUpdatePendAR)];
        chanPendingUpdateARList := chanPendingUpdateARList + [ch];
      } else if c.state == InService {
        chanList := Remove(chanList, ch);
        chans := chans[ch := c.(state := InServiceUpdatePendAR)];
        chanPendingUpdateARList := chanPendingUpdateARList + [ch];
      } else {
        chans := chans[ch := c];
      }
    }

    /** The event task tells the client of one pending channel; a channel in another state would be
        corrupt, and there is none. */
    method UpdateFirst()
      requires Valid() && chanPendingUpdateARList != []
      modifies this
      ensures Valid() && View() == UpdatedFirst(old(View()))
      ensures |chanPendingUpdateARList| == |old(chanPendingUpdateARList)| - 1
    {
      UpdateKeeps(View());
      TellFirst();
    }

    method TellFirst()
      requires Listed(View()) && chanPendingUpdateARList != [] && chanPendingUpdateARList[0] < |chans|
        && Pending(chans[chanPendingUpdateARList[0]].state)
      modifies this
      ensures View() == UpdatedFirst(old(View()))
      ensures |chanPendingUpdateARList| == |old(chanPendingUpdateARList)| - 1
    {
      var ch := chanPendingUpdateARList[0];
      chanPendingUpdateARList := chanPendingUpdateARList[1..];
      var c := chans[ch];
      if c.state == PendConnectRespUpdatePendAR {
        c := c.(sent := Some(c.rights), created := c.created + 1);
      } else {
        assert c.state == InServiceUpdatePendAR;
        c := c.(sent := Some(c.rights));
      }
      chans := chans[ch := c.(state := InService)];
      chanList := chanList + [ch];
    }

    /** All of them, in order; afterwards none is pending. */
    method SendAllUpdateAS()
      requires Valid()
      modifies this
      ensures Valid() && chanPendingUpdateARList == [] && View() == AllUpdated(old(View()))
      ensures forall ch | 0 <= ch < |chans| :: !Pending(chans[ch].state)
    {
      while chanPendingUpdateARList != []
        invariant Valid() && AllUpdated(View()) == AllUpdated(old(View()))
        decreases |chanPendingUpdateARList|
      {
        UpdateFirst();
      }
      NonePending(View());
    }

    method ClearChannel(ch: nat)
      requires Valid() && ch < |chans| && Enabled(View(), Clear(ch))
      modifies this
      ensures Valid() && View() == Cleared(old(View()), ch)
    {
      ClearKeeps(View(), ch);
      var c := chans[ch];
      if c.state == InService || c.state == PendConnectResp {
        chanList := Remove(chanList, ch);
      } else if c.state == InServiceUpdatePendAR || c.state == PendConnectRespUpdatePendAR {
        chanPendingUpdateARList := Remove(chanPendingUpdateARList, ch);
      } else if c.state != Shutdown {
        // The channel is in a strange state.
        assert false;
      }
      chans := chans[ch := c.(state := Shutdown, registered := false, calling := false)];
    }
  }

  /** Allocated, and then entered into the list under the lock. */
  ghost function Created(s: State, rights: nat): State
    requires Listed(s) && s.replying.None?
  {
    Next(Next(s, Allocate(rights)), Enlist(|s.chans|))
  }

  lemma CreatedKeeps(s: State, rights: nat)
    requires Listed(s) && AllTold(s) && s.replying.None?
    ensures Listed(Created(s, rights)) && AllTold(Created(s, rights))
  {
    AllocateKeeps(s, rights);
    EnlistKeeps(Next(s, Allocate(rights)), |s.chans|);
  }

  /** The two steps the event task makes for a channel. */
  ghost function UpdatedFirst(s: State): State
    requires Listed(s) && s.replying.None? && s.pendingList != []
  {
    Next(Next(s, Reply), Finish)
  }

  lemma UpdateKeeps(s: State)
    requires Listed(s) && AllTold(s) && s.replying.None? && s.pendingList != []
    ensures Listed(UpdatedFirst(s)) && AllTold(UpdatedFirst(s)) && UpdatedFirst(s).replying.None?
    ensures UpdatedFirst(s).pendingList == s.pendingList[1..]
    ensures s.pendingList[0] < |s.chans| && Pending(s.chans[s.pendingList[0]].state)
  {
    ReplyKeeps(s);
    FinishKeeps(Next(s, Reply));
    assert s.pendingList[0] in s.pendingList;
  }

  ghost function AllUpdated(s: State): State
    requires Listed(s) && AllTold(s) && s.replying.None?
    decreases |s.pendingList|
  {
    if s.pendingList == [] then s
    else
      UpdateKeeps(s);
      AllUpdated(UpdatedFirst(s))
  }

  lemma NonePending(s: State)
    requires Listed(s) && s.replying.None? && s.pendingList == []
    ensures forall ch | 0 <= ch < |s.chans| :: !Pending(s.chans[ch].state)
  {
    forall ch | 0 <= ch < |s.chans| ensures !Pending(s.chans[ch].state) {
      assert ch !in s.pendingList;
    }
  }
}
