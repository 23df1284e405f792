/** The Channel Access client's bookkeeping of the channels of one virtual circuit: seven lists and
    the moves between them, the connect and disconnect notifications those moves send, and the
    count of outstanding I/O that callers without a connection callback wait for. */
module ChannelLists {
  import opened Queues

  datatype ListId = NotInCircuit | CreateReqPend | CreateRespPend | V42ConnCallbackPend
                  | SubscripReqPend | Connected | UnrespCircuit | SubscripUpdateReqPend

  datatype Lists = Lists(createReqPend: seq<nat>, createRespPend: seq<nat>, v42ConnCallbackPend: seq<nat>,
                         subscripReqPend: seq<nat>, connectedList: seq<nat>, unrespCircuit: seq<nat>,
                         subscripUpdateReqPend: seq<nat>)
  {
    function Get(l: ListId): seq<nat>
    {
      match l
      case NotInCircuit => []
      case CreateReqPend => createReqPend
      case CreateRespPend => createRespPend
      case V42ConnCallbackPend => v42ConnCallbackPend
      case SubscripReqPend => subscripReqPend
      case Connected => connectedList
      case UnrespCircuit => unrespCircuit
      case SubscripUpdateReqPend => subscripUpdateReqPend
    }

    function With(l: ListId, v: seq<nat>): (r: Lists)
      ensures forall k | k != l :: r.Get(k) == Get(k)
      ensures l != NotInCircuit ==> r.Get(l) == v && r.Lengths() == Lengths() - |Get(l)| + |v|
    {
      match l
      case NotInCircuit => this
      case CreateReqPend => this.(createReqPend := v)
      case CreateRespPend => this.(createRespPend := v)
      case V42ConnCallbackPend => this.(v42ConnCallbackPend := v)
      case SubscripReqPend => this.(subscripReqPend := v)
      case Connected => this.(connectedList := v)
      case UnrespCircuit => this.(unrespCircuit := v)
      case SubscripUpdateReqPend => this.(subscripUpdateReqPend := v)
    }

    function Lengths(): nat
    {
      |createReqPend| + |createRespPend| + |v42ConnCallbackPend| + |subscripReqPend| + |connectedList| + |unrespCircuit|
        + |subscripUpdateReqPend|
    }
  }

  datatype Notice = Up | Down

  /** `member` is the list the channel says it is in, `connected` what its user was last told and
      `before` whether it was ever told of a connection, `typed` whether its native type is a valid
      one, `notices` all it was told so far. */
  datatype Chan = Chan(member: ListId, hasCallback: bool, connected: bool, before: bool, typed: bool,
                       notices: seq<Notice>)

  datatype State = State(lists: Lists, chans: map<nat, Chan>, total: int, outstanding: int)

  // ----- the lists

  ghost predicate InLists(s: State)
  {
    && (forall l :: NoDuplicates(s.lists.Get(l)))
    && (forall l, ch | ch in s.lists.Get(l) :: ch in s.chans && s.chans[ch].member == l)
    && (forall ch | ch in s.chans && s.chans[ch].member != NotInCircuit :: ch in s.lists.Get(s.chans[ch].member))
  }

  /** The channel leaves its list, if it is in one. */
  function Leave(s: State, ch: nat): State
    requires ch in s.chans
  {
    var from := s.chans[ch].member;
    s.(lists := s.lists.With(from, Remove(s.lists.Get(from), ch)),
      chans := s.chans[ch := s.chans[ch].(member := NotInCircuit)])
  }

  /** The channel joins the end of a list. */
  function Join(s: State, ch: nat, to: ListId): State
    requires ch in s.chans
  {
    s.(lists := s.lists.With(to, s.lists.Get(to) + [ch]), chans := s.chans[ch := s.chans[ch].(member := to)])
  }

  function Move(s: State, ch: nat, to: ListId): State
    requires ch in s.chans
  {
    Join(Leave(s, ch), ch, to)
  }

  lemma LeaveKeepsLists(s: State, ch: nat)
    requires InLists(s) && ch in s.chans
    ensures InLists(Leave(s, ch))
    ensures Leave(s, ch).lists.Lengths() == s.lists.Lengths() - if s.chans[ch].member == NotInCircuit then 0 else 1
  {
    Removed(s.lists.Get(s.chans[ch].member), ch);
  }

  lemma JoinKeepsLists(s: State, ch: nat, to: ListId)
    requires InLists(s) && ch in s.chans && s.chans[ch].member == NotInCircuit && to != NotInCircuit
    ensures InLists(Join(s, ch, to)) && Join(s, ch, to).lists.Lengths() == s.lists.Lengths() + 1
  {
  }

  // ----- notifications and outstanding I/O

  predicate Alternate(notices: seq<Notice>)
  {
    forall i | 0 <= i < |notices| :: notices[i] == if i % 2 == 0 then Up else Down
  }

  predicate ToldUp(l: ListId) { l == SubscripReqPend || l == Connected || l == SubscripUpdateReqPend }

  /** What the user was told is what the lists say, and the notices strictly alternate. */
  ghost predicate ChanTold(c: Chan)
  {
    && (c.connected <==> ToldUp(c.member))
    && (c.connected || c.member == UnrespCircuit ==> c.typed)
    && Alternate(c.notices) && (c.connected <==> |c.notices| % 2 == 1) && (c.before <==> c.notices != [])
  }

  ghost predicate Told(s: State)
  {
    forall ch | ch in s.chans :: ChanTold(s.chans[ch])
  }

  predicate Owes(c: Chan) { !c.hasCallback && !c.connected }

  /** The channels somebody waits for: no callback, and not connected. */
  function Owing(s: State): set<nat>
  {
    set ch | ch in s.chans && Owes(s.chans[ch])
  }

  ghost predicate Counted(s: State)
  {
    s.outstanding == |Owing(s)|
  }

  function Tell(s: State, ch: nat, n: Notice): State
    requires ch in s.chans
  {
    var c := s.chans[ch];
    s.(chans := s.chans[ch := c.(connected := n == Up, before := c.before || n == Up, notices := c.notices + [n])],
       outstanding := if c.hasCallback then s.outstanding else if n == Up then s.outstanding - 1 else s.outstanding + 1)
  }

  /** The owed count after one channel's entry is replaced. */
  lemma OwingChanges(s: State, s': State, ch: nat)
    requires s.chans.Keys + {ch} == s'.chans.Keys + {ch}
    requires forall k | k in s.chans && k != ch :: s'.chans[k] == s.chans[k]
    ensures |Owing(s')| == |Owing(s)|
      + (if ch in s'.chans && Owes(s'.chans[ch]) then 1 else 0) - (if ch in s.chans && Owes(s.chans[ch]) then 1 else 0)
  {
    forall k | k != ch ensures k in Owing(s) <==> k in Owing(s') {
      assert k in s.chans <==> k in s'.chans by {
        assert k in s.chans.Keys + {ch} <==> k in s'.chans.Keys + {ch};
      }
    }
    Swapped(Owing(s), Owing(s'), ch);
  }

  lemma Swapped(a: set<nat>, b: set<nat>, x: nat)
    requires forall k | k != x :: k in a <==> k in b
    ensures |b| == |a| + (if x in b then 1 else 0) - (if x in a then 1 else 0)
  {
    var rest := a - {x};
    assert b - {x} == rest;
    assert a == if x in a then rest + {x} else rest;
    assert b == if x in b then rest + {x} else rest;
  }

  // ----- the steps

  datatype Action =
    | Create(ch: nat, hasCallback: bool)
    | ChangeCallback(ch: nat, hasCallback: bool)
    | Destroy(ch: nat)
    | Install(ch: nat, validType: bool)
    | SendCreate(v42: bool)
    | SendSubscribe
    | SendUpdate
    | ConnectReply(ch: nat, validType: bool)
    | LegacyConnect
    | Unresponsive
    | Responsive
    | DisconnectAll

  /** What callers must see to: a new channel is new, the others exist, and only a channel that is in
      no circuit is installed in one. */
  ghost predicate Enabled(s: State, a: Action)
  {
    match a
    case Create(ch, _) => ch !in s.chans
    case ChangeCallback(ch, _) => ch in s.chans
    case Destroy(ch) => ch in s.chans
    case Install(ch, _) => ch in s.chans && s.chans[ch].member == NotInCircuit
    case ConnectReply(ch, _) => ch in s.chans
    case _ => true
  }

  function Created(s: State, ch: nat, hasCallback: bool): State
  {
    s.(chans := s.chans[ch := Chan(NotInCircuit, hasCallback, false, false, false, [])],
       outstanding := if hasCallback then s.outstanding else s.outstanding + 1)
  }

  /** A channel that is not connected moves its outstanding I/O with its callback. */
  function CallbackChanged(s: State, ch: nat, hasCallback: bool): State
    requires ch in s.chans
  {
    var c := s.chans[ch];
    var owed := if c.connected || c.hasCallback == hasCallback then 0 else if hasCallback then -1 else 1;
    s.(chans := s.chans[ch := c.(hasCallback := hasCallback)], outstanding := s.outstanding + owed)
  }

  /** The total goes down even for a channel that is in no list. */
  function Uninstalled(s: State, ch: nat): State
    requires ch in s.chans
  {
    Leave(s, ch).(total := s.total - 1)
  }

  /** A channel leaves the circuit it is installed in, if it is in one. */
  function Destroyed(s: State, ch: nat): State
    requires ch in s.chans
  {
    var left := if s.chans[ch].member == NotInCircuit then s else Uninstalled(s, ch);
    var owed := if Owes(s.chans[ch]) then -1 else 0;
    left.(chans := left.chans - {ch}, outstanding := left.outstanding + owed)
  }

  function Installed(s: State, ch: nat, validType: bool): State
    requires ch in s.chans
  {
    var joined := Join(s, ch, CreateReqPend);
    joined.(total := s.total + 1, chans := joined.chans[ch := joined.chans[ch].(typed := validType)])
  }

  /** The first channel of a list moves to another, and its user is told, if `tell` says so. */
  function MoveFirst(s: State, from: ListId, to: ListId, tell: seq<Notice>): State
    requires forall ch | ch in s.lists.Get(from) :: ch in s.chans
  {
    var l := s.lists.Get(from);
    if l == [] then s
    else
      var moved := Move(s, l[0], to);
      if tell == [] then moved else Tell(moved, l[0], tell[0])
  }

  predicate Awaited(l: ListId) { l == CreateRespPend || l == V42ConnCallbackPend }

  /** A channel the circuit waits for joins the subscription list; then its user is told, unless the
      native type is not a valid one: that throws after the channel has moved. */
  function Connecting(s: State, ch: nat, validType: bool): State
    requires ch in s.chans
  {
    if !Awaited(s.chans[ch].member) then s
    else
      var moved := Move(s, ch, SubscripReqPend);
      if !validType then moved
      else Tell(moved.(chans := moved.chans[ch := moved.chans[ch].(typed := true)]), ch, Up)
  }

  /** The first channel of a list goes back to being searched for, without a type; its user is told if
      it had been told of a connection. */
  function GoneFirst(s: State, from: ListId): State
    requires forall ch | ch in s.lists.Get(from) :: ch in s.chans
  {
    var l := s.lists.Get(from);
    if l == [] then s
    else
      var left := Leave(s, l[0]);
      var untyped := left.(chans := left.chans[l[0] := left.chans[l[0]].(typed := false)]);
      if ToldUp(from) then Tell(untyped, l[0], Down) else untyped
  }

  /** A whole list does. */
  function Drained(s: State, from: ListId): (r: State)
    requires InLists(s)
    ensures InLists(r) && r.lists.Get(from) == [] && forall l | l != from :: r.lists.Get(l) == s.lists.Get(l)
    decreases |s.lists.Get(from)|
  {
    if s.lists.Get(from) == [] then s
    else
      GoneFirstKeepsLists(s, from);
      Drained(GoneFirst(s, from), from)
  }

  lemma GoneFirstKeepsLists(s: State, from: ListId)
    requires InLists(s) && s.lists.Get(from) != []
    ensures var r := GoneFirst(s, from);
      InLists(r) && r.lists == s.lists.With(from, s.lists.Get(from)[1..]) && r.chans.Keys == s.chans.Keys
  {
    var ch := s.lists.Get(from)[0];
    assert ch in s.lists.Get(from);
    GoneFirstLeaves(s, from, ch);
    LeaveKeepsLists(s, ch);
    SameLists(Leave(s, ch), GoneFirst(s, from));
  }

  lemma GoneFirstLeaves(s: State, from: ListId, ch: nat)
    requires forall k | k in s.lists.Get(from) :: k in s.chans
    requires s.lists.Get(from) != [] && s.lists.Get(from)[0] == ch && ch in s.chans && s.chans[ch].member == from
    ensures var r := GoneFirst(s, from);
      && r.lists == Leave(s, ch).lists == s.lists.With(from, s.lists.Get(from)[1..])
      && r.chans.Keys == Leave(s, ch).chans.Keys == s.chans.Keys
      && forall k | k in r.chans :: r.chans[k].member == Leave(s, ch).chans[k].member
  {
  }

  /** Changing what a channel remembers, but not its list, moves nothing. */
  lemma SameLists(s: State, s': State)
    requires InLists(s) && s'.lists == s.lists && s'.chans.Keys == s.chans.Keys
    requires forall ch | ch in s.chans :: s'.chans[ch].member == s.chans[ch].member
    ensures InLists(s')
  {
    assert forall ch :: ch in s'.chans <==> ch in s'.chans.Keys;
    assert forall ch :: ch in s.chans <==> ch in s.chans.Keys;
  }

  /** The circuit goes: every list, in the order the code takes them. */
  function AllGone(s: State): State
    requires InLists(s)
  {
    var s1 := Drained(Drained(Drained(s, CreateReqPend), CreateRespPend), V42ConnCallbackPend);
    var s2 := Drained(Drained(Drained(Drained(s1, SubscripReqPend), Connected), UnrespCircuit), SubscripUpdateReqPend);
    s2.(total := 0)
  }

  ghost function Next(s: State, a: Action): State
    requires InLists(s) && Enabled(s, a)
  {
    match a
    case Create(ch, hasCallback) => Created(s, ch, hasCallback)
    case ChangeCallback(ch, hasCallback) => CallbackChanged(s, ch, hasCallback)
    case Destroy(ch) => Destroyed(s, ch)
    case Install(ch, validType) => Installed(s, ch, validType)
    case SendCreate(v42) => MoveFirst(s, CreateReqPend, if v42 then CreateRespPend else V42ConnCallbackPend, [])
    case SendSubscribe => MoveFirst(s, SubscripReqPend, Connected, [])
    case SendUpdate => MoveFirst(s, SubscripUpdateReqPend, Connected, [])
    case ConnectReply(ch, validType) => Connecting(s, ch, validType)
    case LegacyConnect =>
      var l := s.lists.Get(V42ConnCallbackPend);
      if l == [] then s else Connecting(s, l[0], s.chans[l[0]].typed)
    case Unresponsive => MoveFirst(s, Connected, UnrespCircuit, [Down])
    case Responsive => MoveFirst(s, UnrespCircuit, SubscripUpdateReqPend, [Up])
    case DisconnectAll => AllGone(s)
  }

  /** The reply is accepted, but the channel's native type is not a valid one. */
  ghost predicate Throws(s: State, a: Action)
    requires InLists(s) && Enabled(s, a)
  {
    match a
    case ConnectReply(ch, validType) => Awaited(s.chans[ch].member) && !validType
    case LegacyConnect =>
      var l := s.lists.Get(V42ConnCallbackPend);
      l != [] && Awaited(s.chans[l[0]].member) && !s.chans[l[0]].typed
    case _ => false
  }

  // ----- what every step keeps

  /** The lists are exact whatever happens: every installed channel is in exactly one list, the one it
      names, and the total is the number of channels in the lists. */
  ghost predicate Placed(s: State)
  {
    InLists(s) && s.total == s.lists.Lengths()
  }

  lemma MoveKeepsPlaces(s: State, ch: nat, to: ListId)
    requires Placed(s) && ch in s.chans && s.chans[ch].member != NotInCircuit && to != NotInCircuit
    ensures Placed(Move(s, ch, to))
  {
    LeaveKeepsLists(s, ch);
    JoinKeepsLists(Leave(s, ch), ch, to);
  }

  lemma SamePlaces(s: State, s': State)
    requires Placed(s) && s'.lists == s.lists && s'.total == s.total && s'.chans.Keys == s.chans.Keys
    requires forall ch | ch in s.chans :: s'.chans[ch].member == s.chans[ch].member
    ensures Placed(s')
  {
    SameLists(s, s');
  }

  lemma MoveFirstKeepsPlaces(s: State, from: ListId, to: ListId, tell: seq<Notice>)
    requires Placed(s) && from != NotInCircuit && to != NotInCircuit
    ensures Placed(MoveFirst(s, from, to, tell))
  {
    var l := s.lists.Get(from);
    if l != [] {
      MoveKeepsPlaces(s, l[0], to);
      if tell != [] { SamePlaces(Move(s, l[0], to), MoveFirst(s, from, to, tell)); }
    }
  }

  lemma ConnectingKeepsPlaces(s: State, ch: nat, validType: bool)
    requires Placed(s) && ch in s.chans
    ensures Placed(Connecting(s, ch, validType))
  {
    if Awaited(s.chans[ch].member) {
      MoveKeepsPlaces(s, ch, SubscripReqPend);
      SamePlaces(Move(s, ch, SubscripReqPend), Connecting(s, ch, validType));
    }
  }

  /** A channel in no list can go. */
  lemma DropKeepsPlaces(s: State, s': State, ch: nat)
    requires Placed(s) && ch in s.chans && s.chans[ch].member == NotInCircuit
    requires s'.lists == s.lists && s'.total == s.total && s'.chans == s.chans - {ch}
    ensures Placed(s')
  {
  }

  /** Uninstalling leaves the lists exact; the total is right exactly when the channel was installed. */
  lemma UninstallKeepsPlaces(s: State, ch: nat)
    requires Placed(s) && ch in s.chans
    ensures InLists(Uninstalled(s, ch)) && (Placed(Uninstalled(s, ch)) <==> s.chans[ch].member != NotInCircuit)
    ensures Uninstalled(s, ch).chans == s.chans[ch := s.chans[ch].(member := NotInCircuit)]
  {
    LeaveKeepsLists(s, ch);
  }

  lemma DestroyKeepsPlaces(s: State, ch: nat)
    requires Placed(s) && ch in s.chans
    ensures Placed(Destroyed(s, ch))
  {
    UninstallKeepsPlaces(s, ch);
    var left := if s.chans[ch].member == NotInCircuit then s else Uninstalled(s, ch);
    DropKeepsPlaces(left, Destroyed(s, ch), ch);
  }

  lemma InstallKeepsPlaces(s: State, ch: nat, validType: bool)
    requires Placed(s) && ch in s.chans && s.chans[ch].member == NotInCircuit
    ensures Placed(Installed(s, ch, validType))
  {
    JoinKeepsLists(s, ch, CreateReqPend);
    var joined := Join(s, ch, CreateReqPend);
    SamePlaces(joined.(total := s.total + 1), Installed(s, ch, validType));
  }

  lemma {:induction false} DrainedHas(s: State, from: ListId, l: ListId)
    requires InLists(s)
    ensures Drained(s, from).lists.Get(l) == if l == from then [] else s.lists.Get(l)
  {
  }

  lemma {:induction false} FirstThreeEmpty(s: State, l: ListId)
    requires InLists(s)
    ensures Drained(Drained(Drained(s, CreateReqPend), CreateRespPend), V42ConnCallbackPend).lists.Get(l)
      == if l == CreateReqPend || l == CreateRespPend || l == V42ConnCallbackPend then [] else s.lists.Get(l)
  {
    DrainedHas(s, CreateReqPend, l);
    DrainedHas(Drained(s, CreateReqPend), CreateRespPend, l);
    DrainedHas(Drained(Drained(s, CreateReqPend), CreateRespPend), V42ConnCallbackPend, l);
  }

  lemma {:induction false} LastFourEmpty(s: State, l: ListId)
    requires InLists(s)
    ensures Drained(Drained(Drained(Drained(s, SubscripReqPend), Connected), UnrespCircuit), SubscripUpdateReqPend)
      .lists.Get(l)
      == if ToldUp(l) || l == UnrespCircuit then [] else s.lists.Get(l)
  {
    var s1 := Drained(s, SubscripReqPend);
    DrainedHas(s, SubscripReqPend, l);
    DrainedHas(s1, Connected, l);
    DrainedHas(Drained(s1, Connected), UnrespCircuit, l);
    DrainedHas(Drained(Drained(s1, Connected), UnrespCircuit), SubscripUpdateReqPend, l);
  }

  lemma NoneLeft(s: State, l: ListId)
    requires InLists(s)
    ensures AllGone(s).lists.Get(l) == []
  {
    FirstThreeEmpty(s, l);
    LastFourEmpty(Drained(Drained(Drained(s, CreateReqPend), CreateRespPend), V42ConnCallbackPend), l);
  }

  lemma GoneKeepsLists(s: State)
    requires InLists(s)
    ensures InLists(AllGone(s)) && AllGone(s).total == 0
  {
    var s1 := Drained(Drained(Drained(s, CreateReqPend), CreateRespPend), V42ConnCallbackPend);
    var s2 := Drained(Drained(Drained(Drained(s1, SubscripReqPend), Connected), UnrespCircuit), SubscripUpdateReqPend);
    SameLists(s2, AllGone(s));
  }

  lemma GoneKeepsPlaces(s: State)
    requires InLists(s)
    ensures Placed(AllGone(s))
  {
    GoneKeepsLists(s);
    forall l ensures AllGone(s).lists.Get(l) == [] {
      NoneLeft(s, l);
    }
    NoneListed(AllGone(s).lists);
  }

  lemma NoneListed(lists: Lists)
    requires forall l :: lists.Get(l) == []
    ensures lists.Lengths() == 0
  {
    assert lists.Get(CreateReqPend) == [] && lists.Get(CreateRespPend) == [] && lists.Get(V42ConnCallbackPend) == [];
    assert lists.Get(SubscripReqPend) == [] && lists.Get(Connected) == [] && lists.Get(UnrespCircuit) == [];
    assert lists.Get(SubscripUpdateReqPend) == [];
  }

  /** The first channels of a list move on, as many as `count` says. */
  function MoveSome(s: State, from: ListId, to: ListId, tell: seq<Notice>, count: nat): (r: State)
    requires Placed(s) && from != NotInCircuit && to != NotInCircuit
    ensures Placed(r)
    decreases count
  {
    if count == 0 then s
    else
      var before := MoveSome(s, from, to, tell, count - 1);
      MoveFirstKeepsPlaces(before, from, to, tell);
      MoveFirst(before, from, to, tell)
  }

  /** A move of the first channel of a list, with each list and the channel's entry changed once. */
  function FirstMoved(s: State, from: ListId, to: ListId): State
    requires s.lists.Get(from) != [] && s.lists.Get(from)[0] in s.chans
  {
    var l := s.lists.Get(from);
    var taken := s.lists.With(from, l[1..]);
    s.(lists := taken.With(to, taken.Get(to) + [l[0]]), chans := s.chans[l[0] := s.chans[l[0]].(member := to)])
  }

  lemma MoveIs(s: State, ch: nat, to: ListId)
    requires ch in s.chans && s.lists.Get(s.chans[ch].member) != [] && s.lists.Get(s.chans[ch].member)[0] == ch
    ensures Move(s, ch, to) == FirstMoved(s, s.chans[ch].member, to)
  {
  }

  lemma StepKeepsPlaces(s: State, a: Action)
    requires Placed(s) && Enabled(s, a)
    ensures Placed(Next(s, a))
  {
    match a
    case Create(ch, hasCallback) =>
    case ChangeCallback(ch, hasCallback) => SamePlaces(s, Next(s, a));
    case Destroy(ch) => DestroyKeepsPlaces(s, ch);
    case Install(ch, validType) => InstallKeepsPlaces(s, ch, validType);
    case SendCreate(v42) =>
      MoveFirstKeepsPlaces(s, CreateReqPend, if v42 then CreateRespPend else V42ConnCallbackPend, []);
    case SendSubscribe => MoveFirstKeepsPlaces(s, SubscripReqPend, Connected, []);
    case SendUpdate => MoveFirstKeepsPlaces(s, SubscripUpdateReqPend, Connected, []);
    case ConnectReply(ch, validType) => ConnectingKeepsPlaces(s, ch, validType);
    case LegacyConnect =>
      var l := s.lists.Get(V42ConnCallbackPend);
      if l != [] { ConnectingKeepsPlaces(s, l[0], s.chans[l[0]].typed); }
    case Unresponsive => MoveFirstKeepsPlaces(s, Connected, UnrespCircuit, [Down]);
    case Responsive => MoveFirstKeepsPlaces(s, UnrespCircuit, SubscripUpdateReqPend, [Up]);
    case DisconnectAll => GoneKeepsPlaces(s);
  }

  /** A step that changes one channel's entry, truthfully, and the count by what that changes. */
  lemma ChangesOne(s: State, s': State, ch: nat)
    requires Told(s) && Counted(s)
    requires s.chans.Keys + {ch} == s'.chans.Keys + {ch}
    requires forall k | k in s.chans && k != ch :: k in s'.chans && s'.chans[k] == s.chans[k]
    requires ch in s'.chans ==> ChanTold(s'.chans[ch])
    requires s'.outstanding == s.outstanding
      + (if ch in s'.chans && Owes(s'.chans[ch]) then 1 else 0) - (if ch in s.chans && Owes(s.chans[ch]) then 1 else 0)
    ensures Told(s') && Counted(s')
  {
    OwingChanges(s, s', ch);
    forall k | k in s'.chans ensures ChanTold(s'.chans[k]) {
      if k != ch {
        assert k in s'.chans.Keys + {ch};
        assert k in s.chans.Keys;
      }
    }
  }

  /** One more notice keeps the alternation exactly when it says something new. */
  lemma OneMoreNotice(c: Chan, n: Notice)
    requires Alternate(c.notices) && (c.connected <==> |c.notices| % 2 == 1)
    ensures Alternate(c.notices + [n]) <==> (n == Up <==> !c.connected)
    ensures |c.notices + [n]| == |c.notices| + 1
  {
    assert (c.notices + [n])[|c.notices|] == n;
  }

  /** A channel that is told something new as it changes lists has been told the truth. */
  lemma ToldOfMove(c: Chan, to: ListId, typed: bool, n: Notice)
    requires ChanTold(c) && (n == Up <==> !c.connected) && (n == Up <==> ToldUp(to))
    requires n == Up || to == UnrespCircuit ==> typed
    ensures ChanTold(Chan(to, c.hasCallback, n == Up, c.before || n == Up, typed, c.notices + [n]))
  {
    OneMoreNotice(c, n);
  }

  ghost predicate Right(s: State) { Told(s) && Counted(s) }

  /** The state after a channel's entry is replaced. */
  lemma EntryChanges(s: State, s': State, ch: nat, c: Chan)
    requires Told(s) && Counted(s) && ch in s.chans && s'.chans == s.chans[ch := c] && ChanTold(c)
    requires s'.outstanding == s.outstanding + (if Owes(c) then 1 else 0) - (if Owes(s.chans[ch]) then 1 else 0)
    ensures Right(s')
  {
    ChangesOne(s, s', ch);
  }

  lemma PutTwice(m: map<nat, Chan>, ch: nat, a: Chan, b: Chan)
    ensures m[ch := a][ch := b] == m[ch := b]
  {
  }

  lemma MoveEntry(s: State, ch: nat, to: ListId)
    requires ch in s.chans
    ensures var r := Move(s, ch, to);
      r.chans == s.chans[ch := s.chans[ch].(member := to)] && r.outstanding == s.outstanding
  {
    PutTwice(s.chans, ch, s.chans[ch].(member := NotInCircuit), s.chans[ch].(member := to));
  }

  lemma TellEntry(s: State, ch: nat, n: Notice, chans: map<nat, Chan>, c: Chan)
    requires s.chans == chans[ch := c]
    ensures var r := Tell(s, ch, n);
      && r.chans == chans[ch := c.(connected := n == Up, before := c.before || n == Up, notices := c.notices + [n])]
      && r.outstanding == if c.hasCallback then s.outstanding else if n
        == Up then s.outstanding - 1 else s.outstanding + 1
  {
    PutTwice(chans, ch, c, c.(connected := n == Up, before := c.before || n == Up, notices := c.notices + [n]));
  }

  /** What a move of the first channel leaves of it. */
  lemma MoveFirstEntry(s: State, from: ListId, to: ListId, tell: seq<Notice>)
    requires InLists(s) && s.lists.Get(from) != []
    ensures var ch := s.lists.Get(from)[0];
      && ch in s.chans && s.chans[ch].member == from
      && var c, r := s.chans[ch], MoveFirst(s, from, to, tell);
        && r.chans == s.chans[ch := if tell == [] then c.(member := to)
             else Chan(to, c.hasCallback, tell[0] == Up, c.before || tell[0] == Up, c.typed, c.notices + [tell[0]])]
        && r.outstanding == if tell == [] || c.hasCallback then s.outstanding
             else if tell[0] == Up then s.outstanding - 1 else s.outstanding + 1
  {
    var ch := s.lists.Get(from)[0];
    assert ch in s.lists.Get(from);
    MoveEntry(s, ch, to);
    if tell != [] { TellEntry(Move(s, ch, to), ch, tell[0], s.chans, s.chans[ch].(member := to)); }
  }

  lemma LeaveEntry(s: State, ch: nat)
    requires ch in s.chans
    ensures var left := Leave(s, ch);
      && ch in left.chans && left.outstanding == s.outstanding
      && left.chans[ch := left.chans[ch].(typed := false)]
           == s.chans[ch := s.chans[ch].(member := NotInCircuit, typed := false)]
  {
    var c := s.chans[ch].(member := NotInCircuit);
    PutTwice(s.chans, ch, c, c.(typed := false));
  }

  /** And what its list going leaves of it. */
  function GoneEntry(c: Chan, from: ListId): Chan
  {
    if !ToldUp(from) then c.(member := NotInCircuit, typed := false)
    else Chan(NotInCircuit, c.hasCallback, false, c.before, false, c.notices + [Down])
  }

  lemma GoneEntryTold(c: Chan)
    requires ChanTold(c)
    ensures ChanTold(GoneEntry(c, c.member))
  {
    if ToldUp(c.member) { ToldOfMove(c, NotInCircuit, false, Down); }
  }

  lemma GoneFirstEntry(s: State, from: ListId)
    requires InLists(s) && s.lists.Get(from) != []
    ensures var ch := s.lists.Get(from)[0];
      && ch in s.chans && s.chans[ch].member == from
      && var c, r := s.chans[ch], GoneFirst(s, from);
        && r.chans == s.chans[ch := GoneEntry(c, from)]
        && r.outstanding == if ToldUp(from) && !c.hasCallback then s.outstanding + 1 else s.outstanding
  {
    var ch := s.lists.Get(from)[0];
    assert ch in s.lists.Get(from);
    LeaveEntry(s, ch);
    if ToldUp(from) {
      var left := Leave(s, ch);
      TellEntry(left.(chans := left.chans[ch := left.chans[ch].(typed := false)]), ch, Down, s.chans,
        s.chans[ch].(member := NotInCircuit, typed := false));
    }
  }

  lemma MoveFirstTells(s: State, from: ListId, to: ListId, tell: seq<Notice>)
    requires Placed(s) && Told(s) && Counted(s) && from != NotInCircuit && to != NotInCircuit
    requires tell == [] ==> (ToldUp(from) <==> ToldUp(to)) && to != UnrespCircuit
    requires tell != [] ==> (tell[0] == Up <==> !ToldUp(from)) && (tell[0] == Up <==> ToldUp(to))
    requires tell != [] ==> ToldUp(from) || from == UnrespCircuit
    ensures Right(MoveFirst(s, from, to, tell))
  {
    var l := s.lists.Get(from);
    if l != [] {
      var ch, r := l[0], MoveFirst(s, from, to, tell);
      MoveFirstEntry(s, from, to, tell);
      assert ChanTold(s.chans[ch]);
      if tell != [] { ToldOfMove(s.chans[ch], to, s.chans[ch].typed, tell[0]); }
      EntryChanges(s, r, ch, r.chans[ch]);
    }
  }

  lemma ConnectingTells(s: State, ch: nat, validType: bool)
    requires Placed(s) && Told(s) && Counted(s) && ch in s.chans
    ensures (Told(Connecting(s, ch, validType)) && Counted(Connecting(s, ch, validType)))
        <==> !(Awaited(s.chans[ch].member) && !validType)
  {
    var s' := Connecting(s, ch, validType);
    assert ChanTold(s.chans[ch]);
    if Awaited(s.chans[ch].member) {
      if validType {
        ToldOfMove(s.chans[ch], SubscripReqPend, true, Up);
        ChangesOne(s, s', ch);
      } else {
        assert !ChanTold(s'.chans[ch]);
      }
    }
  }

  lemma GoneFirstTells(s: State, from: ListId)
    requires InLists(s) && Right(s) && s.lists.Get(from) != []
    ensures Right(GoneFirst(s, from))
  {
    var ch := s.lists.Get(from)[0];
    GoneFirstEntry(s, from);
    assert ChanTold(s.chans[ch]);
    GoneEntryTold(s.chans[ch]);
    EntryChanges(s, GoneFirst(s, from), ch, GoneEntry(s.chans[ch], from));
  }

  lemma {:induction false} DrainedTells(s: State, from: ListId)
    requires InLists(s) && Right(s)
    ensures Right(Drained(s, from))
    decreases |s.lists.Get(from)|
  {
    if s.lists.Get(from) != [] {
      GoneFirstTells(s, from);
      GoneFirstKeepsLists(s, from);
      DrainedTells(GoneFirst(s, from), from);
    }
  }

  lemma {:induction false} FirstThreeTell(s: State)
    requires InLists(s) && Right(s)
    ensures Right(Drained(Drained(Drained(s, CreateReqPend), CreateRespPend), V42ConnCallbackPend))
  {
    var s1 := Drained(s, CreateReqPend);
    DrainedTells(s, CreateReqPend);
    DrainedTells(s1, CreateRespPend);
    DrainedTells(Drained(s1, CreateRespPend), V42ConnCallbackPend);
  }

  lemma {:induction false} LastFourTell(s: State)
    requires InLists(s) && Right(s)
    ensures Right(Drained(Drained(Drained(Drained(s, SubscripReqPend), Connected), UnrespCircuit),
      SubscripUpdateReqPend))
  {
    var s1 := Drained(s, SubscripReqPend);
    DrainedTells(s, SubscripReqPend);
    DrainedTells(s1, Connected);
    DrainedTells(Drained(s1, Connected), UnrespCircuit);
    DrainedTells(Drained(Drained(s1, Connected), UnrespCircuit), SubscripUpdateReqPend);
  }

  lemma GoneTells(s: State)
    requires InLists(s) && Right(s)
    ensures Right(AllGone(s))
  {
    FirstThreeTell(s);
    var s1 := Drained(Drained(Drained(s, CreateReqPend), CreateRespPend), V42ConnCallbackPend);
    LastFourTell(s1);
    var s2 := Drained(Drained(Drained(Drained(s1, SubscripReqPend), Connected), UnrespCircuit), SubscripUpdateReqPend);
    SameRight(s2, AllGone(s));
  }

  lemma SameRight(s: State, s': State)
    requires Right(s) && s'.chans == s.chans && s'.outstanding == s.outstanding
    ensures Right(s')
  {
    assert Owing(s') == Owing(s);
  }

  lemma CallbackTells(s: State, ch: nat, hasCallback: bool)
    requires Told(s) && Counted(s) && ch in s.chans
    ensures Told(CallbackChanged(s, ch, hasCallback)) && Counted(CallbackChanged(s, ch, hasCallback))
  {
    assert ChanTold(s.chans[ch]);
    ChangesOne(s, CallbackChanged(s, ch, hasCallback), ch);
  }

  lemma DestroyTells(s: State, ch: nat)
    requires Placed(s) && Told(s) && Counted(s) && ch in s.chans
    ensures Told(Destroyed(s, ch)) && Counted(Destroyed(s, ch))
  {
    UninstallKeepsPlaces(s, ch);
    ChangesOne(s, Destroyed(s, ch), ch);
  }

  lemma InstallTells(s: State, ch: nat, validType: bool)
    requires Told(s) && Counted(s) && ch in s.chans && s.chans[ch].member == NotInCircuit
    ensures Told(Installed(s, ch, validType)) && Counted(Installed(s, ch, validType))
  {
    assert ChanTold(s.chans[ch]);
    ChangesOne(s, Installed(s, ch, validType), ch);
  }

  /** After a step the users have been told the truth, and the outstanding I/O is what is owed, exactly
      when the step did not accept a reply whose native type is not valid. */
  lemma StepTellsExactlyWhen(s: State, a: Action)
    requires Placed(s) && Told(s) && Counted(s) && Enabled(s, a)
    ensures Told(Next(s, a)) && Counted(Next(s, a)) <==> !Throws(s, a)
  {
    match a
    case Create(ch, hasCallback) => ChangesOne(s, Next(s, a), ch);
    case ChangeCallback(ch, hasCallback) => CallbackTells(s, ch, hasCallback);
    case Destroy(ch) => DestroyTells(s, ch);
    case Install(ch, validType) => InstallTells(s, ch, validType);
    case SendCreate(v42) => MoveFirstTells(s, CreateReqPend, if v42 then CreateRespPend else V42ConnCallbackPend, []);
    case SendSubscribe => MoveFirstTells(s, SubscripReqPend, Connected, []);
    case SendUpdate => MoveFirstTells(s, SubscripUpdateReqPend, Connected, []);
    case ConnectReply(ch, validType) => ConnectingTells(s, ch, validType);
    case LegacyConnect =>
      var l := s.lists.Get(V42ConnCallbackPend);
      if l != [] { ConnectingTells(s, l[0], s.chans[l[0]].typed); }
    case Unresponsive => MoveFirstTells(s, Connected, UnrespCircuit, [Down]);
    case Responsive => MoveFirstTells(s, UnrespCircuit, SubscripUpdateReqPend, [Up]);
    case DisconnectAll => GoneTells(s);
  }

  // ----- runs

  ghost predicate Feasible(s: State, steps: seq<Action>)
    requires Placed(s)
    decreases |steps|
  {
    steps == [] || (Enabled(s, steps[0]) && (StepKeepsPlaces(s, steps[0]); Feasible(Next(s, steps[0]), steps[1..])))
  }

  ghost function After(s: State, steps: seq<Action>): (r: State)
    requires Placed(s) && Feasible(s, steps)
    ensures Placed(r)
    decreases |steps|
  {
    if steps == [] then s else (StepKeepsPlaces(s, steps[0]); After(Next(s, steps[0]), steps[1..]))
  }

  /** Some step of the run accepts a reply whose native type is not valid. */
  ghost predicate SomeThrow(s: State, steps: seq<Action>)
    requires Placed(s) && Feasible(s, steps)
    decreases |steps|
  {
    steps != [] &&
    (Throws(s, steps[0]) || (StepKeepsPlaces(s, steps[0]); SomeThrow(Next(s, steps[0]), steps[1..])))
  }

  function Empty(): State
  {
    State(Lists([], [], [], [], [], [], []), map[], 0, 0)
  }

  lemma {:induction false} RunTells(s: State, steps: seq<Action>)
    requires Placed(s) && Told(s) && Counted(s) && Feasible(s, steps) && !SomeThrow(s, steps)
    ensures Told(After(s, steps)) && Counted(After(s, steps))
    decreases |steps|
  {
    if steps != [] {
      StepTellsExactlyWhen(s, steps[0]);
      StepKeepsPlaces(s, steps[0]);
      RunTells(Next(s, steps[0]), steps[1..]);
    }
  }

  /** In every run: each installed channel is in exactly one list, the one it names, and the total is
      the number of channels in the lists; and if no reply threw, every channel's notices strictly
      alternate, it is connected exactly in the subscription and connected lists, and the outstanding
      I/O is the number of channels that have no callback and are not connected. */
  lemma {:induction false} EveryRun(steps: seq<Action>)
    requires Feasible(Empty(), steps)
    ensures var s := After(Empty(), steps);
      && s.total == s.lists.Lengths()
      && (forall l :: NoDuplicates(s.lists.Get(l)))
      && (forall l, ch | ch in s.chans && l != NotInCircuit :: ch in s.lists.Get(l) <==> s.chans[ch].member == l)
      && (!SomeThrow(Empty(), steps) ==>
            && (forall ch | ch in s.chans ::
              Alternate(s.chans[ch].notices) && (s.chans[ch].connected <==> ToldUp(s.chans[ch].member)))
            && s.outstanding == |Owing(s)|)
  {
    assert Owing(Empty()) == {};
    if !SomeThrow(Empty(), steps) {
      RunTells(Empty(), steps);
      var s := After(Empty(), steps);
      forall ch | ch in s.chans
        ensures Alternate(s.chans[ch].notices) && (s.chans[ch].connected <==> ToldUp(s.chans[ch].member)) {
        assert ChanTold(s.chans[ch]);
      }
    }
  }

  /** Where a channel is, and what its user was told. */
  datatype Standing = Standing(member: ListId, connected: bool, notices: seq<Notice>)

  function StandingOf(s: State, ch: nat): Standing
    requires ch in s.chans
  {
    Standing(s.chans[ch].member, s.chans[ch].connected, s.chans[ch].notices)
  }

  /** What draining a list does to a channel. */
  function Freed(x: Standing, from: ListId): Standing
  {
    if x.member != from then x
    else if ToldUp(from) then Standing(NotInCircuit, false, x.notices + [Down])
    else x.(member := NotInCircuit)
  }

  lemma {:induction false} DrainedIs(s: State, from: ListId, ch: nat)
    requires InLists(s) && ch in s.chans && from != NotInCircuit
    ensures var r := Drained(s, from); ch in r.chans && StandingOf(r, ch) == Freed(StandingOf(s, ch), from)
    decreases |s.lists.Get(from)|
  {
    if s.lists.Get(from) != [] {
      GoneFirstKeepsLists(s, from);
      GoneFirstIs(s, from, ch);
      DrainedIs(GoneFirst(s, from), from, ch);
    }
  }

  lemma GoneFirstIs(s: State, from: ListId, ch: nat)
    requires InLists(s) && ch in s.chans && s.lists.Get(from) != []
    ensures ch in GoneFirst(s, from).chans && from != NotInCircuit
    ensures StandingOf(GoneFirst(s, from), ch)
      == if ch == s.lists.Get(from)[0] then Freed(StandingOf(s, ch), from) else StandingOf(s, ch)
    ensures ch == s.lists.Get(from)[0] ==> s.chans[ch].member == from
  {
    GoneFirstEntry(s, from);
  }

  function FreedByAll(x: Standing): Standing
  {
    var y := Freed(Freed(Freed(x, CreateReqPend), CreateRespPend), V42ConnCallbackPend);
    Freed(Freed(Freed(Freed(y, SubscripReqPend), Connected), UnrespCircuit), SubscripUpdateReqPend)
  }

  lemma FreedOnce(x: Standing)
    ensures FreedByAll(x)
      == if ToldUp(x.member) then Standing(NotInCircuit, false, x.notices + [Down]) else x.(member := NotInCircuit)
  {
  }

  lemma {:induction false} FirstThreeAre(s: State, ch: nat)
    requires InLists(s) && ch in s.chans
    ensures var r := Drained(Drained(Drained(s, CreateReqPend), CreateRespPend), V42ConnCallbackPend);
      ch in r.chans && StandingOf(r, ch)
        == Freed(Freed(Freed(StandingOf(s, ch), CreateReqPend), CreateRespPend), V42ConnCallbackPend)
  {
    DrainedIs(s, CreateReqPend, ch);
    DrainedIs(Drained(s, CreateReqPend), CreateRespPend, ch);
    DrainedIs(Drained(Drained(s, CreateReqPend), CreateRespPend), V42ConnCallbackPend, ch);
  }

  lemma {:induction false} LastFourAre(s: State, ch: nat)
    requires InLists(s) && ch in s.chans
    ensures var r := Drained(Drained(Drained(Drained(s, SubscripReqPend), Connected), UnrespCircuit),
      SubscripUpdateReqPend);
      ch in r.chans && StandingOf(r, ch)
        == Freed(Freed(Freed(Freed(StandingOf(s, ch), SubscripReqPend), Connected), UnrespCircuit),
          SubscripUpdateReqPend)
  {
    var s1 := Drained(s, SubscripReqPend);
    DrainedIs(s, SubscripReqPend, ch);
    DrainedIs(s1, Connected, ch);
    DrainedIs(Drained(s1, Connected), UnrespCircuit, ch);
    DrainedIs(Drained(Drained(s1, Connected), UnrespCircuit), SubscripUpdateReqPend, ch);
  }

  /** When the circuit goes, a channel is told so exactly if its list says that it was connected. */
  lemma GoneIs(s: State, ch: nat)
    requires InLists(s) && ch in s.chans
    ensures var r := AllGone(s); ch in r.chans && StandingOf(r, ch) == FreedByAll(StandingOf(s, ch))
  {
    FirstThreeAre(s, ch);
    LastFourAre(Drained(Drained(Drained(s, CreateReqPend), CreateRespPend), V42ConnCallbackPend), ch);
  }

  lemma BadReplyIs(s: State, ch: nat)
    requires Placed(s) && ch in s.chans && Awaited(s.chans[ch].member)
    ensures var r := Connecting(s, ch, false);
      Placed(r) && ch in r.chans
        && StandingOf(r, ch) == Standing(SubscripReqPend, s.chans[ch].connected, s.chans[ch].notices)
  {
    ConnectingKeepsPlaces(s, ch, false);
  }

  lemma GoneAfter(s: State, ch: nat, notices: seq<Notice>)
    requires InLists(s) && ch in s.chans && s.chans[ch].member == SubscripReqPend && s.chans[ch].notices == notices
    ensures var r := AllGone(s); ch in r.chans && r.chans[ch].notices == notices + [Down]
  {
    GoneIs(s, ch);
    FreedOnce(StandingOf(s, ch));
  }

  lemma Misled(s: State, ch: nat)
    requires Placed(s) && ch in s.chans && ChanTold(s.chans[ch]) && Awaited(s.chans[ch].member)
    ensures Placed(Connecting(s, ch, false))
    ensures var r := AllGone(Connecting(s, ch, false));
      ch in r.chans && r.chans[ch].notices == s.chans[ch].notices + [Down] && !Alternate(r.chans[ch].notices)
  {
    BadReplyIs(s, ch);
    GoneAfter(Connecting(s, ch, false), ch, s.chans[ch].notices);
    OneMoreNotice(s.chans[ch], Down);
  }

  /** What an accepted reply with a bad type leads to, from every state: if the circuit goes then, the
      user is told of a disconnect without having been told of the connect. */
  lemma BadTypeMisleads(s: State, ch: nat, s1: State, s2: State)
    requires Placed(s) && ch in s.chans && ChanTold(s.chans[ch]) && Awaited(s.chans[ch].member)
    requires s1 == Next(s, ConnectReply(ch, false)) && InLists(s1) && s2 == Next(s1, DisconnectAll)
    ensures ch in s2.chans && s2.chans[ch].notices == s.chans[ch].notices + [Down] && !Alternate(s2.chans[ch].notices)
  {
    Misled(s, ch);
    RepliedBadly(s, ch);
    WentDown(s1);
  }

  lemma RepliedBadly(s: State, ch: nat)
    requires InLists(s) && ch in s.chans
    ensures Next(s, ConnectReply(ch, false)) == Connecting(s, ch, false)
  {
  }

  lemma WentDown(s: State)
    requires InLists(s)
    ensures Next(s, DisconnectAll) == AllGone(s)
  {
  }

  lemma {:induction false} OneMoreStep(s: State, steps: seq<Action>, a: Action)
    requires Placed(s) && Feasible(s, steps) && Enabled(After(s, steps), a)
    ensures Feasible(s, steps + [a]) && After(s, steps + [a]) == Next(After(s, steps), a)
    ensures SomeThrow(s, steps + [a]) <==> SomeThrow(s, steps) || Throws(After(s, steps), a)
    decreases |steps|
  {
    StepKeepsPlaces(After(s, steps), a);
    if steps == [] {
      assert (steps + [a])[1..] == [];
    } else {
      StepKeepsPlaces(s, steps[0]);
      OneMoreStep(Next(s, steps[0]), steps[1..], a);
      assert (steps + [a])[1..] == steps[1..] + [a];
    }
  }

  lemma FirstInstalled(hasCallback: bool)
    ensures var s := Installed(Created(Empty(), 0, hasCallback), 0, true);
      && 0 in s.chans && s.chans[0] == Chan(CreateReqPend, hasCallback, false, false, true, []) && s.chans.Keys == {0}
      && s.lists.Get(CreateReqPend) == [0]
  {
  }

  lemma FirstSent(s: State)
    requires 0 in s.chans && s.lists.Get(CreateReqPend) == [0] && s.chans[0].member == CreateReqPend
    ensures var r := MoveFirst(s, CreateReqPend, CreateRespPend, []);
      0 in r.chans && r.chans[0] == s.chans[0].(member := CreateRespPend)
  {
  }

  /** A run to a state with a channel that waits for the server's reply. */
  lemma OneAwaited(hasCallback: bool) returns (steps: seq<Action>)
    ensures Feasible(Empty(), steps)
    ensures var s := After(Empty(), steps); 0 in s.chans && ChanTold(s.chans[0]) && Awaited(s.chans[0].member)
  {
    steps := OneInstalled(hasCallback);
    FirstSent(After(Empty(), steps));
    OneMoreStep(Empty(), steps, SendCreate(true));
    steps := steps + [SendCreate(true)];
  }

  lemma OneInstalled(hasCallback: bool) returns (steps: seq<Action>)
    ensures Feasible(Empty(), steps)
    ensures After(Empty(), steps) == Installed(Created(Empty(), 0, hasCallback), 0, true)
    ensures var s := After(Empty(), steps);
      && 0 in s.chans && s.chans[0] == Chan(CreateReqPend, hasCallback, false, false, true, [])
      && s.lists.Get(CreateReqPend) == [0]
  {
    steps := [];
    OneMoreStep(Empty(), steps, Create(0, hasCallback));
    steps := steps + [Create(0, hasCallback)];
    OneMoreStep(Empty(), steps, Install(0, true));
    steps := steps + [Install(0, true)];
    FirstInstalled(hasCallback);
  }

  /** Such a state is reached: the first channel ever created is enough, and then a run throws. */
  lemma SomeUserIsMisled(hasCallback: bool) returns (steps: seq<Action>)
    ensures Feasible(Empty(), steps) && SomeThrow(Empty(), steps)
    ensures var s := After(Empty(), steps); 0 in s.chans && !Alternate(s.chans[0].notices)
  {
    steps := OneAwaited(hasCallback);
    var s := After(Empty(), steps);
    OneMoreStep(Empty(), steps, ConnectReply(0, false));
    steps := steps + [ConnectReply(0, false)];
    var s1 := After(Empty(), steps);
    OneMoreStep(Empty(), steps, DisconnectAll);
    steps := steps + [DisconnectAll];
    BadTypeMisleads(s, 0, s1, After(Empty(), steps));
  }
}
