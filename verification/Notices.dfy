/** What the users of channels are told over whole runs of the client's channel lists: when it is what the
    lists say, and when the notices themselves alternate. */
module Notices {
  import opened ChannelLists

  // ----- what the lists say

  /** At every point of the run the users have been told what the lists say, and the outstanding I/O is
      what is owed. */
  ghost predicate RightThroughout(s: State, steps: seq<Action>)
    requires Placed(s) && Feasible(s, steps)
    decreases |steps|
  {
    Told(s) && Counted(s) &&
    (steps == [] || (StepKeepsPlaces(s, steps[0]); RightThroughout(Next(s, steps[0]), steps[1..])))
  }

  /** That is so exactly when no step of the run accepts a reply whose native type is not valid. */
  lemma {:induction false} RightThroughoutExactlyWhen(s: State, steps: seq<Action>)
    requires Placed(s) && Told(s) && Counted(s) && Feasible(s, steps)
    ensures RightThroughout(s, steps) <==> !SomeThrow(s, steps)
    decreases |steps|
  {
    if steps != [] {
      StepTellsExactlyWhen(s, steps[0]);
      StepKeepsPlaces(s, steps[0]);
      if !Throws(s, steps[0]) { RightThroughoutExactlyWhen(Next(s, steps[0]), steps[1..]); }
    }
  }

  /** From the empty circuit on. */
  lemma {:induction false} EveryPointExactlyWhen(steps: seq<Action>)
    requires Feasible(Empty(), steps)
    ensures RightThroughout(Empty(), steps) <==> !SomeThrow(Empty(), steps)
  {
    assert Owing(Empty()) == {};
    RightThroughoutExactlyWhen(Empty(), steps);
  }

  /** What such a reply breaks: nobody is told anything, so the notices alternate and the count is right as
      before; but the one channel is in a list of channels whose users were told of a connection. */
  lemma BadReplyBreaks(s: State, ch: nat)
    requires Placed(s) && Told(s) && Counted(s) && ch in s.chans && Awaited(s.chans[ch].member)
    ensures var r := Connecting(s, ch, false);
      && Counted(r) && r.chans.Keys == s.chans.Keys
      && (forall k | k in r.chans :: Alternate(r.chans[k].notices))
      && (forall k | k in r.chans :: ChanTold(r.chans[k]) <==> k != ch)
  {
    var r := Connecting(s, ch, false);
    forall k | k in s.chans ensures ChanTold(s.chans[k]) {}
    OwingChanges(s, r, ch);
  }

  // ----- the notices

  /** The channel remembers whether the last notice was of a connection, and the notices alternate. */
  ghost predicate InStep(c: Chan)
  {
    Alternate(c.notices) && (c.connected <==> |c.notices| % 2 == 1)
  }

  ghost predicate AllInStep(s: State)
  {
    forall ch | ch in s.chans :: InStep(s.chans[ch])
  }

  ghost predicate AllAlternate(s: State)
  {
    forall ch | ch in s.chans :: Alternate(s.chans[ch].notices)
  }

  /** The first channel of a list is told what it was told last. */
  ghost predicate FirstRepeats(s: State, from: ListId, connected: bool)
    requires InLists(s)
  {
    var l := s.lists.Get(from);
    l != [] && s.chans[l[0]].connected == connected
  }

  ghost predicate ReplyRepeats(s: State, ch: nat, validType: bool)
    requires ch in s.chans
  {
    Awaited(s.chans[ch].member) && validType && s.chans[ch].connected
  }

  /** The circuit's going tells the channel what it was told last. */
  ghost predicate GoneRepeats(c: Chan) { ToldUp(c.member) && !c.connected }

  ghost predicate SomeGoneRepeats(s: State)
  {
    exists ch :: ch in s.chans && GoneRepeats(s.chans[ch])
  }

  /** The step tells some user what it was told last: of a disconnect without a connect, or the other way
      round. */
  ghost predicate Repeats(s: State, a: Action)
    requires InLists(s) && Enabled(s, a)
  {
    match a
    case ConnectReply(ch, validType) => ReplyRepeats(s, ch, validType)
    case LegacyConnect =>
      var l := s.lists.Get(V42ConnCallbackPend);
      l != [] && ReplyRepeats(s, l[0], s.chans[l[0]].typed)
    case Unresponsive => FirstRepeats(s, Connected, false)
    case Responsive => FirstRepeats(s, UnrespCircuit, true)
    case DisconnectAll => SomeGoneRepeats(s)
    case _ => false
  }

  /** A step that leaves all channels but one as they are, as far as the notices go. */
  lemma OneTold(s: State, s': State, ch: nat)
    requires AllInStep(s)
    requires forall k | k in s'.chans && k != ch ::
      k in s.chans && s'.chans[k].notices == s.chans[k].notices && s'.chans[k].connected == s.chans[k].connected
    ensures AllAlternate(s') <==> (ch in s'.chans ==> Alternate(s'.chans[ch].notices))
    ensures AllInStep(s') <==> (ch in s'.chans ==> InStep(s'.chans[ch]))
  {
    forall k | k in s'.chans && k != ch ensures InStep(s'.chans[k]) { assert InStep(s.chans[k]); }
  }

  lemma Tells(c: Chan, c': Chan, n: Notice)
    requires InStep(c) && c'.notices == c.notices + [n] && (c'.connected <==> n == Up)
    ensures Alternate(c'.notices) <==> (n == Up <==> !c.connected)
    ensures InStep(c') <==> (n == Up <==> !c.connected)
  {
    OneMoreNotice(c, n);
  }

  lemma MoveFirstNotices(s: State, from: ListId, to: ListId, n: Notice)
    requires Placed(s) && AllInStep(s) && from != NotInCircuit && to != NotInCircuit
    ensures var r := MoveFirst(s, from, to, [n]);
      && (AllAlternate(r) <==> !FirstRepeats(s, from, n == Up))
      && (AllInStep(r) <==> !FirstRepeats(s, from, n == Up))
  {
    var l := s.lists.Get(from);
    if l != [] {
      var r := MoveFirst(s, from, to, [n]);
      assert l[0] in l && InStep(s.chans[l[0]]);
      OneTold(s, r, l[0]);
      Tells(s.chans[l[0]], r.chans[l[0]], n);
    }
  }

  lemma QuietMove(s: State, from: ListId, to: ListId)
    requires Placed(s) && AllInStep(s) && from != NotInCircuit && to != NotInCircuit
    ensures AllInStep(MoveFirst(s, from, to, []))
  {
    var l := s.lists.Get(from);
    if l != [] {
      assert l[0] in l && InStep(s.chans[l[0]]);
      OneTold(s, MoveFirst(s, from, to, []), l[0]);
    }
  }

  lemma ConnectingNotices(s: State, ch: nat, validType: bool)
    requires Placed(s) && AllInStep(s) && ch in s.chans
    ensures var r := Connecting(s, ch, validType);
      && (AllAlternate(r) <==> !ReplyRepeats(s, ch, validType)) && (AllInStep(r) <==> !ReplyRepeats(s, ch, validType))
  {
    var r := Connecting(s, ch, validType);
    assert InStep(s.chans[ch]);
    OneTold(s, r, ch);
    if Awaited(s.chans[ch].member) && validType { Tells(s.chans[ch], r.chans[ch], Up); }
  }

  lemma GoneNotice(s: State, ch: nat)
    requires InLists(s) && ch in s.chans && InStep(s.chans[ch])
    ensures ch in AllGone(s).chans
    ensures Alternate(AllGone(s).chans[ch].notices) <==> !GoneRepeats(s.chans[ch])
    ensures InStep(AllGone(s).chans[ch]) <==> !GoneRepeats(s.chans[ch])
  {
    GoneIs(s, ch);
    GoneStands(s.chans[ch], AllGone(s).chans[ch], StandingOf(s, ch));
  }

  lemma GoneStands(c: Chan, c': Chan, x: Standing)
    requires InStep(c) && x == Standing(c.member, c.connected, c.notices)
    requires Standing(c'.member, c'.connected, c'.notices) == FreedByAll(x)
    ensures Alternate(c'.notices) <==> !GoneRepeats(c)
    ensures InStep(c') <==> !GoneRepeats(c)
  {
    FreedOnce(x);
    if ToldUp(c.member) { Tells(c, c', Down); }
  }

  ghost predicate KeptUnless(s: State, repeats: bool)
  {
    (AllAlternate(s) <==> !repeats) && (AllInStep(s) <==> !repeats)
  }

  lemma GoneNotices(s: State)
    requires InLists(s) && AllInStep(s)
    ensures KeptUnless(AllGone(s), SomeGoneRepeats(s))
  {
    GoneKeepsChans(s);
    forall ch | ch in s.chans ensures ch in AllGone(s).chans && GoneFrom(s.chans[ch], AllGone(s).chans[ch]) {
      assert InStep(s.chans[ch]);
      GoneNotice(s, ch);
    }
    SomeOrNone(s, AllGone(s));
  }

  ghost predicate GoneFrom(c: Chan, c': Chan)
  {
    (Alternate(c'.notices) <==> !GoneRepeats(c)) && (InStep(c') <==> !GoneRepeats(c))
  }

  ghost predicate AllGoneFrom(s: State, r: State)
  {
    r.chans.Keys == s.chans.Keys && forall ch | ch in s.chans :: ch in r.chans && GoneFrom(s.chans[ch], r.chans[ch])
  }

  lemma SomeOrNone(s: State, r: State)
    requires AllGoneFrom(s, r)
    ensures KeptUnless(r, SomeGoneRepeats(s))
  {
    assert forall ch :: ch in r.chans <==> ch in r.chans.Keys;
    assert forall ch :: ch in s.chans <==> ch in s.chans.Keys;
  }

  lemma GoneKeepsChans(s: State)
    requires InLists(s)
    ensures AllGone(s).chans.Keys == s.chans.Keys
  {
    DrainedKeepsChans(s, CreateReqPend);
    var s1 := Drained(s, CreateReqPend);
    DrainedKeepsChans(s1, CreateRespPend);
    var s2 := Drained(s1, CreateRespPend);
    DrainedKeepsChans(s2, V42ConnCallbackPend);
    var s3 := Drained(s2, V42ConnCallbackPend);
    DrainedKeepsChans(s3, SubscripReqPend);
    var s4 := Drained(s3, SubscripReqPend);
    DrainedKeepsChans(s4, Connected);
    var s5 := Drained(s4, Connected);
    DrainedKeepsChans(s5, UnrespCircuit);
    var s6 := Drained(s5, UnrespCircuit);
    DrainedKeepsChans(s6, SubscripUpdateReqPend);
  }

  lemma {:induction false} DrainedKeepsChans(s: State, from: ListId)
    requires InLists(s)
    ensures Drained(s, from).chans.Keys == s.chans.Keys
    decreases |s.lists.Get(from)|
  {
    if s.lists.Get(from) != [] {
      GoneFirstKeepsLists(s, from);
      DrainedKeepsChans(GoneFirst(s, from), from);
    }
  }

  lemma QuietSteps(s: State, a: Action)
    requires Placed(s) && AllInStep(s) && Enabled(s, a)
    requires a.Create? || a.ChangeCallback? || a.Destroy? || a.Install?
    ensures AllInStep(Next(s, a))
  {
    if !a.Create? { assert InStep(s.chans[a.ch]); }
    OneTold(s, Next(s, a), a.ch);
  }

  /** While the notices alternate, the next step keeps them so exactly when it repeats nothing. */
  lemma StepNotices(s: State, a: Action)
    requires Placed(s) && AllInStep(s) && Enabled(s, a)
    ensures AllAlternate(Next(s, a)) <==> !Repeats(s, a)
    ensures AllInStep(Next(s, a)) <==> !Repeats(s, a)
  {
    match a
    case SendCreate(v42) => QuietMove(s, CreateReqPend, if v42 then CreateRespPend else V42ConnCallbackPend);
    case SendSubscribe => QuietMove(s, SubscripReqPend, Connected);
    case SendUpdate => QuietMove(s, SubscripUpdateReqPend, Connected);
    case ConnectReply(ch, validType) => ConnectingNotices(s, ch, validType);
    case LegacyConnect =>
      var l := s.lists.Get(V42ConnCallbackPend);
      if l != [] {
        assert l[0] in l;
        ConnectingNotices(s, l[0], s.chans[l[0]].typed);
      }
    case Unresponsive => MoveFirstNotices(s, Connected, UnrespCircuit, Down);
    case Responsive => MoveFirstNotices(s, UnrespCircuit, SubscripUpdateReqPend, Up);
    case DisconnectAll => GoneNotices(s);
    case _ => QuietSteps(s, a);
  }

  ghost predicate SomeRepeat(s: State, steps: seq<Action>)
    requires Placed(s) && Feasible(s, steps)
    decreases |steps|
  {
    steps != [] &&
    (Repeats(s, steps[0]) || (StepKeepsPlaces(s, steps[0]); SomeRepeat(Next(s, steps[0]), steps[1..])))
  }

  ghost predicate AlternateThroughout(s: State, steps: seq<Action>)
    requires Placed(s) && Feasible(s, steps)
    decreases |steps|
  {
    AllAlternate(s) &&
    (steps == [] || (StepKeepsPlaces(s, steps[0]); AlternateThroughout(Next(s, steps[0]), steps[1..])))
  }

  lemma {:induction false} AlternateThroughoutExactlyWhen(s: State, steps: seq<Action>)
    requires Placed(s) && AllInStep(s) && Feasible(s, steps)
    ensures AlternateThroughout(s, steps) <==> !SomeRepeat(s, steps)
    decreases |steps|
  {
    if steps != [] {
      StepNotices(s, steps[0]);
      StepKeepsPlaces(s, steps[0]);
      if !Repeats(s, steps[0]) { AlternateThroughoutExactlyWhen(Next(s, steps[0]), steps[1..]); }
    }
  }

  /** From the empty circuit on, the notices of all channels alternate at every point of a run exactly when
      no step tells a user what it was told last. */
  lemma {:induction false} NoticesExactlyWhen(steps: seq<Action>)
    requires Feasible(Empty(), steps)
    ensures AlternateThroughout(Empty(), steps) <==> !SomeRepeat(Empty(), steps)
  {
    AlternateThroughoutExactlyWhen(Empty(), steps);
  }

  /** And no step does while the users have been told what the lists say. */
  lemma NoRepeatWhileTold(s: State, a: Action)
    requires Placed(s) && Told(s) && Enabled(s, a)
    ensures !Repeats(s, a)
  {
    forall ch | ch in s.chans ensures ChanTold(s.chans[ch]) {}
    match a
    case LegacyConnect =>
      var l := s.lists.Get(V42ConnCallbackPend);
      if l != [] { assert l[0] in l; }
    case Unresponsive =>
      var l := s.lists.Get(Connected);
      if l != [] { assert l[0] in l; }
    case Responsive =>
      var l := s.lists.Get(UnrespCircuit);
      if l != [] { assert l[0] in l; }
    case _ =>
  }
}
