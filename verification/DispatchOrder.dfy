/** The order in which a listener is given its messages, and when several dispatching loops
    can upset it. */
module DispatchOrder {
  import opened Listeners
  import opened Dispatching
  import opened DispatchOnce

  // ---------------------------------------------------------------------------------
  // In order, step by step

  /** An open channel has everything due, in order, or lacks just the one message that one
      dispatch still owes it; a closed one has a prefix. */
  ghost predicate InOrder(s: State, c: int)
    requires 0 <= c < |s.chans|
  {
    var ch := s.chans[c];
    && ch.since <= |s.log|
    && (ch.open && !Owed(s, c) ==> ch.sent == Due(s.log, ch))
    && (ch.open ==> forall p :: Owing(s, p, c) ==> ch.sent + [s.dispatches[p].msg] == Due(s.log, ch))
    && (ch.open ==> forall p, q :: Owing(s, p, c) && Owing(s, q, c) ==> p == q)
    && (!ch.open ==> ch.sent <= Due(s.log, ch))
  }

  lemma QuietInOrder(s: State, s': State, c: int)
    requires 0 <= c < |s.chans| && Quiet(s, s', c) && InOrder(s, c)
    ensures InOrder(s', c)
  {
    hide Owes;
    if s'.chans[c].open {
      assert Owed(s', c) <==> Owed(s, c);
    } else if s.chans[c].open && Owed(s, c) {
      var p :| Owing(s, p, c);
      assert s.chans[c].sent + [s.dispatches[p].msg] == Due(s.log, s.chans[c]);
    }
  }

  /** A dispatch that begins while the channel is owed nothing. */
  lemma BegunInOrder(s: State, s': State, p: nat, tag: Tag, msg: Msg, c: int)
    requires 0 <= c < |s.chans| && Begun(s, s', p, tag, msg, c) && InOrder(s, c)
    requires s.chans[c].open && s.chans[c].tag == tag ==> !Owed(s, c)
    ensures InOrder(s', c)
  {
    hide Owes, Due;
    var ch := s.chans[c];
    DueSnoc(s.log, ch, tag, msg);
    if ch.open {
      if ch.tag == tag {
        assert Owing(s', p, c);
        assert forall q :: Owing(s', q, c) ==> q == p;
      } else {
        assert forall q :: Owing(s', q, c) <==> Owing(s, q, c);
        assert Owed(s', c) <==> Owed(s, c);
      }
    }
  }

  lemma GivenInOrder(s: State, s': State, p: nat, c: int)
    requires 0 <= c < |s.chans| && Given(s, s', p, c) && InOrder(s, c)
    ensures InOrder(s', c)
  {
    hide Owes;
    assert s'.chans[c].sent == s.chans[c].sent + [s.dispatches[p].msg];
    assert !Owed(s', c);
  }

  /** The step does not begin a dispatch to a channel that is still owed a message. */
  ghost predicate Waits(s: State, step: Step, c: int) {
    step.Begin? && Enabled(s, step) && 0 <= c < |s.chans| && s.chans[c].open && s.chans[c].tag == step.tag ==>
      !Owed(s, c)
  }

  lemma StepInOrder(s: State, step: Step, c: int)
    requires Inv(s) && Enabled(s, step) && 0 <= c < |s.chans| && InOrder(s, c) && Waits(s, step, c)
    ensures c < |Apply(s, step).chans| && InOrder(Apply(s, step), c)
  {
    hide Inv, Apply, InOrder, Quiet, Given, Begun, Owing, Enabled, Owed;
    var s' := Apply(s, step);
    if step.Begin? {
      BeginEffect(s, step.p, step.tag, step.text, c);
      BegunBounds(s, s', step.p, step.tag, Msg(step.text, |s.log|), c);
      BegunInOrder(s, s', step.p, step.tag, Msg(step.text, |s.log|), c);
    } else if GivesTo(s, step, c) {
      SendEffect(s, step.p, step.i, c);
      GivenBounds(s, s', step.p, c);
      GivenInOrder(s, s', step.p, c);
    } else {
      MostStepsAreQuiet(s, step, c);
      QuietBounds(s, s', c);
      QuietInOrder(s, s', c);
    }
  }

  lemma NewInOrder(s: State, step: Step)
    requires Inv(s) && Enabled(s, step) && step.Create?
    ensures InOrder(Apply(s, step), |s.chans|)
  {
    hide Inv, Owes;
    NewChannelOwedNothing(s, step);
    var s', c := Apply(s, step), |s.chans|;
    assert forall p :: !Owing(s', p, c);
  }

  // ---------------------------------------------------------------------------------
  // In order, over a run

  /** No dispatch begins, over the run, to the channel while it is still owed a message. */
  ghost predicate Patient(steps: seq<Step>, c: int) {
    steps == [] ||
    (var init, last := steps[..|steps| - 1], steps[|steps| - 1];
     Patient(init, c) && Waits(Run(init), last, c))
  }

  lemma {:induction false} PatientIsInOrder(steps: seq<Step>, c: int)
    requires Patient(steps, c) && 0 <= c < |Run(steps).chans|
    ensures InOrder(Run(steps), c)
  {
    hide Inv, Apply, InOrder, Enabled, Waits;
    if steps != [] {
      var init, last := steps[..|steps| - 1], steps[|steps| - 1];
      var s := Run(init);
      EveryRunIsSafe(init);
      if Enabled(s, last) {
        OnlyCreateAdds(s, last);
        if c < |s.chans| {
          PatientIsInOrder(init, c);
          StepInOrder(s, last, c);
        } else {
          NewInOrder(s, last);
        }
      } else {
        PatientIsInOrder(init, c);
      }
    }
  }

  /** Over the run, a dispatch begins only when no other dispatch of its tag is active, as
      when one loop dispatches each tag, whatever other loops there are. */
  ghost predicate OneAtATime(steps: seq<Step>) {
    steps == [] ||
    (var init, last := steps[..|steps| - 1], steps[|steps| - 1];
     OneAtATime(init) && (last.Begin? && Enabled(Run(init), last) ==> NoneActive(Run(init), last.tag)))
  }

  ghost predicate NoneActive(s: State, tag: Tag) {
    forall p :: p in s.dispatches ==> s.dispatches[p].tag != tag
  }

  /** With no dispatch of its tag active, a channel is owed nothing. */
  lemma NoneActiveOwesNothing(s: State, c: int)
    requires Inv(s) && 0 <= c < |s.chans| && NoneActive(s, s.chans[c].tag)
    ensures !Owed(s, c)
  {
    hide Inv, Owing;
    forall p ensures !Owing(s, p, c) {
      if Owing(s, p, c) {
        OwingTag(s, p, c);
        OwerIsActive(s, p, c);
      }
    }
  }

  lemma OwerIsActive(s: State, p: nat, c: int)
    requires Owing(s, p, c)
    ensures p in s.dispatches
  {
  }

  lemma {:induction false} OneAtATimeIsPatient(steps: seq<Step>, c: int)
    requires OneAtATime(steps)
    ensures Patient(steps, c)
  {
    hide Inv, Owed, Enabled, NoneActive, Run;
    if steps != [] {
      var init, last := steps[..|steps| - 1], steps[|steps| - 1];
      OneAtATimeIsPatient(init, c);
      EveryRunIsSafe(init);
      var s := Run(init);
      if last.Begin? && Enabled(s, last) && 0 <= c < |s.chans| && s.chans[c].tag == last.tag {
        NoneActiveOwesNothing(s, c);
      }
    }
  }

  /** With one loop dispatching each tag, every channel is in order at every moment. */
  lemma EveryLoopIsOrdered(steps: seq<Step>, c: int)
    requires OneAtATime(steps) && 0 <= c < |Run(steps).chans|
    ensures InOrder(Run(steps), c)
  {
    OneAtATimeIsPatient(steps, c);
    PatientIsInOrder(steps, c);
  }

  /** A registered channel has been given everything due, in order, and passes it on in
      order; another one a prefix of it. */
  predicate Complete(s: State, c: int)
    requires 0 <= c < |s.chans|
  {
    var ch := s.chans[c];
    && ch.since <= |s.log|
    && (c in At(s.reg, ch.tag) ==> ch.sent == Due(s.log, ch) == ch.received + ch.buffer)
    && (c !in At(s.reg, ch.tag) ==> ch.sent <= Due(s.log, ch) && Conserves(ch))
  }

  lemma NotOwedIsComplete(s: State, c: int)
    requires Inv(s) && 0 <= c < |s.chans| && InOrder(s, c) && (s.chans[c].open ==> !Owed(s, c))
    ensures Complete(s, c)
  {
    hide Due, Owed;
    var ch := s.chans[c];
    assert Conserves(ch);
    assert ch.received[..ch.dropAt] + ch.received[ch.dropAt..] == ch.received;
  }

  /** Whenever no dispatch of its tag is active, a registered channel has been given exactly
      the messages for its tag since its registration, in order, and a channel that was
      closed a prefix of them; its reader has missed at most one of those it was given. */
  lemma GapFree(steps: seq<Step>, c: int)
    requires OneAtATime(steps) && 0 <= c < |Run(steps).chans|
    requires NoneActive(Run(steps), Run(steps).chans[c].tag)
    ensures Complete(Run(steps), c)
  {
    hide Inv, InOrder, Complete, Run, NoneActive, Owed;
    EveryRunIsSafe(steps);
    EveryLoopIsOrdered(steps, c);
    NoneActiveOwesNothing(Run(steps), c);
    NotOwedIsComplete(Run(steps), c);
  }

  // ---------------------------------------------------------------------------------
  // Out of order

  /** The channel has been given its messages without a gap and in order. */
  predicate SentInOrder(s: State, c: int)
    requires 0 <= c < |s.chans| && s.chans[c].since <= |s.log|
  {
    s.chans[c].sent <= Due(s.log, s.chans[c])
  }

  /** No dispatch of the tag begins in the schedule. */
  predicate NoBegin(more: seq<Step>, tag: Tag) {
    forall k :: 0 <= k < |more| ==> !(more[k].Begin? && more[k].tag == tag)
  }

  /** Before the next dispatch of its tag begins, some schedule gives the channel, while it
      is registered, a message past another one due earlier. */
  ghost predicate CanOvertake(steps: seq<Step>, c: int, tag: Tag) {
    exists more :: NoBegin(more, tag) && Overtaken(Run(steps + more), c)
  }

  ghost predicate Overtaken(s: State, c: int) {
    0 <= c < |s.chans| && s.chans[c].open && s.chans[c].since <= |s.log| && !SentInOrder(s, c)
  }

  /** A channel in order so far that is owed nothing has everything due. */
  lemma NotOwedHasAll(steps: seq<Step>, c: int)
    requires 0 <= c < |Run(steps).chans| && Run(steps).chans[c].open
    requires Run(steps).chans[c].since <= |Run(steps).log| && SentInOrder(Run(steps), c)
    ensures var s := Run(steps); !Owed(s, c) <==> s.chans[c].sent == Due(s.log, s.chans[c])
    ensures var s := Run(steps); !Owed(s, c) ==> InOrder(s, c)
  {
    var s := Run(steps);
    var ch := s.chans[c];
    ExactlyOnce(steps, c);
    if !Owed(s, c) {
      assert |multiset(ch.sent)| == |ch.sent| && |multiset(Due(s.log, ch))| == |Due(s.log, ch)|;
    } else {
      OwedIsMissing(steps, c);
    }
  }

  /** What is owed to an open channel is due to it, and not given. */
  lemma OwedIsMissing(steps: seq<Step>, c: int)
    requires 0 <= c < |Run(steps).chans| && Run(steps).chans[c].open && Owed(Run(steps), c)
    ensures var s := Run(steps);
            s.chans[c].since <= |s.log| && exists m :: m in Due(s.log, s.chans[c]) && m !in s.chans[c].sent
  {
    var s := Run(steps);
    var p :| Owing(s, p, c);
    EveryMessageOnce(steps, c);
    EveryRunIsNumbered(steps);
    EveryRunIsSafe(steps);
    OwingTag(s, p, c);
    DueIsLogged(s, c);
    hide Run, Due, Owes;
    var m := s.dispatches[p].msg;
    assert OwedMsg(s, c, m);
    assert Logged(s.log, s.chans[c], m);
  }

  /** Nothing is overtaken before the next dispatch if the channel was owed nothing. */
  lemma {:induction false} StaysInOrder(steps: seq<Step>, more: seq<Step>, c: int, tag: Tag)
    requires 0 <= c < |Run(steps).chans| && Run(steps).chans[c].tag == tag && InOrder(Run(steps), c)
    requires NoBegin(more, tag)
    ensures var s := Run(steps + more);
            c < |s.chans| && s.chans[c].tag == tag && InOrder(s, c)
  {
    hide Inv, Apply, InOrder, Enabled, Waits, Run;
    if more == [] {
      assert steps + more == steps;
    } else {
      var init, last := more[..|more| - 1], more[|more| - 1];
      StaysInOrder(steps, init, c, tag);
      RunSnoc(steps, more);
      EveryRunIsSafe(steps + init);
      var s := Run(steps + init);
      if Enabled(s, last) {
        assert Waits(s, last, c) by { NotForChannel(s, last, c); }
        StepInOrder(s, last, c);
        TagStays(s, last, c);
      }
    }
  }

  lemma NotForChannel(s: State, step: Step, c: int)
    requires 0 <= c < |s.chans| && !(step.Begin? && step.tag == s.chans[c].tag)
    ensures Waits(s, step, c)
  {
  }

  lemma TagStays(s: State, step: Step, c: int)
    requires Enabled(s, step) && 0 <= c < |s.chans|
    ensures c < |Apply(s, step).chans| && Apply(s, step).chans[c].tag == s.chans[c].tag
  {
  }

  lemma InOrderIsNotOvertaken(s: State, c: int)
    requires 0 <= c < |s.chans| && InOrder(s, c)
    ensures !Overtaken(s, c)
  {
    hide Due, Owes;
    var ch := s.chans[c];
    if ch.open && Owed(s, c) {
      var p :| Owing(s, p, c);
      assert ch.sent + [s.dispatches[p].msg] == Due(s.log, ch);
    }
  }

  /** The sender of a dispatch can go first: once its channel's reader has read. */
  lemma {:induction false} CanSendNow(steps: seq<Step>, p: nat, i: nat) returns (more: seq<Step>)
    requires In(Run(steps), p, Sending) && i < |Run(steps).dispatches[p].senders|
    requires Run(steps).dispatches[p].senders[i] == Pending
    requires i < |Run(steps).dispatches[p].listeners| && 0 <= Run(steps).dispatches[p].listeners[i] < |Run(steps).chans|
    ensures forall k :: 0 <= k < |more| ==> !more[k].Begin?
    ensures var s, s', d := Run(steps), Run(steps + more), Run(steps).dispatches[p]; var c := d.listeners[i];
            |s'.chans| == |s.chans| && s'.log == s.log &&
            Kept(s.chans[c].(sent := s.chans[c].sent + [d.msg]), s'.chans[c])
    decreases |Run(steps).chans[Run(steps).dispatches[p].listeners[i]].buffer|
  {
    var s := Run(steps);
    var c := s.dispatches[p].listeners[i];
    if s.chans[c].buffer == [] {
      more := [Send(p, i)];
      OneMoreStep(steps, Send(p, i));
    } else {
      OneMoreStep(steps, Receive(c));
      assert Enabled(s, Receive(c));
      var rest := CanSendNow(steps + [Receive(c)], p, i);
      more := [Receive(c)] + rest;
      assert steps + [Receive(c)] + rest == steps + more;
    }
  }

  lemma OneMoreStep(steps: seq<Step>, step: Step)
    ensures Run(steps + [step]) == Do(Run(steps), step)
  {
    assert (steps + [step])[..|steps|] == steps;
  }

  /** When a dispatch begins to a registered channel that has been given its messages in
      order so far, some schedule upsets the order, before the next dispatch of the tag
      begins, exactly if an earlier dispatch still owes the channel its message. */
  lemma OvertakenIffOwed(steps: seq<Step>, p: nat, tag: Tag, text: string, c: int)
    requires Enabled(Run(steps), Begin(p, tag, text))
    requires 0 <= c < |Run(steps).chans| && Run(steps).chans[c].open && Run(steps).chans[c].tag == tag
    requires Run(steps).chans[c].since <= |Run(steps).log| && SentInOrder(Run(steps), c)
    ensures CanOvertake(steps + [Begin(p, tag, text)], c, tag) <==> Owed(Run(steps), c)
  {
    hide Inv, Apply, InOrder, Run, Enabled, SentInOrder;
    var begin := Begin(p, tag, text);
    EveryRunIsSafe(steps);
    OneMoreStep(steps, begin);
    if Owed(Run(steps), c) {
      NewcomerOvertakes(steps, p, tag, text, c);
    } else {
      NotOwedHasAll(steps, c);
      StepInOrder(Run(steps), begin, c);
      TagStays(Run(steps), begin, c);
      forall more | NoBegin(more, tag) ensures !Overtaken(Run(steps + [begin] + more), c) {
        StaysInOrder(steps + [begin], more, c, tag);
        InOrderIsNotOvertaken(Run(steps + [begin] + more), c);
      }
    }
  }

  /** A dispatch that has just begun has a sender for every open channel of its tag. */
  lemma HasSender(s: State, p: nat, tag: Tag, text: string, c: int) returns (i: nat)
    requires Inv(s) && Enabled(s, Begin(p, tag, text))
    requires 0 <= c < |s.chans| && s.chans[c].open && s.chans[c].tag == tag
    ensures var s' := Apply(s, Begin(p, tag, text));
            && In(s', p, Sending) && s'.chans == s.chans && s'.log == s.log + [(tag, Msg(text, |s.log|))]
            && var d := s'.dispatches[p];
               && i < |d.senders| && i < |d.listeners| && d.senders[i] == Pending && d.listeners[i] == c
               && d.msg == Msg(text, |s.log|)
  {
    var listeners := At(s.reg, tag);
    assert c in listeners;
    i :| 0 <= i < |listeners| && listeners[i] == c;
  }

  lemma NewcomerOvertakes(steps: seq<Step>, p: nat, tag: Tag, text: string, c: int)
    requires Enabled(Run(steps), Begin(p, tag, text)) && Owed(Run(steps), c)
    requires 0 <= c < |Run(steps).chans| && Run(steps).chans[c].open && Run(steps).chans[c].tag == tag
    requires Run(steps).chans[c].since <= |Run(steps).log| && SentInOrder(Run(steps), c)
    ensures CanOvertake(steps + [Begin(p, tag, text)], c, tag)
  {
    hide Inv, Run, Enabled, Due, Apply, In, Kept, Owed, SentInOrder, Overtaken, InOrder;
    var begin := Begin(p, tag, text);
    var s, begun := Run(steps), steps + [begin];
    EveryRunIsSafe(steps);
    EveryRunIsNumbered(steps);
    OneMoreStep(steps, begin);
    var i := HasSender(s, p, tag, text, c);
    var more := CanSendNow(begun, p, i);
    NotOwedHasAll(steps, c);
    NewcomerIsOut(s, Run(begun + more), c, tag, Msg(text, |s.log|));
    assert NoBegin(more, tag);
  }

  lemma NewcomerIsOut(s: State, s': State, c: int, tag: Tag, msg: Msg)
    requires 0 <= c < |s.chans| && c < |s'.chans| && s.chans[c].open && s.chans[c].tag == tag
    requires s.chans[c].since <= |s.log| && s'.log == s.log + [(tag, msg)] && msg.nth == |s.log|
    requires forall i :: 0 <= i < |s.log| ==> s.log[i].1.nth == i
    requires Kept(s.chans[c].(sent := s.chans[c].sent + [msg]), s'.chans[c])
    requires SentInOrder(s, c) && s.chans[c].sent != Due(s.log, s.chans[c])
    ensures Overtaken(s', c)
  {
    var ch, ch' := s.chans[c], s'.chans[c];
    var due := Due(s.log, ch);
    DueSnoc(s.log, ch, tag, msg);
    assert Due(s'.log, ch') == Due(s'.log, ch);
    ForTagIsLogged(s.log, ch.since, tag, |s.log|);
    assert s.log[ch.since..|s.log|] == s.log[ch.since..];
    assert due[|ch.sent|] in due;
    assert (due + [msg])[|ch.sent|] == due[|ch.sent|];
    assert ch'.sent[|ch.sent|] == msg;
  }

  /** The one listener of the witness below, given the messages `sent` and not yet read. */
  function Listener(tag: Tag, sent: seq<Msg>): Chan {
    Chan(tag, 2, true, sent, 0, sent, [], [], 0)
  }

  function Loop(tag: Tag, msg: Msg, sender: Sender): Dispatch {
    Dispatch(tag, msg, [0], [sender], [], Sending)
  }

  /** Both loops are sending. */
  function Both(tag: Tag, a: Msg, b: Msg, x: Sender, y: Sender, sent: seq<Msg>): State {
    State(map[tag := [0]], [Listener(tag, sent)], map[0 := Loop(tag, a, x), 1 := Loop(tag, b, y)],
          [(tag, a), (tag, b)], false)
  }

  /** The listener is registered, and nothing has been dispatched. */
  function Listening(tag: Tag): State {
    State(map[tag := [0]], [Listener(tag, [])], map[], [], false)
  }

  /** The first loop is sending. */
  function One(tag: Tag, a: Msg): State {
    State(map[tag := [0]], [Listener(tag, [])], map[0 := Loop(tag, a, Pending)], [(tag, a)], false)
  }

  lemma ListenerCreated(tag: Tag)
    ensures Do(START, Create(tag, 2)) == Listening(tag)
  {
    assert Enabled(START, Create(tag, 2));
    assert Add(map[], tag, 0) == map[tag := [0]] by { assert [] + [0] == [0]; }
  }

  lemma FirstBegins(tag: Tag, a: string)
    ensures Do(Listening(tag), Begin(0, tag, a)) == One(tag, Msg(a, 0))
  {
    var s := Listening(tag);
    assert Enabled(s, Begin(0, tag, a));
    assert seq<Sender>(1, _ => Pending) == [Pending];
    assert Apply(s, Begin(0, tag, a)).dispatches == map[0 := Loop(tag, Msg(a, 0), Pending)];
  }

  lemma SecondBegins(tag: Tag, a: Msg, b: string)
    ensures Do(One(tag, a), Begin(1, tag, b)) == Both(tag, a, Msg(b, 1), Pending, Pending, [])
  {
    var s := One(tag, a);
    assert Enabled(s, Begin(1, tag, b));
    assert seq<Sender>(1, _ => Pending) == [Pending];
    assert Apply(s, Begin(1, tag, b)).dispatches ==
           map[0 := Loop(tag, a, Pending), 1 := Loop(tag, Msg(b, 1), Pending)];
  }

  lemma SecondGoesFirst(tag: Tag, a: Msg, b: Msg)
    ensures Do(Both(tag, a, b, Pending, Pending, []), Send(1, 0)) == Both(tag, a, b, Pending, Sent, [b])
  {
    var s := Both(tag, a, b, Pending, Pending, []);
    assert Enabled(s, Send(1, 0));
    var s' := Apply(s, Send(1, 0));
    assert s'.dispatches[1] == Loop(tag, b, Sent);
    assert s'.dispatches == map[0 := Loop(tag, a, Pending), 1 := Loop(tag, b, Sent)];
    assert Put(Listener(tag, []), b) == Listener(tag, [b]);
    assert s'.chans == [Listener(tag, [b])];
  }

  lemma FirstGoesSecond(tag: Tag, a: Msg, b: Msg)
    ensures Do(Both(tag, a, b, Pending, Sent, [b]), Send(0, 0)) == Both(tag, a, b, Sent, Sent, [b, a])
  {
    var s := Both(tag, a, b, Pending, Sent, [b]);
    assert Enabled(s, Send(0, 0));
    var s' := Apply(s, Send(0, 0));
    assert s'.dispatches[0] == Loop(tag, a, Sent);
    assert s'.dispatches == map[0 := Loop(tag, a, Sent), 1 := Loop(tag, b, Sent)];
    assert Put(Listener(tag, [b]), a) == Listener(tag, [b, a]);
    assert s'.chans == [Listener(tag, [b, a])];
  }

  /** Two loops that dispatch one tag do upset the order. */
  lemma TwoLoopsUpsetOrder(tag: Tag, a: string, b: string)
    ensures var s := Run([Create(tag, 2), Begin(0, tag, a), Begin(1, tag, b), Send(1, 0), Send(0, 0)]);
            |s.chans| == 1 && s.chans[0].open && s.chans[0].sent == [Msg(b, 1), Msg(a, 0)]
  {
    assert Run([]) == START;
    hide Run, Do;
    var create, first, second := Create(tag, 2), Begin(0, tag, a), Begin(1, tag, b);
    OneMoreStep([], create);
    ListenerCreated(tag);
    OneMoreStep([] + [create], first);
    FirstBegins(tag, a);
    OneMoreStep([] + [create] + [first], second);
    SecondBegins(tag, Msg(a, 0), b);
    OneMoreStep([] + [create] + [first] + [second], Send(1, 0));
    SecondGoesFirst(tag, Msg(a, 0), Msg(b, 1));
    OneMoreStep([] + [create] + [first] + [second] + [Send(1, 0)], Send(0, 0));
    FirstGoesSecond(tag, Msg(a, 0), Msg(b, 1));
    assert [] + [create] + [first] + [second] + [Send(1, 0)] + [Send(0, 0)] ==
           [create, first, second, Send(1, 0), Send(0, 0)];
  }

  // ---------------------------------------------------------------------------------
  // A listener that has timed out

  /** The dispatch has given up on the channel. */
  predicate GaveUp(d: Dispatch, c: int) {
    if d.phase == Sending
    then exists i :: 0 <= i < |d.listeners| && i < |d.senders| && d.listeners[i] == c
                     && (d.senders[i] == TimedOut || d.senders[i] == Marked)
    else c in d.marked
  }

  ghost predicate Doomed(s: State, c: int) {
    && 0 <= c < |s.chans|
    && (!s.chans[c].open || exists p :: p in s.dispatches && GaveUp(s.dispatches[p], c))
  }

  predicate OwnStep(step: Step, p: nat) {
    (step.Send? || step.Timeout? || step.Mark? || step.Unlock? || step.PurgeOne?) && step.p == p
  }

  /** The steps of the dispatch that gave up on the channel. */
  lemma OwnStepKeepsDoomed(s: State, step: Step, p: nat, c: int)
    requires Inv(s) && Enabled(s, step) && p in s.dispatches && GaveUp(s.dispatches[p], c)
    requires OwnStep(step, p) && !step.PurgeOne?
    ensures p in Apply(s, step).dispatches && GaveUp(Apply(s, step).dispatches[p], c)
  {
    var d, d' := s.dispatches[p], Apply(s, step).dispatches[p];
    var i :| 0 <= i < |d.listeners| && d.listeners[i] == c && (d.senders[i] == TimedOut || d.senders[i] == Marked);
    assert d'.listeners[i] == c;
  }

  lemma PurgeKeepsDoomed(s: State, p: nat, c: int)
    requires Inv(s) && Enabled(s, PurgeOne(p)) && 0 <= c < |s.chans| && GaveUp(s.dispatches[p], c)
    ensures var s' := Apply(s, PurgeOne(p));
            !s'.chans[c].open || (p in s'.dispatches && GaveUp(s'.dispatches[p], c))
  {
    var d := s.dispatches[p];
    assert d.marked == [d.marked[0]] + d.marked[1..];
    if c == d.marked[0] && s.chans[c].open {
      assert c in At(s.reg, d.tag);
    }
  }

  lemma OtherStepKeepsDispatch(s: State, step: Step, p: nat, c: int)
    requires Enabled(s, step) && p in s.dispatches && GaveUp(s.dispatches[p], c) && !OwnStep(step, p)
    ensures p in Apply(s, step).dispatches && GaveUp(Apply(s, step).dispatches[p], c)
  {
    if step == Lock(p) {
    } else {
      assert Apply(s, step).dispatches[p] == s.dispatches[p];
    }
  }

  lemma StepKeepsDoomed(s: State, step: Step, c: int)
    requires Inv(s) && Enabled(s, step) && Doomed(s, c)
    ensures Doomed(Apply(s, step), c)
  {
    if s.chans[c].open {
      var p :| p in s.dispatches && GaveUp(s.dispatches[p], c);
      if step == PurgeOne(p) {
        PurgeKeepsDoomed(s, p, c);
      } else if OwnStep(step, p) {
        OwnStepKeepsDoomed(s, step, p, c);
      } else {
        OtherStepKeepsDispatch(s, step, p, c);
      }
    }
  }

  lemma GaveUpTag(s: State, p: nat, c: int)
    requires Inv(s) && p in s.dispatches && GaveUp(s.dispatches[p], c)
    ensures 0 <= c < |s.chans| && s.chans[c].tag == s.dispatches[p].tag
  {
    var d := s.dispatches[p];
    assert Owing(s, p, c);
    OwingTag(s, p, c);
  }

  /** Once a sender has timed out, the listener is closed by the time no dispatch of its tag
      is active, whatever happens in between. */
  lemma {:induction false} FailedListenerGone(steps: seq<Step>, more: seq<Step>, c: int)
    requires Doomed(Run(steps), c)
    ensures Doomed(Run(steps + more), c)
    ensures var s := Run(steps + more); NoneActive(s, s.chans[c].tag) ==> !s.chans[c].open
  {
    hide Inv, Run, Apply, Enabled, GaveUp;
    if more == [] {
      assert steps + more == steps;
    } else {
      var init, last := more[..|more| - 1], more[|more| - 1];
      FailedListenerGone(steps, init, c);
      RunSnoc(steps, more);
      EveryRunIsSafe(steps + init);
      if Enabled(Run(steps + init), last) {
        StepKeepsDoomed(Run(steps + init), last, c);
      }
    }
    var s := Run(steps + more);
    EveryRunIsSafe(steps + more);
    if s.chans[c].open && NoneActive(s, s.chans[c].tag) {
      var p :| p in s.dispatches && GaveUp(s.dispatches[p], c);
      GaveUpTag(s, p, c);
    }
  }
}
