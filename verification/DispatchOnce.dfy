/** What each step of the dispatch machine means for one channel; and that, whoever
    dispatches, a registered channel is given every message for its tag exactly once. */
module DispatchOnce {
  import opened Listeners
  import opened Dispatching

  /** The messages of the log that carry the tag. */
  function ForTag(log: seq<(Tag, Msg)>, tag: Tag): seq<Msg> {
    if log == [] then [] else
      ForTag(log[..|log| - 1], tag) +
      if log[|log| - 1].0 == tag then [log[|log| - 1].1] else []
  }

  /** What a channel should have been given: the messages for its tag since it exists. */
  function Due(log: seq<(Tag, Msg)>, ch: Chan): seq<Msg>
    requires ch.since <= |log|
  {
    ForTag(log[ch.since..], ch.tag)
  }

  lemma DueSnoc(log: seq<(Tag, Msg)>, ch: Chan, tag: Tag, msg: Msg)
    requires ch.since <= |log|
    ensures Due(log + [(tag, msg)], ch) == Due(log, ch) + if ch.tag == tag then [msg] else []
  {
    var l := (log + [(tag, msg)])[ch.since..];
    assert l[..|l| - 1] == log[ch.since..];
  }

  /** The dispatch has not given its message to the channel (yet). */
  predicate Owes(d: Dispatch, c: int) {
    if d.phase == Sending
    then exists i :: 0 <= i < |d.listeners| && i < |d.senders| && d.listeners[i] == c && d.senders[i] != Sent
    else c in d.marked
  }

  predicate Owing(s: State, p: nat, c: int) {
    p in s.dispatches && Owes(s.dispatches[p], c)
  }

  ghost predicate Owed(s: State, c: int) {
    exists p :: Owing(s, p, c)
  }

  /** A dispatch owes its message only to channels of its own tag. */
  lemma OwingTag(s: State, p: nat, c: int)
    requires Inv(s) && Owing(s, p, c)
    ensures 0 <= c < |s.chans| && s.chans[c].tag == s.dispatches[p].tag
  {
    var d := s.dispatches[p];
    if d.phase == Sending {
      assert c in At(s.reg, d.tag);
    } else {
      var k :| 0 <= k < |d.marked| && d.marked[k] == c;
    }
  }

  // ---------------------------------------------------------------------------------
  // What a step does to one channel

  /** The same channel, but for traffic out of its buffer. */
  predicate Kept(ch: Chan, ch': Chan) {
    ch'.(buffer := [], received := []) == ch.(buffer := [], received := [])
  }

  ghost predicate SameOwers(s: State, s': State, c: int) {
    forall p :: Owing(s', p, c) <==> Owing(s, p, c)
  }

  ghost predicate SameMsgs(s: State, s': State) {
    forall p :: p in s.dispatches && p in s'.dispatches ==>
      s'.dispatches[p].msg == s.dispatches[p].msg && s'.dispatches[p].tag == s.dispatches[p].tag
  }

  predicate KeptOrShut(s: State, s': State, c: int)
    requires 0 <= c < |s.chans|
  {
    c < |s'.chans| && (Kept(s.chans[c], s'.chans[c]) || s'.chans[c] == Shut(s.chans[c]))
  }

  /** Nothing is dispatched or given to the channel: it stays as it is and is owed what it
      was owed, or it is closed. */
  ghost predicate Quiet(s: State, s': State, c: int)
    requires 0 <= c < |s.chans|
  {
    && s'.log == s.log && SameMsgs(s, s')
    && (forall p :: p in s'.dispatches ==> p in s.dispatches)
    && KeptOrShut(s, s', c)
    && (s'.chans[c].open ==> SameOwers(s, s', c))
  }

  /** A sender's progress only concerns its own listener. */
  lemma OwesOthers(d: Dispatch, i: nat, x: Sender, c: int)
    requires d.phase == Sending && |d.senders| == |d.listeners| && i < |d.senders|
    requires c != d.listeners[i] || (x != Sent && d.senders[i] != Sent)
    ensures Owes(d.(senders := d.senders[i := x]), c) <==> Owes(d, c)
  {
    var d' := d.(senders := d.senders[i := x]);
    if Owes(d, c) {
      var j :| 0 <= j < |d.listeners| && d.listeners[j] == c && d.senders[j] != Sent;
      assert d'.senders[j] != Sent;
    }
  }

  /** Sending to others, timing out, or being queued for deletion. */
  lemma SenderSameOwers(s: State, step: Step, c: int)
    requires Inv(s) && Enabled(s, step)
    requires step.Timeout? || step.Mark? || (step.Send? && s.dispatches[step.p].listeners[step.i] != c)
    ensures SameOwers(s, Apply(s, step), c)
  {
    var d := s.dispatches[step.p];
    assert |d.senders| == |d.listeners|;
    var x := if step.Mark? then Marked else if step.Timeout? then TimedOut else Sent;
    OwesOthers(d, step.i, x, c);
    hide Inv;
    SenderMoves(s, step, x);
    var d' := d.(senders := d.senders[step.i := x]);
    assert Owes(Apply(s, step).dispatches[step.p], c) <==> Owes(d', c);
    hide Apply, Owes;
  }

  lemma SenderMoves(s: State, step: Step, x: Sender)
    requires Enabled(s, step) && (step.Timeout? || step.Mark? || step.Send?)
    requires x == if step.Mark? then Marked else if step.Timeout? then TimedOut else Sent
    ensures var d, s' := s.dispatches[step.p], Apply(s, step);
            && (forall q :: q in s'.dispatches <==> q in s.dispatches)
            && (forall q :: q in s.dispatches && q != step.p ==> s'.dispatches[q] == s.dispatches[q])
            && s'.dispatches[step.p].(marked := d.marked) == d.(senders := d.senders[step.i := x])
  {
  }

  /** When all senders are done, the listeners still owed the message are the queued ones. */
  lemma UnlockSameOwers(s: State, p: nat, c: int)
    requires Inv(s) && Enabled(s, Unlock(p)) && 0 <= c < |s.chans| && s.chans[c].open
    ensures SameOwers(s, Apply(s, Unlock(p)), c)
  {
    var s', d := Apply(s, Unlock(p)), s.dispatches[p];
    if c in d.marked { MarkedIsListener(s, p, c); }
    assert Owes(s'.dispatches[p], c) <==> Owes(d, c);
    hide Inv, Owes;
  }

  lemma MarkedIsListener(s: State, p: nat, c: int)
    requires Inv(s) && In(s, p, Sending) && 0 <= c < |s.chans| && s.chans[c].open && c in s.dispatches[p].marked
    ensures var d := s.dispatches[p];
            |d.senders| == |d.listeners| &&
            exists i :: 0 <= i < |d.listeners| && d.listeners[i] == c && d.senders[i] == Marked
  {
    var d := s.dispatches[p];
    var k :| 0 <= k < |d.marked| && d.marked[k] == c;
    assert c in At(s.reg, d.tag);
    var i :| 0 <= i < |d.listeners| && d.listeners[i] == c;
    assert d.senders[i] == Marked;
  }

  lemma PurgedIsClosed(s: State, p: nat)
    requires Inv(s) && Enabled(s, PurgeOne(p))
    ensures !DeleteListener(s, s.dispatches[p].marked[0], s.dispatches[p].tag).chans[s.dispatches[p].marked[0]].open
  {
    assert WriteLocked(s);
    DeleteListenerKeeps(s, s.dispatches[p].marked[0], s.dispatches[p].tag);
  }

  lemma PurgeSameOwers(s: State, p: nat, c: int)
    requires Inv(s) && Enabled(s, PurgeOne(p)) && 0 <= c < |s.chans| && Apply(s, PurgeOne(p)).chans[c].open
    ensures SameOwers(s, Apply(s, PurgeOne(p)), c)
  {
    hide Inv;
    var s', d := Apply(s, PurgeOne(p)), s.dispatches[p];
    PurgedIsClosed(s, p);
    hide At, Delete, Shut;
    assert c != d.marked[0];
    assert c in d.marked <==> c in d.marked[1..];
    assert Owes(s'.dispatches[p], c) <==> Owes(d, c);
    hide Owes;
  }

  lemma OtherSameOwers(s: State, step: Step, c: int)
    requires Inv(s) && Enabled(s, step)
    requires step.Create? || step.Receive? || step.Lock? || step.Return? || step.Callback?
    ensures SameOwers(s, Apply(s, step), c)
  {
    hide Inv;
    if step.Lock? || step.Return? {
      assert Owing(Apply(s, step), step.p, c) <==> Owing(s, step.p, c);
      hide Owes;
    }
  }

  lemma ChannelStays(s: State, step: Step, c: int)
    requires Enabled(s, step) && 0 <= c < |s.chans| && !step.Begin? && !GivesTo(s, step, c)
    ensures KeptOrShut(s, Apply(s, step), c)
  {
  }

  predicate GivesTo(s: State, step: Step, c: int) {
    step.Send? && step.p in s.dispatches && step.i < |s.dispatches[step.p].listeners| &&
    s.dispatches[step.p].listeners[step.i] == c
  }

  lemma MostStepsAreQuiet(s: State, step: Step, c: int)
    requires Inv(s) && Enabled(s, step) && 0 <= c < |s.chans|
    requires !step.Begin? && !GivesTo(s, step, c)
    ensures Quiet(s, Apply(s, step), c)
  {
    ChannelStays(s, step, c);
    OthersKeepMsgs(s, step);
    assert GivesTo(s, step, c) <==> step.Send? && s.dispatches[step.p].listeners[step.i] == c;
    if Apply(s, step).chans[c].open {
      assert s.chans[c].open;
      hide Inv, Apply, Enabled, SameOwers, KeptOrShut, SameMsgs;
      match step
      case Send(_, _) => SenderSameOwers(s, step, c);
      case Timeout(_, _) => SenderSameOwers(s, step, c);
      case Mark(_, _) => SenderSameOwers(s, step, c);
      case Unlock(p) => UnlockSameOwers(s, p, c);
      case PurgeOne(p) => PurgeSameOwers(s, p, c);
      case _ => OtherSameOwers(s, step, c);
    }
  }

  /** A dispatch that begins owes its message to the open channels of its tag. */
  ghost predicate Begun(s: State, s': State, p: nat, tag: Tag, msg: Msg, c: int)
    requires 0 <= c < |s.chans|
  {
    && s'.log == s.log + [(tag, msg)] && c < |s'.chans| && s'.chans[c] == s.chans[c]
    && p !in s.dispatches && p in s'.dispatches && s'.dispatches[p].msg == msg && s'.dispatches[p].tag == tag
    && (forall q :: q in s'.dispatches <==> q in s.dispatches || q == p)
    && SameMsgs(s, s')
    && (forall q :: q != p ==> (Owing(s', q, c) <==> Owing(s, q, c)))
    && (Owing(s', p, c) <==> s.chans[c].open && s.chans[c].tag == tag)
  }

  lemma BeginEffect(s: State, p: nat, tag: Tag, text: string, c: int)
    requires Inv(s) && Enabled(s, Begin(p, tag, text)) && 0 <= c < |s.chans|
    ensures Begun(s, Apply(s, Begin(p, tag, text)), p, tag, Msg(text, |s.log|), c)
  {
    var s' := Apply(s, Begin(p, tag, text));
    var listeners := At(s.reg, tag);
    if s.chans[c].open && s.chans[c].tag == tag {
      assert c in listeners;
      var i :| 0 <= i < |listeners| && listeners[i] == c;
      assert s'.dispatches[p].senders[i] == Pending;
    } else {
      assert c !in listeners;
    }
  }

  /** A sender gives its message to its own open channel, and owes it nothing more. */
  ghost predicate Given(s: State, s': State, p: nat, c: int)
    requires 0 <= c < |s.chans|
  {
    && s'.log == s.log && c < |s'.chans| && SameMsgs(s, s')
    && (forall q :: q in s'.dispatches <==> q in s.dispatches)
    && Owing(s, p, c) && s.chans[c].open
    && Kept(s.chans[c].(sent := s.chans[c].sent + [s.dispatches[p].msg]), s'.chans[c])
    && (forall q :: Owing(s', q, c) <==> Owing(s, q, c) && q != p)
  }

  lemma SendEffect(s: State, p: nat, i: nat, c: int)
    requires Inv(s) && Enabled(s, Send(p, i)) && s.dispatches[p].listeners[i] == c && 0 <= c < |s.chans|
    ensures Given(s, Apply(s, Send(p, i)), p, c)
  {
    var d := s.dispatches[p];
    SendKeeps(s, p, i);
    assert Distinct(d.listeners) && |d.senders| == |d.listeners|;
    hide Inv;
    SentOwesNothing(d, i);
    SenderMoves(s, Send(p, i), Sent);
    SendFills(s, p, i);
    OthersKeepMsgs(s, Send(p, i));
    assert Owes(d, c);
    hide Owes, Apply, Enabled;
  }

  lemma SentOwesNothing(d: Dispatch, i: nat)
    requires d.phase == Sending && i < |d.senders| == |d.listeners| && Distinct(d.listeners)
    ensures !Owes(d.(senders := d.senders[i := Sent]), d.listeners[i])
  {
  }

  lemma SendFills(s: State, p: nat, i: nat)
    requires Enabled(s, Send(p, i))
    ensures var s', d := Apply(s, Send(p, i)), s.dispatches[p]; var c := d.listeners[i];
            && p in s'.dispatches && s'.dispatches[p] == d.(senders := d.senders[i := Sent])
            && |s'.chans| == |s.chans| && Kept(s.chans[c].(sent := s.chans[c].sent + [d.msg]), s'.chans[c])
  {
  }

  /** A new channel is owed nothing. */
  lemma NewChannelOwedNothing(s: State, step: Step)
    requires Inv(s) && Enabled(s, step) && step.Create?
    ensures !Owed(Apply(s, step), |s.chans|)
  {
    var s', c := Apply(s, step), |s.chans|;
    forall p | p in s'.dispatches ensures !Owes(s'.dispatches[p], c) {
      assert !In(s, p, Sending);
      assert DispatchFits(s.reg, s.chans, s.dispatches[p]);
    }
  }

  // ---------------------------------------------------------------------------------
  // Numbers

  /** Every message is in the log at its number, and no two dispatches have the same one. */
  ghost predicate Numbered(s: State) {
    && (forall i :: 0 <= i < |s.log| ==> s.log[i].1.nth == i)
    && (forall p :: p in s.dispatches ==>
          s.dispatches[p].msg.nth < |s.log| &&
              s.log[s.dispatches[p].msg.nth] == (s.dispatches[p].tag, s.dispatches[p].msg))
    && (forall p, q :: p in s.dispatches && q in s.dispatches && p != q ==>
          s.dispatches[p].msg != s.dispatches[q].msg)
  }

  lemma StepNumbered(s: State, step: Step)
    requires Numbered(s) && Enabled(s, step)
    ensures Numbered(Apply(s, step))
  {
    if step.Begin? {
      BeginNumbered(s, step.p, step.tag, step.text);
    } else {
      OthersKeepMsgs(s, step);
      hide Apply, Enabled;
    }
  }

  lemma BeginMoves(s: State, p: nat, tag: Tag, text: string)
    requires Enabled(s, Begin(p, tag, text))
    ensures var s', msg := Apply(s, Begin(p, tag, text)), Msg(text, |s.log|);
            && p !in s.dispatches && p in s'.dispatches
            && s'.log == s.log + [(tag, msg)] && s'.dispatches == s.dispatches[p := s'.dispatches[p]]
            && s'.dispatches[p].tag == tag && s'.dispatches[p].msg == msg
  {
  }

  lemma BeginNumbered(s: State, p: nat, tag: Tag, text: string)
    requires Numbered(s) && Enabled(s, Begin(p, tag, text))
    ensures Numbered(Apply(s, Begin(p, tag, text)))
  {
    BeginMoves(s, p, tag, text);
    hide Apply, Enabled;
    var s' := Apply(s, Begin(p, tag, text));
    assert forall q :: q in s'.dispatches && q != p ==> q in s.dispatches && s'.dispatches[q] == s.dispatches[q];
  }

  lemma OthersKeepMsgs(s: State, step: Step)
    requires Enabled(s, step) && !step.Begin?
    ensures Apply(s, step).log == s.log && SameMsgs(s, Apply(s, step))
    ensures forall p :: p in Apply(s, step).dispatches ==> p in s.dispatches
  {
  }

  lemma {:induction false} EveryRunIsNumbered(steps: seq<Step>)
    ensures Numbered(Run(steps))
  {
    hide Numbered, Apply, Enabled;
    if steps != [] {
      var init, last := steps[..|steps| - 1], steps[|steps| - 1];
      EveryRunIsNumbered(init);
      if Enabled(Run(init), last) { StepNumbered(Run(init), last); }
    } else {
      StartNumbered();
    }
  }

  lemma StartNumbered()
    ensures Numbered(START)
  {
  }

  // ---------------------------------------------------------------------------------
  // Every message once

  /** The message was dispatched for the channel's tag since the channel exists. */
  predicate Logged(log: seq<(Tag, Msg)>, ch: Chan, m: Msg) {
    ch.since <= m.nth < |log| && log[m.nth] == (ch.tag, m)
  }

  ghost predicate OwedMsg(s: State, c: int, m: Msg) {
    exists p :: Owing(s, p, c) && s.dispatches[p].msg == m
  }

  /** What the channel has been given are messages due to it, none twice; and while it is
      open, each one due has either been given to it or is owed to it. */
  ghost predicate Once(s: State, c: int)
    requires 0 <= c < |s.chans|
  {
    var ch := s.chans[c];
    && ch.since <= |s.log|
    && Distinct(ch.sent)
    && (forall m :: m in ch.sent ==> Logged(s.log, ch, m))
    && (ch.open ==> forall p :: Owing(s, p, c) ==> ch.since <= s.dispatches[p].msg.nth)
    && (ch.open ==> forall m :: Logged(s.log, ch, m) ==> (m in ch.sent <==> !OwedMsg(s, c, m)))
  }

  lemma QuietOnce(s: State, s': State, c: int)
    requires 0 <= c < |s.chans| && Quiet(s, s', c) && Once(s, c)
    ensures Once(s', c)
  {
    if s'.chans[c].open {
      forall m ensures OwedMsg(s', c, m) <==> OwedMsg(s, c, m) {
        SameOwedMsg(s, s', c, m);
      }
    }
  }

  lemma SameOwedMsg(s: State, s': State, c: int, m: Msg)
    requires SameMsgs(s, s') && SameOwers(s, s', c)
    ensures OwedMsg(s', c, m) <==> OwedMsg(s, c, m)
  {
    if OwedMsg(s, c, m) {
      var p :| Owing(s, p, c) && s.dispatches[p].msg == m;
      assert Owing(s', p, c);
    }
  }

  lemma BegunOnce(s: State, s': State, p: nat, tag: Tag, msg: Msg, c: int)
    requires 0 <= c < |s.chans| && Begun(s, s', p, tag, msg, c) && Once(s, c) && msg.nth == |s.log|
    ensures Once(s', c)
  {
    var ch := s.chans[c];
    forall m ensures Logged(s'.log, ch, m) <==> Logged(s.log, ch, m) || (m == msg && ch.tag == tag) {}
    if ch.open {
      forall m ensures OwedMsg(s', c, m) <==> OwedMsg(s, c, m) || (m == msg && ch.tag == tag) {
        if OwedMsg(s, c, m) {
          var q :| Owing(s, q, c) && s.dispatches[q].msg == m;
          assert Owing(s', q, c);
        }
        if m == msg && ch.tag == tag { assert Owing(s', p, c); }
      }
    }
  }

  lemma GivenOnce(s: State, s': State, p: nat, c: int)
    requires 0 <= c < |s.chans| && Given(s, s', p, c) && Once(s, c) && Numbered(s)
    requires s.chans[c].tag == s.dispatches[p].tag
    ensures Once(s', c)
  {
    var ch, msg := s.chans[c], s.dispatches[p].msg;
    assert OwedMsg(s, c, msg) && Logged(s.log, ch, msg);
    forall m ensures OwedMsg(s', c, m) <==> OwedMsg(s, c, m) && m != msg {
      if OwedMsg(s, c, m) && m != msg {
        var q :| Owing(s, q, c) && s.dispatches[q].msg == m;
        assert Owing(s', q, c);
      }
    }
    assert forall m :: m in s'.chans[c].sent <==> m in ch.sent || m == msg;
  }

  lemma StepOnce(s: State, step: Step, c: int)
    requires Inv(s) && Numbered(s) && Enabled(s, step) && 0 <= c < |s.chans| && Once(s, c)
    ensures c < |Apply(s, step).chans| && Once(Apply(s, step), c)
  {
    hide Inv, Numbered, Apply, Once, Quiet, Given, Begun, Owing;
    var s' := Apply(s, step);
    if step.Begin? {
      BeginEffect(s, step.p, step.tag, step.text, c);
      BegunBounds(s, s', step.p, step.tag, Msg(step.text, |s.log|), c);
      BegunOnce(s, s', step.p, step.tag, Msg(step.text, |s.log|), c);
    } else if GivesTo(s, step, c) {
      SendEffect(s, step.p, step.i, c);
      GivenBounds(s, s', step.p, c);
      OwingTag(s, step.p, c);
      GivenOnce(s, s', step.p, c);
    } else {
      MostStepsAreQuiet(s, step, c);
      QuietBounds(s, s', c);
      QuietOnce(s, s', c);
    }
  }

  lemma BegunBounds(s: State, s': State, p: nat, tag: Tag, msg: Msg, c: int)
    requires 0 <= c < |s.chans| && Begun(s, s', p, tag, msg, c)
    ensures c < |s'.chans|
  {
  }

  lemma GivenBounds(s: State, s': State, p: nat, c: int)
    requires 0 <= c < |s.chans| && Given(s, s', p, c)
    ensures c < |s'.chans| && Owing(s, p, c)
  {
  }

  lemma QuietBounds(s: State, s': State, c: int)
    requires 0 <= c < |s.chans| && Quiet(s, s', c)
    ensures c < |s'.chans|
  {
  }

  lemma NewOnce(s: State, step: Step)
    requires Inv(s) && Enabled(s, step) && step.Create?
    ensures Once(Apply(s, step), |s.chans|)
  {
    hide Inv;
    var s', c := Apply(s, step), |s.chans|;
    NewChannelOwedNothing(s, step);
    assert forall p :: !Owing(s', p, c);
  }

  lemma OnlyCreateAdds(s: State, step: Step)
    requires Enabled(s, step)
    ensures |Apply(s, step).chans| == |s.chans| + if step.Create? then 1 else 0
  {
  }

  /** Whoever dispatches, in every interleaving. */
  lemma {:induction false} EveryMessageOnce(steps: seq<Step>, c: int)
    requires 0 <= c < |Run(steps).chans|
    ensures Once(Run(steps), c)
  {
    hide Inv, Numbered, Apply, Once, Enabled;
    if steps != [] {
      var init, last := steps[..|steps| - 1], steps[|steps| - 1];
      var s := Run(init);
      EveryRunIsSafe(init);
      EveryRunIsNumbered(init);
      if Enabled(s, last) {
        OnlyCreateAdds(s, last);
        if c < |s.chans| {
          EveryMessageOnce(init, c);
          StepOnce(s, last, c);
        } else {
          NewOnce(s, last);
        }
      } else {
        EveryMessageOnce(init, c);
      }
    }
  }

  /** The messages due are distinct, and just those logged. */
  lemma {:induction false} ForTagIsLogged(log: seq<(Tag, Msg)>, since: nat, tag: Tag, n: nat)
    requires since <= n <= |log| && forall i :: 0 <= i < |log| ==> log[i].1.nth == i
    ensures var due := ForTag(log[since..n], tag);
            && Distinct(due)
            && (forall m :: m in due <==> since <= m.nth < n && log[m.nth] == (tag, m))
    decreases n
  {
    if since < n {
      ForTagIsLogged(log, since, tag, n - 1);
      assert log[since..n][..n - since - 1] == log[since..n - 1];
      assert log[since..n][n - since - 1] == log[n - 1];
    }
  }

  lemma DueIsLogged(s: State, c: int)
    requires Numbered(s) && 0 <= c < |s.chans| && s.chans[c].since <= |s.log|
    ensures Distinct(Due(s.log, s.chans[c]))
    ensures forall m :: m in Due(s.log, s.chans[c]) <==> Logged(s.log, s.chans[c], m)
  {
    hide Distinct, ForTag;
    ForTagIsLogged(s.log, s.chans[c].since, s.chans[c].tag, |s.log|);
    assert s.log[s.chans[c].since..|s.log|] == s.log[s.chans[c].since..];
  }

  lemma {:induction false} SameElements(a: seq<Msg>, b: seq<Msg>)
    requires Distinct(a) && Distinct(b) && forall m :: m in a ==> m in b
    ensures |a| <= |b| && multiset(a) <= multiset(b)
    ensures (forall m :: m in b ==> m in a) ==> multiset(a) == multiset(b) && |a| == |b|
  {
    forall m ensures multiset(a)[m] <= multiset(b)[m] && (m in a ==> multiset(a)[m] == 1) && multiset(b)[m] <= 1 {
      CountOnce(a, m);
      CountOnce(b, m);
    }
    assert |multiset(a)| <= |multiset(b)| by { SizeMonotone(multiset(a), multiset(b)); }
    assert |multiset(a)| == |a| && |multiset(b)| == |b|;
    if forall m :: m in b ==> m in a {
      assert multiset(a) == multiset(b);
    }
  }

  lemma SizeMonotone(a: multiset<Msg>, b: multiset<Msg>)
    requires a <= b
    ensures |a| <= |b|
  {
    assert b == a + (b - a);
  }

  lemma {:induction false} CountOnce(a: seq<Msg>, m: Msg)
    requires Distinct(a)
    ensures multiset(a)[m] == if m in a then 1 else 0
  {
    if a != [] {
      var n := |a| - 1;
      assert a == a[..n] + [a[n]];
      CountOnce(a[..n], m);
      assert m in a <==> m in a[..n] || m == a[n];
      assert a[n] !in a[..n];
    }
  }

  /** However many loops dispatch at once, a registered channel that no dispatch owes
      anything has been given all the messages due to it, each exactly once, in some order;
      any other channel some of them, each once. */
  lemma ExactlyOnce(steps: seq<Step>, c: int)
    requires 0 <= c < |Run(steps).chans|
    ensures var s := Run(steps); var ch := s.chans[c];
            && ch.since <= |s.log|
            && multiset(ch.sent) <= multiset(Due(s.log, ch))
            && (ch.open && !Owed(s, c) ==> multiset(ch.sent) == multiset(Due(s.log, ch)))
  {
    var s := Run(steps);
    EveryMessageOnce(steps, c);
    EveryRunIsNumbered(steps);
    hide Run, Numbered, Due, Logged, Distinct;
    DueIsLogged(s, c);
    var ch := s.chans[c];
    SameElements(ch.sent, Due(s.log, ch));
    if ch.open && !Owed(s, c) {
      forall m | m in Due(s.log, ch) ensures m in ch.sent {
        assert !OwedMsg(s, c, m);
      }
    }
  }
}
