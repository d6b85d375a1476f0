/** When a dispatch can end.  A sender that times out must put its listener into a queue of
    five slots that is drained only after every sender is done. */
module DispatchCompletion {
  import opened Listeners
  import opened Dispatching

  function Count(senders: seq<Sender>, x: Sender): nat {
    if senders == [] then 0 else
      Count(senders[..|senders| - 1], x) + if senders[|senders| - 1] == x then 1 else 0
  }

  lemma {:induction false} CountUpdate(senders: seq<Sender>, i: nat, y: Sender, x: Sender)
    requires i < |senders|
    ensures Count(senders[i := y], x) ==
            Count(senders, x) - (if senders[i] == x then 1 else 0) + (if y == x then 1 else 0)
  {
    var n := |senders| - 1;
    if i == n {
      assert senders[i := y][..n] == senders[..n];
    } else {
      CountUpdate(senders[..n], i, y, x);
      assert senders[i := y][..n] == senders[..n][i := y];
    }
  }

  lemma {:induction false} CountPositive(senders: seq<Sender>, x: Sender)
    ensures Count(senders, x) > 0 <==> exists i :: 0 <= i < |senders| && senders[i] == x
  {
    if senders != [] {
      var n := |senders| - 1;
      CountPositive(senders[..n], x);
      assert forall i :: 0 <= i < n ==> senders[..n][i] == senders[i];
      if senders[n] != x && Count(senders, x) > 0 {
        var i :| 0 <= i < n && senders[..n][i] == x;
        assert senders[i] == x;
      }
    }
  }

  lemma {:induction false} CountNone(n: nat, x: Sender)
    requires x != Pending
    ensures Count(seq(n, _ => Pending), x) == 0
  {
    if n > 0 {
      CountNone(n - 1, x);
      assert seq<Sender>(n, _ => Pending)[..n - 1] == seq<Sender>(n - 1, _ => Pending);
    }
  }

  /** How many senders of the dispatch have timed out so far. */
  function Timeouts(d: Dispatch): nat {
    Count(d.senders, TimedOut) + Count(d.senders, Marked)
  }

  /** How many steps the senders of the dispatch can still take. */
  function Remaining(d: Dispatch): nat {
    2 * Count(d.senders, Pending) + Count(d.senders, TimedOut)
  }

  predicate Counted(d: Dispatch) {
    d.phase == Sending ==> |d.marked| == Count(d.senders, Marked) <= MARK_SLOTS
  }

  ghost predicate AllCounted(s: State) {
    forall p :: p in s.dispatches ==> Counted(s.dispatches[p])
  }

  predicate SenderStep(step: Step, p: nat) {
    (step.Send? || step.Timeout? || step.Mark?) && step.p == p
  }

  /** A step of one of p's senders shortens what remains of p. */
  lemma SenderStepShortens(s: State, step: Step, p: nat)
    requires Inv(s) && Enabled(s, step) && SenderStep(step, p) && Counted(s.dispatches[p])
    ensures In(Apply(s, step), p, Sending) && Counted(Apply(s, step).dispatches[p])
    ensures var d, d' := s.dispatches[p], Apply(s, step).dispatches[p];
            && Remaining(d') < Remaining(d)
            && Timeouts(d') == Timeouts(d) + if step.Timeout? then 1 else 0
  {
    var senders := s.dispatches[p].senders;
    var y := match step case Send(_, _) => Sent case Timeout(_, _) => TimedOut case _ => Marked;
    CountUpdate(senders, step.i, y, Pending);
    CountUpdate(senders, step.i, y, TimedOut);
    CountUpdate(senders, step.i, y, Marked);
  }

  /** Every other step leaves a sending dispatch as it is, unless it is its own unlocking. */
  lemma OthersLeaveDispatch(s: State, step: Step, p: nat)
    requires Inv(s) && Enabled(s, step) && In(s, p, Sending)
    requires !SenderStep(step, p) && step != Unlock(p)
    ensures p in Apply(s, step).dispatches && Apply(s, step).dispatches[p] == s.dispatches[p]
  {
    assert ReadLocked(s);
  }

  lemma StepCounted(s: State, step: Step)
    requires Inv(s) && AllCounted(s) && Enabled(s, step)
    ensures AllCounted(Apply(s, step))
  {
    var s' := Apply(s, step);
    forall p | p in s'.dispatches && s'.dispatches[p].phase == Sending ensures Counted(s'.dispatches[p]) {
      if step.Begin? && step.p == p {
        CountNone(|At(s.reg, step.tag)|, Marked);
      } else if SenderStep(step, p) {
        SenderStepShortens(s, step, p);
      } else if In(s, p, Sending) && step != Unlock(p) {
        OthersLeaveDispatch(s, step, p);
      }
    }
  }

  lemma {:induction false} EveryRunIsCounted(steps: seq<Step>)
    ensures Inv(Run(steps)) && AllCounted(Run(steps))
  {
    EveryRunIsSafe(steps);
    if steps != [] {
      EveryRunIsSafe(steps[..|steps| - 1]);
      EveryRunIsCounted(steps[..|steps| - 1]);
      var s, step := Run(steps[..|steps| - 1]), steps[|steps| - 1];
      if Enabled(s, step) {
        StepCounted(s, step);
      }
    }
  }

  // ---------------------------------------------------------------------------------
  // At most five timeouts: the dispatch ends under every schedule

  /** With at most five timeouts the senders never block for good: unless the dispatch can
      unlock, one of them can move, whatever the readers do. */
  lemma NeverStuck(steps: seq<Step>, p: nat)
    requires In(Run(steps), p, Sending) && Timeouts(Run(steps).dispatches[p]) <= 5
    ensures Enabled(Run(steps), Unlock(p)) ||
            exists i: nat :: Enabled(Run(steps), Timeout(p, i)) || Enabled(Run(steps), Mark(p, i))
  {
    var s := Run(steps);
    EveryRunIsCounted(steps);
    var d := s.dispatches[p];
    if !Finished(d) {
      var i: nat :| i < |d.senders| && d.senders[i] != Sent && d.senders[i] != Marked;
      if d.senders[i] == Pending {
        assert Enabled(s, Timeout(p, i));
      } else {
        CountPositive(d.senders, TimedOut);
        assert Enabled(s, Mark(p, i));
      }
    }
  }

  /** The number of steps among `more` that p's senders take, from s on. */
  ghost function SenderSteps(steps: seq<Step>, more: seq<Step>, p: nat): nat {
    if more == [] then 0 else
      var init, last := more[..|more| - 1], more[|more| - 1];
      SenderSteps(steps, init, p) +
      if Enabled(Run(steps + init), last) && SenderStep(last, p) then 1 else 0
  }

  /** p is sending throughout `more`. */
  ghost predicate KeepsSending(steps: seq<Step>, more: seq<Step>, p: nat) {
    && In(Run(steps + more), p, Sending)
    && (more != [] ==> KeepsSending(steps, more[..|more| - 1], p))
  }

  /** No schedule keeps the senders of a dispatch busy for more steps than `Remaining`. */
  lemma {:induction false} SchedulesAreShort(steps: seq<Step>, more: seq<Step>, p: nat)
    requires KeepsSending(steps, more, p)
    ensures In(Run(steps), p, Sending)
    ensures SenderSteps(steps, more, p) + Remaining(Run(steps + more).dispatches[p])
            <= Remaining(Run(steps).dispatches[p])
  {
    if more == [] {
      assert steps + more == steps;
    } else {
      var init, last := more[..|more| - 1], more[|more| - 1];
      SchedulesAreShort(steps, init, p);
      RunSnoc(steps, more);
      EveryRunIsCounted(steps + init);
      var s := Run(steps + init);
      if Enabled(s, last) {
        if SenderStep(last, p) {
          SenderStepShortens(s, last, p);
        } else {
          OthersLeaveDispatch(s, last, p);
        }
      }
    }
  }

  // ---------------------------------------------------------------------------------
  // Six timeouts: the dispatch never ends, and the registry is locked for ever

  lemma Overfull(d: Dispatch)
    requires Counted(d) && d.phase == Sending && Timeouts(d) > MARK_SLOTS
    ensures !Finished(d)
  {
    CountPositive(d.senders, TimedOut);
  }

  lemma {:induction false} SixTimeoutsBlockForEver(steps: seq<Step>, more: seq<Step>, p: nat)
    requires In(Run(steps), p, Sending) && Timeouts(Run(steps).dispatches[p]) > 5
    ensures var s := Run(steps + more);
            && In(s, p, Sending) && !Finished(s.dispatches[p])
            && Timeouts(s.dispatches[p]) > 5
            && s.reg == Run(steps).reg
  {
    EveryRunIsCounted(steps + more);
    if more == [] {
      assert steps + more == steps;
    } else {
      var init, last := more[..|more| - 1], more[|more| - 1];
      SixTimeoutsBlockForEver(steps, init, p);
      RunSnoc(steps, more);
      EveryRunIsCounted(steps + init);
      var s := Run(steps + init);
      assert ReadLocked(s);
      if Enabled(s, last) {
        if SenderStep(last, p) {
          SenderStepShortens(s, last, p);
        } else {
          OthersLeaveDispatch(s, last, p);
        }
      }
    }
    Overfull(Run(steps + more).dispatches[p]);
  }

  // ---------------------------------------------------------------------------------
  // Exactly when a dispatch can still end

  /** One step that brings p nearer to its end without another timeout: queue a listener,
      send, or let the reader of a full channel read. */
  lemma HelpfulStep(s: State, p: nat) returns (step: Step)
    requires Inv(s) && AllCounted(s) && In(s, p, Sending)
    requires !Finished(s.dispatches[p]) && Timeouts(s.dispatches[p]) <= MARK_SLOTS
    ensures Enabled(s, step) && In(Apply(s, step), p, Sending)
    ensures var d, d' := s.dispatches[p], Apply(s, step).dispatches[p];
            && Timeouts(d') == Timeouts(d)
            && (Remaining(d') < Remaining(d) ||
                (d' == d && Backlog(Apply(s, step).chans) < Backlog(s.chans)))
  {
    var d := s.dispatches[p];
    var i: nat :| i < |d.senders| && d.senders[i] != Sent && d.senders[i] != Marked;
    var c := d.listeners[i];
    assert c in At(s.reg, d.tag);
    if d.senders[i] == TimedOut {
      CountPositive(d.senders, TimedOut);
      step := Mark(p, i);
      SenderStepShortens(s, step, p);
    } else if s.chans[c].buffer == [] {
      step := Send(p, i);
      SenderStepShortens(s, step, p);
    } else {
      step := Receive(c);
      BacklogUpdate(s.chans, c, Take(s.chans[c]));
    }
  }

  /** All the messages waiting in channels. */
  function Backlog(chans: seq<Chan>): nat {
    if chans == [] then 0 else Backlog(chans[..|chans| - 1]) + |chans[|chans| - 1].buffer|
  }

  lemma {:induction false} BacklogUpdate(chans: seq<Chan>, c: int, ch: Chan)
    requires 0 <= c < |chans|
    ensures Backlog(chans[c := ch]) == Backlog(chans) - |chans[c].buffer| + |ch.buffer|
  {
    var n := |chans| - 1;
    if c == n {
      assert chans[c := ch][..n] == chans[..n];
    } else {
      BacklogUpdate(chans[..n], c, ch);
      assert chans[c := ch][..n] == chans[..n][c := ch];
    }
  }

  /** A schedule continued from a state. */
  ghost function Continue(s: State, more: seq<Step>): State
    decreases |more|
  {
    if more == [] then s else Continue(Do(s, more[0]), more[1..])
  }

  lemma {:induction false} ContinueRun(steps: seq<Step>, more: seq<Step>)
    ensures Continue(Run(steps), more) == Run(steps + more)
    decreases |more|
  {
    if more == [] {
      assert steps + more == steps;
    } else {
      var first := steps + [more[0]];
      assert first[..|first| - 1] == steps;
      ContinueRun(first, more[1..]);
      assert steps + more == first + more[1..];
    }
  }

  /** With at most five timeouts so far, some continuation ends the dispatch. */
  lemma {:induction false} CanStillEnd(s: State, p: nat) returns (more: seq<Step>)
    requires Inv(s) && AllCounted(s) && In(s, p, Sending) && Timeouts(s.dispatches[p]) <= MARK_SLOTS
    ensures In(Continue(s, more), p, Unlocked)
    decreases Remaining(s.dispatches[p]), Backlog(s.chans)
  {
    if Finished(s.dispatches[p]) {
      more := [Unlock(p)];
      assert Continue(Do(s, Unlock(p)), more[1..]) == Do(s, Unlock(p));
    } else {
      var step := HelpfulStep(s, p);
      StepKeeps(s, step);
      StepCounted(s, step);
      var rest := CanStillEnd(Apply(s, step), p);
      more := [step] + rest;
      assert more[1..] == rest;
    }
  }

  /** A dispatch that is sending can still end, under some schedule, exactly if at most five
      of its listeners have timed out. */
  lemma EndsIffAtMostFiveTimeouts(steps: seq<Step>, p: nat)
    requires In(Run(steps), p, Sending)
    ensures Timeouts(Run(steps).dispatches[p]) <= 5 <==>
            exists more :: In(Run(steps + more), p, Unlocked)
  {
    if Timeouts(Run(steps).dispatches[p]) <= MARK_SLOTS {
      EveryRunIsCounted(steps);
      var more := CanStillEnd(Run(steps), p);
      ContinueRun(steps, more);
    } else {
      forall more ensures !In(Run(steps + more), p, Unlocked) {
        SixTimeoutsBlockForEver(steps, more, p);
      }
    }
  }

  // ---------------------------------------------------------------------------------
  // Which dispatches can block

  /** n listeners for the tag are created. */
  function Creates(tag: Tag, n: nat): seq<Step> {
    if n == 0 then [] else Creates(tag, n - 1) + [Create(tag, 1)]
  }

  /** Any number of listeners can be registered when a dispatch begins. */
  lemma {:induction false} ListenersRegistered(tag: Tag, n: nat, p: nat, text: string)
    ensures var s := Run(Creates(tag, n));
            |At(s.reg, tag)| == n && s.dispatches == map[] && Enabled(s, Begin(p, tag, text))
  {
    if n > 0 {
      ListenersRegistered(tag, n - 1, p, text);
      assert Creates(tag, n)[..|Creates(tag, n)| - 1] == Creates(tag, n - 1);
    }
  }

  /** The first n senders of p time out. */
  function TimeoutSteps(p: nat, n: nat): seq<Step> {
    if n == 0 then [] else TimeoutSteps(p, n - 1) + [Timeout(p, n - 1)]
  }

  predicate FirstTimedOut(senders: seq<Sender>, n: nat) {
    forall i :: 0 <= i < |senders| ==> senders[i] == if i < n then TimedOut else Pending
  }

  lemma {:induction false} CountFirst(senders: seq<Sender>, n: nat)
    requires FirstTimedOut(senders, n) && n <= |senders|
    ensures Count(senders, TimedOut) == n && Count(senders, Marked) == 0
  {
    if senders != [] {
      var k := |senders| - 1;
      CountFirst(senders[..k], if n <= k then n else k);
    }
  }

  lemma OneTimesOut(s: State, p: nat, n: nat)
    requires In(s, p, Sending) && n < |s.dispatches[p].senders| && FirstTimedOut(s.dispatches[p].senders, n)
    ensures var s' := Do(s, Timeout(p, n));
            && In(s', p, Sending) && |s'.dispatches[p].senders| == |s.dispatches[p].senders|
            && FirstTimedOut(s'.dispatches[p].senders, n + 1)
  {
  }

  lemma KeepsSendingSnoc(steps: seq<Step>, init: seq<Step>, last: Step, p: nat)
    requires KeepsSending(steps, init, p) && In(Do(Run(steps + init), last), p, Sending)
    ensures KeepsSending(steps, init + [last], p)
    ensures Run(steps + (init + [last])) == Do(Run(steps + init), last)
  {
    hide Do, Run, In;
    RunSnoc(steps, init + [last]);
    assert (init + [last])[..|init + [last]| - 1] == init;
  }

  /** Readers that do not read make any number of senders time out. */
  lemma {:induction false} AllMayTimeOut(steps: seq<Step>, p: nat, n: nat)
    requires In(Run(steps), p, Sending) && FirstTimedOut(Run(steps).dispatches[p].senders, 0)
    requires n <= |Run(steps).dispatches[p].senders|
    ensures KeepsSending(steps, TimeoutSteps(p, n), p) && In(Run(steps + TimeoutSteps(p, n)), p, Sending)
    ensures var d := Run(steps + TimeoutSteps(p, n)).dispatches[p];
            |d.senders| == |Run(steps).dispatches[p].senders| && FirstTimedOut(d.senders, n)
  {
    hide Run, Do, FirstTimedOut;
    if n == 0 {
      assert steps + TimeoutSteps(p, 0) == steps;
    } else {
      AllMayTimeOut(steps, p, n - 1);
      OneTimesOut(Run(steps + TimeoutSteps(p, n - 1)), p, n - 1);
      KeepsSendingSnoc(steps, TimeoutSteps(p, n - 1), Timeout(p, n - 1), p);
    }
  }

  lemma {:induction false} AtMostSenders(senders: seq<Sender>)
    ensures Count(senders, TimedOut) + Count(senders, Marked) <= |senders|
  {
    if senders != [] { AtMostSenders(senders[..|senders| - 1]); }
  }

  lemma {:induction false} SameSenders(steps: seq<Step>, more: seq<Step>, p: nat)
    requires KeepsSending(steps, more, p)
    ensures In(Run(steps), p, Sending)
    ensures |Run(steps + more).dispatches[p].senders| == |Run(steps).dispatches[p].senders|
  {
    if more == [] {
      assert steps + more == steps;
    } else {
      var init, last := more[..|more| - 1], more[|more| - 1];
      SameSenders(steps, init, p);
      RunSnoc(steps, more);
      EveryRunIsCounted(steps + init);
      var s := Run(steps + init);
      if Enabled(s, last) && !SenderStep(last, p) {
        OthersLeaveDispatch(s, last, p);
      }
    }
  }

  /** From here on no schedule ends the dispatch. */
  ghost predicate NeverEnds(steps: seq<Step>, p: nat) {
    forall rest :: !In(Run(steps + rest), p, Unlocked)
  }

  lemma NeverEndsIff(steps: seq<Step>, p: nat)
    requires In(Run(steps), p, Sending)
    ensures NeverEnds(steps, p) <==> Timeouts(Run(steps).dispatches[p]) > MARK_SLOTS
  {
    hide In, Run, Timeouts;
    EndsIffAtMostFiveTimeouts(steps, p);
  }

  /** When a dispatch begins, some schedule blocks it for ever exactly if more than five
      listeners are registered under its tag. */
  lemma CanBlockIffMoreThanFive(steps: seq<Step>, p: nat, tag: Tag, text: string)
    requires Enabled(Run(steps), Begin(p, tag, text))
    ensures var begun := steps + [Begin(p, tag, text)];
            |At(Run(steps).reg, tag)| > 5 <==>
            exists more :: KeepsSending(begun, more, p) && NeverEnds(begun + more, p)
  {
    var begun := steps + [Begin(p, tag, text)];
    assert begun[..|begun| - 1] == steps;
    var n := |At(Run(steps).reg, tag)|;
    assert In(Run(begun), p, Sending) && |Run(begun).dispatches[p].senders| == n;
    assert FirstTimedOut(Run(begun).dispatches[p].senders, 0);
    hide *;
    if n > MARK_SLOTS {
      SixMayTimeOut(begun, p);
    }
    forall more | KeepsSending(begun, more, p) && NeverEnds(begun + more, p)
      ensures n > MARK_SLOTS
    {
      SameSenders(begun, more, p);
      StillSending(begun, more, p);
      NeverEndsIff(begun + more, p);
      TimeoutsAtMost(Run(begun + more).dispatches[p]);
    }
  }

  /** Six listeners suffice, from the start. */
  lemma SixListenersCanBlock(tag: Tag, p: nat, text: string)
    ensures var begun := Creates(tag, MARK_SLOTS + 1) + [Begin(p, tag, text)];
            exists more :: KeepsSending(begun, more, p) && NeverEnds(begun + more, p)
  {
    hide Creates, KeepsSending, NeverEnds, At, Run, Enabled;
    ListenersRegistered(tag, MARK_SLOTS + 1, p, text);
    CanBlockIffMoreThanFive(Creates(tag, MARK_SLOTS + 1), p, tag, text);
  }

  lemma TimeoutsAtMost(d: Dispatch)
    ensures Timeouts(d) <= |d.senders|
  {
    AtMostSenders(d.senders);
  }

  lemma StillSending(steps: seq<Step>, more: seq<Step>, p: nat)
    requires KeepsSending(steps, more, p)
    ensures In(Run(steps + more), p, Sending)
  {
  }

  lemma SixMayTimeOut(steps: seq<Step>, p: nat)
    requires In(Run(steps), p, Sending) && FirstTimedOut(Run(steps).dispatches[p].senders, 0)
    requires |Run(steps).dispatches[p].senders| > MARK_SLOTS
    ensures exists more :: KeepsSending(steps, more, p) && NeverEnds(steps + more, p)
  {
    hide Run, KeepsSending, NeverEnds;
    var more := TimeoutSteps(p, MARK_SLOTS + 1);
    AllMayTimeOut(steps, p, MARK_SLOTS + 1);
    CountFirst(Run(steps + more).dispatches[p].senders, MARK_SLOTS + 1);
    NeverEndsIff(steps + more, p);
  }
}
