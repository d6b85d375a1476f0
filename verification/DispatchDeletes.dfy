/** What deleting a listener does to the registry and to its channel, and that nothing else
    closes a channel; and that a dispatch that has unlocked deletes those it gave up on. */
module DispatchDeletes {
  import opened Listeners
  import opened Dispatching

  predicate RegisteredUnder(s: State, t: Tag, x: int) {
    t in s.reg && x in s.reg[t]
  }

  /** The channel is registered nowhere and closed, having lost its oldest message if it had
      one and was open; every other registration and channel is what it was. */
  ghost predicate Deletes(s: State, s': State, c: int)
    requires 0 <= c < |s.chans|
  {
    && |s'.chans| == |s.chans| && s'.log == s.log && !s'.panicked
    && (forall t, x :: RegisteredUnder(s', t, x) <==> RegisteredUnder(s, t, x) && x != c)
    && (forall t :: t in s'.reg ==> s'.reg[t] != [])
    && (forall x :: 0 <= x < |s.chans| && x != c ==> s'.chans[x] == s.chans[x])
    && var ch, ch' := s.chans[c], s'.chans[c];
       if ch.open then
         && !ch'.open && ch'.dropAt == |ch.received|
         && ch'.sent == ch.sent && ch'.received == ch.received && ch'.tag == ch.tag && ch'.since == ch.since
         && (ch.buffer == [] ==> ch'.buffer == [] && ch'.dropped == [])
         && (ch.buffer != [] ==> ch'.buffer == ch.buffer[1..] && ch'.dropped == [ch.buffer[0]])
       else
         ch' == ch
  }

  lemma RegistrationIsAt(s: State, t: Tag, x: int)
    ensures RegisteredUnder(s, t, x) <==> x in At(s.reg, t)
  {
  }

  lemma DeleteListenerDeletes(s: State, c: int)
    requires Inv(s) && !ReadLocked(s) && 0 <= c < |s.chans|
    ensures Deletes(s, DeleteListener(s, c, s.chans[c].tag), c)
  {
    var tag := s.chans[c].tag;
    var s' := DeleteListener(s, c, tag);
    DeleteListenerKeeps(s, c, tag);
    DeleteKeeps(s.reg, tag, c);
    assert forall t :: t in s'.reg ==> s'.reg[t] != [];
    assert s.chans[c].open <==> c in At(s.reg, tag);
    forall t, x ensures RegisteredUnder(s', t, x) <==> RegisteredUnder(s, t, x) && x != c {
      RegistrationIsAt(s, t, x);
      RegistrationIsAt(s', t, x);
      if x == c && RegisteredUnder(s, t, x) { assert s.chans[c].tag == t; }
    }
  }

  /** A deferred delete does that to its channel, and to no dispatch. */
  lemma CallbackDeletes(s: State, c: int)
    requires Inv(s) && Enabled(s, Callback(c))
    ensures Deletes(s, Apply(s, Callback(c)), c) && Apply(s, Callback(c)).dispatches == s.dispatches
  {
    hide Inv, Deletes;
    DeleteListenerDeletes(s, c);
  }

  /** It can be done whenever no dispatch is sending or purging. */
  lemma CallbackEnabledIff(s: State, c: int)
    requires 0 <= c < |s.chans|
    ensures Enabled(s, Callback(c)) <==> forall p :: p in s.dispatches ==> s.dispatches[p].phase == Unlocked
  {
    if Enabled(s, Callback(c)) {
      forall p | p in s.dispatches ensures s.dispatches[p].phase == Unlocked {
        assert !In(s, p, Sending) && !In(s, p, Purging);
      }
    }
  }

  /** A purge does it to the first listener its dispatch has given up on. */
  lemma PurgeDeletes(s: State, p: nat)
    requires Inv(s) && Enabled(s, PurgeOne(p))
    ensures var d, s' := s.dispatches[p], Apply(s, PurgeOne(p));
            && 0 <= d.marked[0] < |s.chans| && Deletes(s, s', d.marked[0])
            && s'.dispatches == s.dispatches[p := d.(marked := d.marked[1..])]
  {
    var d := s.dispatches[p];
    assert WriteLocked(s);
    assert s.chans[d.marked[0]].tag == d.tag;
    hide Inv, Deletes;
    DeleteListenerDeletes(s, d.marked[0]);
    assert Deletes(s, Apply(s, PurgeOne(p)), d.marked[0]) by {
      var t := DeleteListener(s, d.marked[0], d.tag);
      OnlyDispatches(s, t, Apply(s, PurgeOne(p)), d.marked[0]);
    }
  }

  lemma OnlyDispatches(s: State, t: State, t': State, c: int)
    requires 0 <= c < |s.chans| && Deletes(s, t, c) && t' == t.(dispatches := t'.dispatches)
    ensures Deletes(s, t', c)
  {
    assert forall u, x :: RegisteredUnder(t', u, x) <==> RegisteredUnder(t, u, x);
  }

  /** A new channel is open and empty, and registered under its tag besides all the others. */
  lemma CreateRegisters(s: State, tag: Tag, capacity: nat)
    requires Inv(s) && Enabled(s, Create(tag, capacity))
    ensures var s' := Apply(s, Create(tag, capacity));
            && |s'.chans| == |s.chans| + 1 && s'.chans[..|s.chans|] == s.chans
            && s'.dispatches == s.dispatches && s'.log == s.log
            && (forall t, x :: RegisteredUnder(s', t, x) <==>
                  RegisteredUnder(s, t, x) || (t == tag && x == |s.chans|))
            && var ch := s'.chans[|s.chans|];
               ch.open && ch.tag == tag && ch.capacity == capacity && ch.since == |s.log| &&
               ch.buffer == ch.sent == ch.received == ch.dropped == []
  {
    var s' := Apply(s, Create(tag, capacity));
    assert s.chans == s'.chans[..|s.chans|];
    hide Inv;
    forall t, x ensures RegisteredUnder(s', t, x) <==> RegisteredUnder(s, t, x) || (t == tag && x == |s.chans|) {
      RegistrationIsAt(s, t, x);
      RegistrationIsAt(s', t, x);
    }
  }

  // ---------------------------------------------------------------------------------
  // Over a run

  ghost predicate WithinCapacity(s: State) {
    forall c :: 0 <= c < |s.chans| ==> |s.chans[c].buffer| <= s.chans[c].capacity
  }

  lemma StepWithinCapacity(s: State, step: Step)
    requires Enabled(s, step) && WithinCapacity(s)
    ensures WithinCapacity(Apply(s, step))
  {
  }

  /** Over every run no channel holds more than its capacity. */
  lemma {:induction false} EveryRunIsWithinCapacity(steps: seq<Step>)
    ensures WithinCapacity(Run(steps))
  {
    hide Enabled, Apply;
    if steps != [] {
      var init, last := steps[..|steps| - 1], steps[|steps| - 1];
      EveryRunIsWithinCapacity(init);
      if Enabled(Run(init), last) { StepWithinCapacity(Run(init), last); }
    }
  }

  /** The step, taken in s, deletes the channel. */
  ghost predicate DeletesNow(s: State, step: Step, c: int) {
    Enabled(s, step) &&
    (step == Callback(c) || (step.PurgeOne? && s.dispatches[step.p].marked[0] == c))
  }

  ghost predicate Deleted(steps: seq<Step>, c: int) {
    steps != [] &&
    (var init, last := steps[..|steps| - 1], steps[|steps| - 1];
     Deleted(init, c) || DeletesNow(Run(init), last, c))
  }

  lemma OthersKeepOpen(s: State, step: Step, c: int)
    requires Inv(s) && Enabled(s, step) && 0 <= c < |s.chans| && !DeletesNow(s, step, c)
    ensures c < |Apply(s, step).chans| && Apply(s, step).chans[c].open == s.chans[c].open
  {
    if step.Callback? {
      CallbackDeletes(s, step.c);
    } else if step.PurgeOne? {
      PurgeDeletes(s, step.p);
    } else {
      TrafficKeepsOpen(s, step, c);
    }
  }

  lemma TrafficKeepsOpen(s: State, step: Step, c: int)
    requires Enabled(s, step) && 0 <= c < |s.chans| && !step.Callback? && !step.PurgeOne?
    ensures c < |Apply(s, step).chans| && Apply(s, step).chans[c].open == s.chans[c].open
  {
  }

  lemma DeletesClose(s: State, step: Step, c: int)
    requires Inv(s) && 0 <= c < |s.chans| && DeletesNow(s, step, c)
    ensures c < |Apply(s, step).chans| && !Apply(s, step).chans[c].open
  {
    if step == Callback(c) {
      CallbackDeletes(s, c);
    } else {
      PurgeDeletes(s, step.p);
    }
  }

  lemma NewIsOpen(s: State, step: Step)
    requires Enabled(s, step)
    ensures |Apply(s, step).chans| == |s.chans| + if step.Create? then 1 else 0
    ensures step.Create? ==> Apply(s, step).chans[|s.chans|].open && Apply(s, step).chans[|s.chans|].tag == step.tag
  {
  }

  lemma DeletesExisting(s: State, step: Step, c: int)
    requires Inv(s) && DeletesNow(s, step, c)
    ensures 0 <= c < |s.chans|
  {
  }

  lemma {:induction false} DeletedExists(steps: seq<Step>, c: int)
    requires Deleted(steps, c)
    ensures 0 <= c < |Run(steps).chans|
  {
    hide Inv, Enabled, Apply, DeletesNow;
    var init, last := steps[..|steps| - 1], steps[|steps| - 1];
    var s := Run(init);
    EveryRunIsSafe(init);
    if Deleted(init, c) { DeletedExists(init, c); } else { DeletesExisting(s, last, c); }
    if Enabled(s, last) { NewIsOpen(s, last); }
  }

  /** Over every run, a channel that was created is open, and so registered, exactly until a
      deferred delete of it or a purge of it takes place. */
  lemma {:induction false} OpenIffNotDeleted(steps: seq<Step>, c: int)
    requires 0 <= c < |Run(steps).chans|
    ensures Run(steps).chans[c].open <==> !Deleted(steps, c)
  {
    hide Inv, Enabled, Apply;
    if steps != [] {
      var init, last := steps[..|steps| - 1], steps[|steps| - 1];
      var s := Run(init);
      EveryRunIsSafe(init);
      if Enabled(s, last) {
        NewIsOpen(s, last);
        if c < |s.chans| {
          OpenIffNotDeleted(init, c);
          if DeletesNow(s, last, c) { DeletesClose(s, last, c); } else { OthersKeepOpen(s, last, c); }
          if Deleted(init, c) { StaysClosed(s, last, c); }
        } else {
          if Deleted(init, c) { DeletedExists(init, c); }
          if DeletesNow(s, last, c) { DeletesExisting(s, last, c); }
        }
      } else {
        OpenIffNotDeleted(init, c);
      }
    }
  }

  lemma StaysClosed(s: State, step: Step, c: int)
    requires Inv(s) && Enabled(s, step) && 0 <= c < |s.chans| && !s.chans[c].open
    ensures c < |Apply(s, step).chans| && !Apply(s, step).chans[c].open
  {
    hide Inv, Enabled, Apply;
    if DeletesNow(s, step, c) { DeletesClose(s, step, c); } else { OthersKeepOpen(s, step, c); }
  }

  /** A sender that has not timed out can send, over every run, exactly if its channel's
      buffer is not full, or has no room at all and a reader takes the message directly. */
  lemma SendsUnlessFull(steps: seq<Step>, p: nat, i: nat)
    requires In(Run(steps), p, Sending) && i < |Run(steps).dispatches[p].senders|
    requires Run(steps).dispatches[p].senders[i] == Pending
    ensures var s := Run(steps); var d := s.dispatches[p];
            && i < |d.listeners| && 0 <= d.listeners[i] < |s.chans|
            && var ch := s.chans[d.listeners[i]];
               Enabled(s, Send(p, i)) <==> |ch.buffer| != ch.capacity || ch.capacity == 0
  {
    EveryRunIsSafe(steps);
    EveryRunIsWithinCapacity(steps);
    var d := Run(steps).dispatches[p];
    assert d.listeners[i] in At(Run(steps).reg, d.tag);
  }

  // ---------------------------------------------------------------------------------
  // Panics

  /** What would panic: a send on a closed channel, and closing a channel that is closed with
      messages still in it. */
  lemma WouldPanic(s: State, c: int, tag: Tag, m: Msg)
    requires 0 <= c < |s.chans|
    ensures !s.chans[c].open || s.panicked ==> SendTo(s, c, m).panicked
    ensures (RegisteredUnder(s, tag, c) && !s.chans[c].open && s.chans[c].buffer != []) || s.panicked ==>
              DeleteListener(s, c, tag).panicked
  {
  }

  lemma PanicStays(s: State, step: Step)
    requires Enabled(s, step) && s.panicked
    ensures Apply(s, step).panicked
  {
  }

  /** Over every run, no sender sends on a closed channel, and no delete closes one: whatever
      channel a send or a delete finds registered is open. */
  lemma OnlyOpenChannels(steps: seq<Step>)
    ensures forall p: nat, i: nat :: Enabled(Run(steps), Send(p, i)) ==>
              var d := Run(steps).dispatches[p]; Run(steps).chans[d.listeners[i]].open
    ensures forall t, c :: RegisteredUnder(Run(steps), t, c) ==> 0 <= c < |Run(steps).chans| && Run(steps).chans[c].open
    ensures !Run(steps).panicked
  {
    EveryRunIsSafe(steps);
    var s := Run(steps);
    hide Run;
    forall p: nat, i: nat | Enabled(s, Send(p, i)) ensures s.chans[s.dispatches[p].listeners[i]].open {
      SendKeeps(s, p, i);
    }
  }

  // ---------------------------------------------------------------------------------
  // The end of a dispatch

  /** No other dispatch holds a lock. */
  ghost predicate Alone(s: State, p: nat) {
    forall q :: q in s.dispatches && q != p ==> s.dispatches[q].phase == Unlocked
  }

  function Repeat(step: Step, n: nat): seq<Step> {
    if n == 0 then [] else Repeat(step, n - 1) + [step]
  }

  lemma OneMore(steps: seq<Step>, init: seq<Step>, last: Step)
    ensures Run(steps + (init + [last])) == Do(Run(steps + init), last)
  {
    assert (steps + (init + [last]))[..|steps + (init + [last])| - 1] == steps + init;
  }

  /** After n purges the first n of the listeners given up on are closed. */
  lemma {:induction false} PurgesClose(steps: seq<Step>, p: nat, n: nat)
    requires In(Run(steps), p, Purging) && n <= |Run(steps).dispatches[p].marked|
    ensures var d, s' := Run(steps).dispatches[p], Run(steps + Repeat(PurgeOne(p), n));
            && In(s', p, Purging) && s'.dispatches[p] == d.(marked := d.marked[n..])
            && (forall q :: q in s'.dispatches <==> q in Run(steps).dispatches)
            && (forall k :: 0 <= k < n ==> 0 <= d.marked[k] < |s'.chans| && !s'.chans[d.marked[k]].open)
  {
    hide Inv, Apply;
    if n == 0 {
      assert steps + Repeat(PurgeOne(p), 0) == steps;
    } else {
      var d, before := Run(steps).dispatches[p], steps + Repeat(PurgeOne(p), n - 1);
      PurgesClose(steps, p, n - 1);
      OneMore(steps, Repeat(PurgeOne(p), n - 1), PurgeOne(p));
      EveryRunIsSafe(before);
      hide Run;
      PurgeNext(Run(before), p, d, n);
    }
  }

  lemma PurgeNext(s: State, p: nat, d: Dispatch, n: nat)
    requires Inv(s) && In(s, p, Purging) && 0 < n <= |d.marked| && s.dispatches[p] == d.(marked := d.marked[n - 1..])
    requires forall k :: 0 <= k < n - 1 ==> 0 <= d.marked[k] < |s.chans| && !s.chans[d.marked[k]].open
    ensures var s' := Do(s, PurgeOne(p));
            && In(s', p, Purging) && s'.dispatches[p] == d.(marked := d.marked[n..])
            && (forall q :: q in s'.dispatches <==> q in s.dispatches)
            && (forall k :: 0 <= k < n ==> 0 <= d.marked[k] < |s'.chans| && !s'.chans[d.marked[k]].open)
  {
    assert s.dispatches[p].marked[0] == d.marked[n - 1];
    assert Enabled(s, PurgeOne(p)) by { MarkedExists(s, p); }
    PurgeDeletes(s, p);
    hide Inv, Apply, Enabled;
    assert d.marked[n - 1..][1..] == d.marked[n..];
  }

  lemma MarkedExists(s: State, p: nat)
    requires Inv(s) && p in s.dispatches
    ensures forall k :: 0 <= k < |s.dispatches[p].marked| ==> 0 <= s.dispatches[p].marked[k] < |s.chans|
  {
  }

  ghost predicate AllClosed(s: State, ids: seq<int>) {
    forall k :: 0 <= k < |ids| ==> 0 <= ids[k] < |s.chans| && !s.chans[ids[k]].open
  }

  /** The dispatch is over, and the listeners are closed. */
  ghost predicate Over(s: State, p: nat, ids: seq<int>) {
    p !in s.dispatches && AllClosed(s, ids)
  }

  /** A dispatch that has unlocked, with no other holding a lock, can lock, purge and return:
      it is then gone, and all the listeners it gave up on are closed. */
  lemma PurgesAndReturns(steps: seq<Step>, p: nat)
    requires In(Run(steps), p, Unlocked) && Alone(Run(steps), p)
    ensures exists more :: Over(Run(steps + more), p, Run(steps).dispatches[p].marked)
  {
    if Run(steps).dispatches[p].marked == [] {
      ReturnsAtOnce(steps, p);
    } else {
      LocksAndReturns(steps, p);
    }
  }

  lemma ReturnsAtOnce(steps: seq<Step>, p: nat)
    requires In(Run(steps), p, Unlocked) && Run(steps).dispatches[p].marked == []
    ensures Over(Run(steps + [Return(p)]), p, [])
  {
    var s := Run(steps);
    assert (steps + [Return(p)])[..|steps|] == steps;
    assert Enabled(s, Return(p));
  }

  /** What a dispatch does that holds the write lock. */
  function PurgeAll(p: nat, n: nat): seq<Step> {
    Repeat(PurgeOne(p), n) + [Return(p)]
  }

  lemma LockedReturns(steps: seq<Step>, p: nat, marked: seq<int>)
    requires In(Run(steps), p, Purging) && Run(steps).dispatches[p].marked == marked
    ensures Over(Run(steps + PurgeAll(p, |marked|)), p, marked)
  {
    hide Run, Do, Enabled, Repeat;
    var purges := Repeat(PurgeOne(p), |marked|);
    PurgesClose(steps, p, |marked|);
    OneMore(steps, purges, Return(p));
    assert marked[|marked|..] == [];
    Returns(Run(steps + purges), p);
  }

  lemma LocksAndReturns(steps: seq<Step>, p: nat)
    requires In(Run(steps), p, Unlocked) && Alone(Run(steps), p) && Run(steps).dispatches[p].marked != []
    ensures exists more :: Over(Run(steps + more), p, Run(steps).dispatches[p].marked)
  {
    hide Run, Do, Enabled, PurgeAll, Over, Alone;
    var marked := Run(steps).dispatches[p].marked;
    OneMore(steps, [], Lock(p));
    LockTaken(Run(steps), p);
    var locked := steps + ([] + [Lock(p)]);
    assert steps + [] == steps;
    LockedReturns(locked, p, marked);
    var more := ([] + [Lock(p)]) + PurgeAll(p, |marked|);
    assert steps + more == locked + PurgeAll(p, |marked|);
  }

  lemma LockTaken(s: State, p: nat)
    requires In(s, p, Unlocked) && Alone(s, p) && s.dispatches[p].marked != []
    ensures var s' := Do(s, Lock(p)); In(s', p, Purging) && s'.dispatches[p].marked == s.dispatches[p].marked
  {
    assert Enabled(s, Lock(p));
  }

  lemma Returns(s: State, p: nat)
    requires In(s, p, Purging) && s.dispatches[p].marked == []
    ensures p !in Do(s, Return(p)).dispatches && Do(s, Return(p)).chans == s.chans
  {
    assert Enabled(s, Return(p));
  }
}
