/** Every interleaving of the goroutines that share a listener registry: creators, deferred
    deletes, readers, and any number of dispatches with their per-listener senders.  A step
    is one critical section, one channel operation or one timeout. */
module Dispatching {
  import opened Listeners

  type Tag = string

  /** Messages are told apart by their number, their position in the log of dispatches. */
  datatype Msg = Msg(text: string, nth: nat)

  /** A listener channel.  Besides its contents it records its history: where in the log of
      dispatches it was registered, what was put in, what its reader took out, and what the
      close threw away after how many reads. */
  datatype Chan = Chan(tag: Tag, capacity: nat, open: bool, buffer: seq<Msg>,
                       since: nat, sent: seq<Msg>, received: seq<Msg>, dropped: seq<Msg>, dropAt: nat)

  function Put(ch: Chan, m: Msg): Chan {
    ch.(buffer := ch.buffer + [m], sent := ch.sent + [m])
  }

  function Take(ch: Chan): Chan
    requires ch.buffer != []
  {
    ch.(buffer := ch.buffer[1..], received := ch.received + [ch.buffer[0]])
  }

  /** SafeClose on an open channel: one buffered message is received and forgotten. */
  function Shut(ch: Chan): Chan {
    ch.(open := false, buffer := AfterReceive(ch.buffer),
        dropped := if ch.buffer == [] then [] else [ch.buffer[0]], dropAt := |ch.received|)
  }

  /** TimedOut: the sender has given up and waits to queue its listener for deletion. */
  datatype Sender = Pending | TimedOut | Sent | Marked

  /** Sending: the read lock is held.  Unlocked: it has been released.  Purging: the write
      lock is held. */
  datatype Phase = Sending | Unlocked | Purging

  datatype Dispatch = Dispatch(tag: Tag, msg: Msg, listeners: seq<int>, senders: seq<Sender>,
                               marked: seq<int>, phase: Phase)

  /** The capacity of the queue of listeners to delete. */
  const MARK_SLOTS := 5

  datatype State = State(reg: Registry<Tag, int>, chans: seq<Chan>, dispatches: map<nat, Dispatch>,
                         log: seq<(Tag, Msg)>, panicked: bool)

  const START := State(map[], [], map[], [], false)

  datatype Step =
    | Create(tag: Tag, capacity: nat)
    | Callback(c: int)
    | Receive(c: int)
    | Begin(p: nat, tag: Tag, text: string)
    | Send(p: nat, i: nat)
    | Timeout(p: nat, i: nat)
    | Mark(p: nat, i: nat)
    | Unlock(p: nat)
    | Lock(p: nat)
    | PurgeOne(p: nat)
    | Return(p: nat)

  predicate In(s: State, p: nat, phase: Phase) {
    p in s.dispatches && s.dispatches[p].phase == phase
  }

  ghost predicate ReadLocked(s: State) {
    exists p :: In(s, p, Sending)
  }

  ghost predicate WriteLocked(s: State) {
    exists p :: In(s, p, Purging)
  }

  predicate Finished(d: Dispatch) {
    forall i :: 0 <= i < |d.senders| ==> d.senders[i] == Sent || d.senders[i] == Marked
  }

  predicate SenderIs(s: State, p: nat, i: nat, x: Sender) {
    In(s, p, Sending) && i < |s.dispatches[p].senders| && s.dispatches[p].senders[i] == x
  }

  /** A send goes through when the buffer has room, or when it is empty and a reader takes
      the message directly. */
  ghost predicate Enabled(s: State, step: Step) {
    match step
    case Create(_, _) => !ReadLocked(s) && !WriteLocked(s)
    case Callback(c) => 0 <= c < |s.chans| && !ReadLocked(s) && !WriteLocked(s)
    case Receive(c) => 0 <= c < |s.chans| && s.chans[c].buffer != []
    case Begin(p, _, _) => p !in s.dispatches && !WriteLocked(s)
    case Send(p, i) =>
      && SenderIs(s, p, i, Pending) && i < |s.dispatches[p].listeners|
      && var c := s.dispatches[p].listeners[i];
         0 <= c < |s.chans| && (|s.chans[c].buffer| < s.chans[c].capacity || s.chans[c].buffer == [])
    case Timeout(p, i) => SenderIs(s, p, i, Pending)
    case Mark(p, i) =>
      && SenderIs(s, p, i, TimedOut) && i < |s.dispatches[p].listeners|
      && |s.dispatches[p].marked| < MARK_SLOTS
    case Unlock(p) => In(s, p, Sending) && Finished(s.dispatches[p])
    case Lock(p) => In(s, p, Unlocked) && s.dispatches[p].marked != [] && !ReadLocked(s) && !WriteLocked(s)
    case PurgeOne(p) => In(s, p, Purging) && s.dispatches[p].marked != [] && 0 <= s.dispatches[p].marked[0] < |s.chans|
    case Return(p) => p in s.dispatches && s.dispatches[p].phase != Sending && s.dispatches[p].marked == []
  }

  /** deleteListenerUnsafe.  Closing a closed channel, which SafeClose attempts when such a
      channel still has messages, panics. */
  function DeleteListener(s: State, c: int, tag: Tag): State
    requires 0 <= c < |s.chans|
  {
    if c in At(s.reg, tag) then
      s.(reg := Delete(s.reg, tag, c), chans := s.chans[c := Shut(s.chans[c])],
         panicked := s.panicked || (!s.chans[c].open && s.chans[c].buffer != []))
    else
      s.(reg := Delete(s.reg, tag, c))
  }

  /** Sending on a closed channel panics. */
  function SendTo(s: State, c: int, m: Msg): State
    requires 0 <= c < |s.chans|
  {
    var full := |s.chans[c].buffer| >= s.chans[c].capacity;
    var ch := Put(s.chans[c], m);
    s.(chans := s.chans[c := if full then Take(ch) else ch], panicked := s.panicked || !s.chans[c].open)
  }

  function SetSender(s: State, p: nat, i: nat, x: Sender): State
    requires p in s.dispatches && i < |s.dispatches[p].senders|
  {
    var d := s.dispatches[p];
    s.(dispatches := s.dispatches[p := d.(senders := d.senders[i := x])])
  }

  function SetDispatch(s: State, p: nat, d: Dispatch): State {
    s.(dispatches := s.dispatches[p := d])
  }

  ghost function Apply(s: State, step: Step): State
    requires Enabled(s, step)
  {
    match step
    case Create(tag, capacity) =>
      s.(reg := Add(s.reg, tag, |s.chans|),
         chans := s.chans + [Chan(tag, capacity, true, [], |s.log|, [], [], [], 0)])
    case Callback(c) => DeleteListener(s, c, s.chans[c].tag)
    case Receive(c) => s.(chans := s.chans[c := Take(s.chans[c])])
    case Begin(p, tag, text) =>
      var listeners, msg := At(s.reg, tag), Msg(text, |s.log|);
      s.(dispatches := s.dispatches[p := Dispatch(tag, msg, listeners, seq(|listeners|, _ => Pending), [], Sending)],
         log := s.log + [(tag, msg)])
    case Send(p, i) =>
      var d := s.dispatches[p];
      SetSender(SendTo(s, d.listeners[i], d.msg), p, i, Sent)
    case Timeout(p, i) => SetSender(s, p, i, TimedOut)
    case Mark(p, i) =>
      var d := s.dispatches[p];
      SetDispatch(s, p, d.(senders := d.senders[i := Marked], marked := d.marked + [d.listeners[i]]))
    case Unlock(p) => SetDispatch(s, p, s.dispatches[p].(phase := Unlocked))
    case Lock(p) => SetDispatch(s, p, s.dispatches[p].(phase := Purging))
    case PurgeOne(p) =>
      var d := s.dispatches[p];
      SetDispatch(DeleteListener(s, d.marked[0], d.tag), p, d.(marked := d.marked[1..]))
    case Return(p) => s.(dispatches := s.dispatches - {p})
  }

  /** A step that is not enabled when its turn comes does nothing. */
  ghost function Do(s: State, step: Step): State {
    if Enabled(s, step) then Apply(s, step) else s
  }

  ghost function Run(steps: seq<Step>): State {
    if steps == [] then START else Do(Run(steps[..|steps| - 1]), steps[|steps| - 1])
  }

  lemma RunSnoc(steps: seq<Step>, more: seq<Step>)
    requires more != []
    ensures Run(steps + more) == Do(Run(steps + more[..|more| - 1]), more[|more| - 1])
  {
    var n := |more| - 1;
    assert (steps + more)[..|steps + more| - 1] == steps + more[..n];
  }

  // ---------------------------------------------------------------------------------
  // Safety, for any number of dispatches at once

  /** A channel is open exactly when it is registered, under its own tag. */
  ghost predicate RegistryMatches(reg: Registry<Tag, int>, chans: seq<Chan>) {
    && WellFormed(reg)
    && (forall t, c {:trigger c in reg[t]} :: t in reg && c in reg[t] ==> 0 <= c < |chans| && chans[c].tag == t)
    && (forall c :: 0 <= c < |chans| ==> (chans[c].open <==> c in At(reg, chans[c].tag)))
  }

  /** Nothing put into a channel is lost or reordered, but for at most one message that the
      close received. */
  predicate Conserves(ch: Chan) {
    && |ch.dropped| <= 1
    && ch.dropAt <= |ch.received|
    && (ch.open ==> ch.dropped == [])
    && ch.sent == ch.received[..ch.dropAt] + ch.dropped + ch.received[ch.dropAt..] + ch.buffer
  }

  predicate AllConserve(chans: seq<Chan>) {
    forall c :: 0 <= c < |chans| ==> Conserves(chans[c])
  }

  predicate Owned(chans: seq<Chan>, ids: seq<int>, tag: Tag) {
    forall k :: 0 <= k < |ids| ==> 0 <= ids[k] < |chans| && chans[ids[k]].tag == tag
  }

  /** While the read lock is held the snapshot is the current list. */
  predicate DispatchFits(reg: Registry<Tag, int>, chans: seq<Chan>, d: Dispatch) {
    && |d.senders| == |d.listeners|
    && Distinct(d.listeners)
    && Owned(chans, d.marked, d.tag)
    && (d.phase == Sending ==> d.listeners == At(reg, d.tag))
    && (forall i :: 0 <= i < |d.senders| && d.phase == Sending ==>
          (d.senders[i] == Marked <==> d.listeners[i] in d.marked))
  }

  ghost predicate LocksExclude(s: State) {
    && (WriteLocked(s) ==> !ReadLocked(s))
    && (forall p, q :: In(s, p, Purging) && In(s, q, Purging) ==> p == q)
  }

  ghost predicate Inv(s: State) {
    && RegistryMatches(s.reg, s.chans)
    && AllConserve(s.chans)
    && (forall p :: p in s.dispatches ==> DispatchFits(s.reg, s.chans, s.dispatches[p]))
    && LocksExclude(s)
    && !s.panicked
  }

  lemma ShutConserves(ch: Chan)
    requires ch.open && Conserves(ch)
    ensures Conserves(Shut(ch))
  {
    assert ch.received[..|ch.received|] == ch.received;
    assert ch.received[..ch.dropAt] + ch.received[ch.dropAt..] == ch.received;
    if ch.buffer != [] {
      assert ch.buffer == [ch.buffer[0]] + ch.buffer[1..];
    }
  }

  lemma TakeConserves(ch: Chan)
    requires ch.buffer != [] && Conserves(ch)
    ensures Conserves(Take(ch))
  {
    var r := ch.received + [ch.buffer[0]];
    assert r[..ch.dropAt] == ch.received[..ch.dropAt];
    assert r[ch.dropAt..] == ch.received[ch.dropAt..] + [ch.buffer[0]];
    assert ch.buffer == [ch.buffer[0]] + ch.buffer[1..];
  }

  lemma PutConserves(ch: Chan, m: Msg)
    requires ch.open && Conserves(ch)
    ensures Conserves(Put(ch, m))
  {
  }

  /** Changing what a channel holds, but not whether it is open, concerns nobody else. */
  lemma TrafficKeeps(s: State, c: int, ch: Chan)
    requires Inv(s) && 0 <= c < |s.chans| && Conserves(ch)
    requires ch.tag == s.chans[c].tag && ch.open == s.chans[c].open
    ensures Inv(s.(chans := s.chans[c := ch]))
  {
    var s' := s.(chans := s.chans[c := ch]);
    assert forall p, phase :: In(s', p, phase) <==> In(s, p, phase);
  }

  lemma AddMatches(reg: Registry<Tag, int>, chans: seq<Chan>, ch: Chan)
    requires RegistryMatches(reg, chans) && ch.open
    ensures RegistryMatches(Add(reg, ch.tag, |chans|), chans + [ch])
  {
    var c := |chans|;
    var reg', chans' := Add(reg, ch.tag, c), chans + [ch];
    assert !Registered(reg, c);
    AddKeeps(reg, ch.tag, c);
    forall t, x | t in reg' && x in reg'[t] ensures 0 <= x < |chans'| && chans'[x].tag == t {
      assert x in At(reg', t);
      if x in At(reg, t) { assert x in reg[t]; }
    }
    forall x | 0 <= x < |chans'| ensures chans'[x].open <==> x in At(reg', chans'[x].tag) {
      if x < c { assert chans'[x] == chans[x]; }
    }
  }

  lemma DeleteMatches(reg: Registry<Tag, int>, chans: seq<Chan>, c: int)
    requires RegistryMatches(reg, chans) && 0 <= c < |chans|
    ensures var reg' := Delete(reg, chans[c].tag, c);
            if c in At(reg, chans[c].tag)
            then RegistryMatches(reg', chans[c := Shut(chans[c])])
            else RegistryMatches(reg', chans)
  {
    var tag := chans[c].tag;
    var reg' := Delete(reg, tag, c);
    var chans' := if c in At(reg, tag) then chans[c := Shut(chans[c])] else chans;
    DeleteKeeps(reg, tag, c);
    hide Delete, WellFormed;
    forall t, x | t in reg' && x in reg'[t] ensures 0 <= x < |chans'| && chans'[x].tag == t {
      assert x in At(reg', t);
      assert x in reg[t];
    }
    assert forall x :: 0 <= x < |chans| ==> chans'[x].tag == chans[x].tag;
  }

  lemma CreateKeeps(s: State, tag: Tag, capacity: nat)
    requires Inv(s) && Enabled(s, Create(tag, capacity))
    ensures Inv(Apply(s, Create(tag, capacity)))
  {
    var s' := Apply(s, Create(tag, capacity));
    AddMatches(s.reg, s.chans, s'.chans[|s.chans|]);
    forall p | p in s'.dispatches ensures DispatchFits(s'.reg, s'.chans, s'.dispatches[p]) {
      assert !In(s, p, Sending);
    }
    assert forall p, phase :: In(s', p, phase) <==> In(s, p, phase);
  }

  /** A delete under the write lock, by whoever holds it. */
  lemma DeleteListenerKeeps(s: State, c: int, tag: Tag)
    requires Inv(s) && !ReadLocked(s) && 0 <= c < |s.chans| && s.chans[c].tag == tag
    ensures Inv(DeleteListener(s, c, tag))
    ensures !DeleteListener(s, c, tag).chans[c].open
  {
    var s' := DeleteListener(s, c, tag);
    DeleteMatches(s.reg, s.chans, c);
    if c in At(s.reg, tag) {
      ShutConserves(s.chans[c]);
    }
    forall p | p in s'.dispatches ensures DispatchFits(s'.reg, s'.chans, s'.dispatches[p]) {
      assert !In(s, p, Sending);
    }
    assert forall p, phase :: In(s', p, phase) <==> In(s, p, phase);
  }

  /** Replacing one dispatch by a fitting one of the same phase. */
  lemma DispatchKeeps(s: State, p: nat, d: Dispatch)
    requires Inv(s) && p in s.dispatches && d.phase == s.dispatches[p].phase
    requires DispatchFits(s.reg, s.chans, d)
    ensures Inv(SetDispatch(s, p, d))
  {
    assert forall q, phase :: In(SetDispatch(s, p, d), q, phase) <==> In(s, q, phase);
  }

  lemma BeginKeeps(s: State, p: nat, tag: Tag, text: string)
    requires Inv(s) && Enabled(s, Begin(p, tag, text))
    ensures Inv(Apply(s, Begin(p, tag, text)))
  {
    var s' := Apply(s, Begin(p, tag, text));
    assert forall q :: q != p ==> (In(s', q, Purging) <==> In(s, q, Purging));
    assert !In(s', p, Purging);
  }

  lemma SendKeeps(s: State, p: nat, i: nat)
    requires Inv(s) && Enabled(s, Send(p, i))
    ensures Inv(Apply(s, Send(p, i)))
    ensures s.chans[s.dispatches[p].listeners[i]].open
  {
    var d := s.dispatches[p];
    var c := d.listeners[i];
    assert c in At(s.reg, d.tag);
    var ch := s.chans[c];
    PutConserves(ch, d.msg);
    if |ch.buffer| >= ch.capacity { TakeConserves(Put(ch, d.msg)); }
    var ch' := if |ch.buffer| >= ch.capacity then Take(Put(ch, d.msg)) else Put(ch, d.msg);
    TrafficKeeps(s, c, ch');
    DispatchKeeps(SendTo(s, c, d.msg), p, d.(senders := d.senders[i := Sent]));
  }

  lemma MarkKeeps(s: State, p: nat, i: nat)
    requires Inv(s) && Enabled(s, Mark(p, i))
    ensures Inv(Apply(s, Mark(p, i)))
  {
    var d := s.dispatches[p];
    var d' := d.(senders := d.senders[i := Marked], marked := d.marked + [d.listeners[i]]);
    assert d.listeners[i] in At(s.reg, d.tag);
    assert forall c :: c in d'.marked <==> c in d.marked || c == d.listeners[i];
    DispatchKeeps(s, p, d');
  }

  /** The steps that only move a dispatch between its phases. */
  lemma PhaseKeeps(s: State, step: Step)
    requires Inv(s) && Enabled(s, step) && (step.Unlock? || step.Lock? || step.Return?)
    ensures Inv(Apply(s, step))
  {
    var s' := Apply(s, step);
    assert forall q, phase :: q != step.p ==> (In(s', q, phase) <==> In(s, q, phase));
    assert !In(s', step.p, Sending);
    assert step.Lock? || !In(s', step.p, Purging);
  }

  lemma PurgeKeeps(s: State, p: nat)
    requires Inv(s) && Enabled(s, PurgeOne(p))
    ensures Inv(Apply(s, PurgeOne(p)))
  {
    var d := s.dispatches[p];
    assert WriteLocked(s);
    DeleteListenerKeeps(s, d.marked[0], d.tag);
    DispatchKeeps(DeleteListener(s, d.marked[0], d.tag), p, d.(marked := d.marked[1..]));
  }

  lemma StepKeeps(s: State, step: Step)
    requires Inv(s) && Enabled(s, step)
    ensures Inv(Apply(s, step))
  {
    match step
    case Create(tag, capacity) => CreateKeeps(s, tag, capacity);
    case Callback(c) => DeleteListenerKeeps(s, c, s.chans[c].tag);
    case Receive(c) => TakeConserves(s.chans[c]); TrafficKeeps(s, c, Take(s.chans[c]));
    case Begin(p, tag, text) => BeginKeeps(s, p, tag, text);
    case Send(p, i) => SendKeeps(s, p, i);
    case Timeout(p, i) => var d := s.dispatches[p]; DispatchKeeps(s, p, d.(senders := d.senders[i := TimedOut]));
    case Mark(p, i) => MarkKeeps(s, p, i);
    case PurgeOne(p) => PurgeKeeps(s, p);
    case _ => PhaseKeeps(s, step);
  }

  /** Safety of every interleaving: a channel is open exactly when it is registered, under
      its own tag and once, a tag key exists exactly when its list is non-empty, and nothing
      is sent on a closed channel or closed twice. */
  lemma {:induction false} EveryRunIsSafe(steps: seq<Step>)
    ensures Inv(Run(steps))
  {
    if steps != [] {
      EveryRunIsSafe(steps[..|steps| - 1]);
      var s, step := Run(steps[..|steps| - 1]), steps[|steps| - 1];
      if Enabled(s, step) {
        StepKeeps(s, step);
      }
    }
  }
}
