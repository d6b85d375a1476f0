/** What the voice process sends over a whole run, and that events of streams that are not
    current might as well not have happened. */
module VoiceAnswers {
  import opened Wire
  import opened VoiceLoop

  /** What event k demands to be sent, if it is to be answered. */
  function Answer(e: Event, k: nat): seq<Sent> {
    match e
    case MicHotword(mode, locale, isTest) =>
      (if isTest then [Sent(MicTestStarted, None, k)] else []) +
      if !ModeAccepted(mode) then [Sent(AiError(ERROR_INVALID_CONFIG, "unknown mode"), None, k)]
      else if !LocaleAccepted(locale) then [Sent(AiError(ERROR_INVALID_CONFIG, "invalid locale string"), None, k)]
      else []
    case MicDebugFile(file) => [Sent(AiDebugFile(file), None, k)]
    case Intent(s, result) => [Sent(MicStop, None, k), Sent(AiResult(result), Some(s), k)]
    case CloudError(s, kind, text) => [Sent(MicStop, None, k), Sent(AiError(kind, text), Some(s), k)]
    case CloudOpened(s, session) => [Sent(AiStreamOpen(session), Some(s), k)]
    case CheckError(s, kind, text) => [Sent(MicConnection(CheckFailure(kind, text)), Some(s), k)]
    case CheckResult(s, outcome) => [Sent(MicConnection(outcome), Some(s), k)]
    case _ => []
  }

  /** Stream s was the current one when event k arrived. */
  predicate WasCurrent(streams: seq<Stream>, s: nat, k: nat) {
    s < |streams| && streams[s].openedAt < k && (streams[s].end == Current || k <= streams[s].end.at)
  }

  /** An event of a stream is answered exactly if the stream is current when it arrives. */
  function Due(e: Event, k: nat, streams: seq<Stream>): seq<Sent> {
    if FromStream(e) && !WasCurrent(streams, e.stream, k) then [] else Answer(e, k)
  }

  function AllDue(events: seq<Event>, streams: seq<Stream>): seq<Sent> {
    if events == [] then [] else
      var k := |events| - 1;
      AllDue(events[..k], streams) + Due(events[k], k, streams)
  }

  /** Being current when an event arrives is being so by the record. */
  lemma CurrentIsRecorded(l: Loop, s: nat)
    requires Inv(l, l.now, l.now)
    ensures l.current == Some(s) <==> WasCurrent(l.streams, s, l.now)
  {
  }

  /** Two moments of one run have the same record of what was current before. */
  ghost predicate SamePast(l: Loop, l': Loop) {
    l'.now == l.now &&
    forall s: nat, k: nat :: k <= l.now ==> (WasCurrent(l'.streams, s, k) <==> WasCurrent(l.streams, s, k))
  }

  lemma ClosePast(l: Loop)
    requires WellFormed(l)
    ensures SamePast(l, CloseCurrent(l))
  {
  }

  lemma ForgetPast(l: Loop, end: End)
    requires Owned(l) && (end == Replaced(l.now) || end == Answered(l.now))
    ensures SamePast(l, Forget(l, end))
  {
  }

  lemma OpenPast(l: Loop, kind: Kind)
    requires Owned(l)
    ensures SamePast(l, Open(l, kind))
  {
    assert WellFormed(l);
    hide Forget, Owned;
    ForgetPast(l, Replaced(l.now));
  }

  lemma FinishPast(l: Loop)
    requires Owned(l)
    ensures SamePast(l, Finish(l))
  {
    assert WellFormed(l);
    hide Forget, CloseCurrent, Owned, SamePast;
    OwnedClosed(l);
    ClosePast(l);
    ForgetPast(CloseCurrent(l), Answered(l.now));
    PastTwice(l, CloseCurrent(l), Finish(l));
  }

  lemma OwnedClosed(l: Loop)
    requires Owned(l)
    ensures Owned(CloseCurrent(l))
  {
  }

  lemma PastTwice(l: Loop, l': Loop, l'': Loop)
    requires SamePast(l, l') && SamePast(l', l'')
    ensures SamePast(l, l'')
  {
    hide WasCurrent;
  }

  lemma AddPast(l: Loop, samples: seq<int>)
    requires WellFormed(l)
    ensures SamePast(l, AddSamples(l, samples))
  {
  }

  /** Closing the current stream, saying something, and opening another or none. */
  lemma CloseAndOpenPast(l: Loop, log: seq<Sent>, kind: Kind)
    requires Owned(l)
    ensures SamePast(l, CloseCurrent(l).(log := log)) && SamePast(l, Open(CloseCurrent(l).(log := log), kind))
  {
    assert WellFormed(l);
    hide CloseCurrent, Open, Owned, WasCurrent;
    OwnedClosed(l);
    ClosePast(l);
    var l1 := CloseCurrent(l).(log := log);
    assert Owned(l1) by { OwnedWhateverSaid(CloseCurrent(l), log); }
    OpenPast(l1, kind);
    PastTwice(l, l1, Open(l1, kind));
  }

  lemma OwnedWhateverSaid(l: Loop, log: seq<Sent>)
    requires Owned(l)
    ensures Owned(l.(log := log))
  {
  }

  lemma HandlePast(l: Loop, e: Event)
    requires Owned(l)
    ensures SamePast(l, Handle(l, e))
  {
    assert WellFormed(l);
    hide CloseCurrent, Open, Owned, WasCurrent, Finish, AddSamples;
    match e
    case MicHotword(_, _, isTest) =>
      var l1 := CloseCurrent(l);
      CloseAndOpenPast(l, l1.log, Hotword);
      CloseAndOpenPast(l, Write(l1, MicTestStarted, None).log, Hotword);
    case MicConnectionCheck => CloseAndOpenPast(l, CloseCurrent(l).log, ConnectionCheck);
    case MicAudio(samples) => AddPast(l, samples);
    case MicDebugFile(_) =>
    case MicAudioDone =>
    case MicOther =>
    case CheckOpened =>
    case _ => HandleStreamPast(l, e);
  }

  lemma HandleStreamPast(l: Loop, e: Event)
    requires Owned(l) && FromStream(e)
    ensures SamePast(l, HandleStream(l, e))
  {
    assert WellFormed(l);
    hide Owned, WasCurrent, Finish;
    if l.current == Some(e.stream) && !e.CloudOpened? {
      var log := HandleStream(l, e).log;
      FinishSays(l, e);
      OwnedWhateverSaid(l, log);
      FinishPast(l.(log := log));
    }
  }

  lemma FinishSays(l: Loop, e: Event)
    requires Owned(l) && FromStream(e) && l.current == Some(e.stream) && !e.CloudOpened?
    ensures HandleStream(l, e) == Finish(l.(log := HandleStream(l, e).log))
  {
  }

  /** The record of past times does not change. */
  lemma PastIsKept(l: Loop, e: Event, s: nat, k: nat)
    requires Inv(l, l.now, l.now) && k <= l.now
    ensures WasCurrent(Step(l, e).streams, s, k) <==> WasCurrent(l.streams, s, k)
  {
    assert WellFormed(l);
    hide Handle, Owned, WasCurrent;
    HandlePast(l, e);
  }

  lemma StepWrites(l: Loop, e: Event)
    requires Inv(l, l.now, l.now)
    ensures Step(l, e).log == l.log + Due(e, l.now, l.streams)
  {
    hide Inv, WasCurrent;
    if FromStream(e) { CurrentIsRecorded(l, e.stream); }
  }

  lemma {:induction false} DueIsKept(l: Loop, e: Event, events: seq<Event>)
    requires Inv(l, l.now, l.now) && |events| <= l.now
    ensures AllDue(events, Step(l, e).streams) == AllDue(events, l.streams)
  {
    hide Inv, WasCurrent, Step, Answer;
    if events != [] {
      var k := |events| - 1;
      DueIsKept(l, e, events[..k]);
      if FromStream(events[k]) { PastIsKept(l, e, events[k].stream, k); }
    }
  }

  /** All that is sent over a run, in order: for every event what it demands, with its own
      contents, but nothing for the events of streams that were not current at the time. */
  lemma {:induction false} EveryAnswerIsDue(events: seq<Event>)
    ensures Run(events).log == AllDue(events, Run(events).streams)
  {
    hide Inv, Due, Step;
    if events != [] {
      var init, e := events[..|events| - 1], events[|events| - 1];
      var l := Run(init);
      EveryAnswerIsDue(init);
      EveryRunIsDisciplined(init);
      StepWrites(l, e);
      DueIsKept(l, e, init);
      LastDue(l, e);
    }
  }

  lemma LastDue(l: Loop, e: Event)
    requires Inv(l, l.now, l.now)
    ensures Due(e, l.now, Step(l, e).streams) == Due(e, l.now, l.streams)
  {
    hide Inv, WasCurrent, Step, Answer;
    if FromStream(e) { PastIsKept(l, e, e.stream, l.now); }
  }

  // ---------------------------------------------------------------------------------
  // Leaving out events of prior streams

  predicate SameStream(s: Stream, t: Stream) {
    s.kind == t.kind && s.closed == t.closed && s.samples == t.samples
  }

  predicate SameSent(x: Sent, y: Sent) {
    x.msg == y.msg && x.cause == y.cause
  }

  /** The same but for the times. */
  ghost predicate Alike(l: Loop, l': Loop) {
    && l.current == l'.current
    && |l.streams| == |l'.streams| && (forall s :: 0 <= s < |l.streams| ==> SameStream(l.streams[s], l'.streams[s]))
    && |l.log| == |l'.log| && (forall k :: 0 <= k < |l.log| ==> SameSent(l.log[k], l'.log[k]))
  }

  lemma WriteAlike(l: Loop, l': Loop, msg: Message, cause: Option<nat>)
    requires Alike(l, l')
    ensures Alike(Write(l, msg, cause), Write(l', msg, cause))
  {
  }

  lemma CloseAlike(l: Loop, l': Loop)
    requires WellFormed(l) && WellFormed(l') && Alike(l, l')
    ensures Alike(CloseCurrent(l), CloseCurrent(l'))
  {
  }

  lemma ForgetAlike(l: Loop, l': Loop, end: End, end': End)
    requires WellFormed(l) && WellFormed(l') && Alike(l, l')
    ensures Alike(Forget(l, end), Forget(l', end'))
  {
  }

  lemma FinishAlike(l: Loop, l': Loop)
    requires WellFormed(l) && WellFormed(l') && Alike(l, l')
    ensures Alike(Finish(l), Finish(l'))
  {
    hide Alike, CloseCurrent, Forget;
    CloseAlike(l, l');
    ForgetAlike(CloseCurrent(l), CloseCurrent(l'), Answered(l.now), Answered(l'.now));
  }

  lemma OpenAlike(l: Loop, l': Loop, kind: Kind)
    requires WellFormed(l) && WellFormed(l') && Alike(l, l')
    ensures Alike(Open(l, kind), Open(l', kind))
  {
    hide Forget;
    ForgetAlike(l, l', Replaced(l.now), Replaced(l'.now));
  }

  lemma AddAlike(l: Loop, l': Loop, samples: seq<int>)
    requires WellFormed(l) && WellFormed(l') && Alike(l, l')
    ensures Alike(AddSamples(l, samples), AddSamples(l', samples))
  {
  }

  lemma HotwordAlike(l: Loop, l': Loop, e: Event)
    requires WellFormed(l) && WellFormed(l') && Alike(l, l') && e.MicHotword?
    ensures Alike(HandleHotword(l, e), HandleHotword(l', e))
  {
    hide Alike, CloseCurrent, Open, Write, ModeAccepted, LocaleAccepted;
    CloseAlike(l, l');
    var l1, l1' := CloseCurrent(l), CloseCurrent(l');
    WriteAlike(l1, l1', MicTestStarted, None);
    var l2 := if e.isTest then Write(l1, MicTestStarted, None) else l1;
    var l2' := if e.isTest then Write(l1', MicTestStarted, None) else l1';
    WriteAlike(l2, l2', AiError(ERROR_INVALID_CONFIG, "unknown mode"), None);
    WriteAlike(l2, l2', AiError(ERROR_INVALID_CONFIG, "invalid locale string"), None);
    WrittenIsWellFormed(l1, l1');
    OpenAlike(l2, l2', Hotword);
  }

  lemma WrittenIsWellFormed(l: Loop, l': Loop)
    requires WellFormed(l) && WellFormed(l')
    ensures WellFormed(Write(l, MicTestStarted, None)) && WellFormed(Write(l', MicTestStarted, None))
    ensures WellFormed(Write(l, MicStop, None)) && WellFormed(Write(l', MicStop, None))
  {
  }

  lemma AnswerAlike(l: Loop, l': Loop, msg: Message, cause: Option<nat>)
    requires WellFormed(l) && WellFormed(l') && Alike(l, l')
    ensures WellFormed(Write(l, msg, cause)) && WellFormed(Write(l', msg, cause))
    ensures Alike(Finish(Write(l, msg, cause)), Finish(Write(l', msg, cause)))
  {
    WriteAlike(l, l', msg, cause);
    hide Alike, Finish;
    FinishAlike(Write(l, msg, cause), Write(l', msg, cause));
  }

  lemma StreamAlike(l: Loop, l': Loop, e: Event)
    requires WellFormed(l) && WellFormed(l') && Alike(l, l') && FromStream(e)
    ensures Alike(HandleStream(l, e), HandleStream(l', e))
  {
    var cause := Some(e.stream);
    assert l.current == l'.current;
    hide Alike, Finish, Write;
    if l.current == cause {
      WriteAlike(l, l', MicStop, None);
      WrittenIsWellFormed(l, l');
      match e
      case Intent(_, result) => AnswerAlike(Write(l, MicStop, None), Write(l', MicStop, None), AiResult(result), cause);
      case CloudError(_, kind, text) => AnswerAlike(Write(l, MicStop, None), Write(l', MicStop, None),
                                                    AiError(kind, text), cause);
      case CloudOpened(_, session) => WriteAlike(l, l', AiStreamOpen(session), cause);
      case CheckError(_, kind, text) => AnswerAlike(l, l', MicConnection(CheckFailure(kind, text)), cause);
      case CheckResult(_, outcome) => AnswerAlike(l, l', MicConnection(outcome), cause);
    }
  }

  lemma StepAlike(l: Loop, l': Loop, e: Event)
    requires WellFormed(l) && WellFormed(l') && Alike(l, l')
    ensures Alike(Step(l, e), Step(l', e))
  {
    HandleAlike(l, l', e);
    hide Handle;
  }

  lemma HandleAlike(l: Loop, l': Loop, e: Event)
    requires WellFormed(l) && WellFormed(l') && Alike(l, l')
    ensures Alike(Handle(l, e), Handle(l', e))
  {
    hide Alike, HandleHotword, HandleStream, AddSamples, Open, CloseCurrent, Write;
    match e
    case MicHotword(_, _, _) => HotwordAlike(l, l', e);
    case MicDebugFile(file) => WriteAlike(l, l', AiDebugFile(file), None);
    case MicAudio(samples) => AddAlike(l, l', samples);
    case MicConnectionCheck =>
      CloseAlike(l, l');
      OpenAlike(CloseCurrent(l), CloseCurrent(l'), ConnectionCheck);
    case MicAudioDone =>
    case MicOther =>
    case CheckOpened =>
    case _ => StreamAlike(l, l', e);
  }

  /** An event of a stream that is not current could be left out of any run: the current
      stream, what every stream is given and whether it is closed, and all that is sent
      would be the same. */
  lemma {:induction false} PriorStreamIgnored(before: seq<Event>, e: Event, after: seq<Event>)
    requires FromStream(e) && Run(before).current != Some(e.stream)
    ensures Alike(Run(before + [e] + after), Run(before + after))
  {
    hide Alike, Step;
    if after == [] {
      assert before + [e] + after == before + [e] && before + after == before;
      assert (before + [e])[..|before|] == before;
      NothingHappens(Run(before), e);
    } else {
      var init, last := after[..|after| - 1], after[|after| - 1];
      var with, without := before + [e] + after, before + after;
      PriorStreamIgnored(before, e, init);
      assert with[..|with| - 1] == before + [e] + init && without[..|without| - 1] == before + init;
      StepAlike(Run(before + [e] + init), Run(before + init), last);
    }
  }

  lemma NothingHappens(l: Loop, e: Event)
    requires WellFormed(l) && FromStream(e) && l.current != Some(e.stream)
    ensures Alike(Step(l, e), l)
  {
  }
}
