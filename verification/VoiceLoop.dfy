/** The voice process: one select loop that owns at most one current cloud stream, and must
    ignore whatever still arrives from earlier ones. */
module VoiceLoop {
  import opened Wire

  // ErrorType values
  const ERROR_TIMEOUT := 1
  const ERROR_INVALID_CONFIG := 3
  const ERROR_TLS := 7
  const ERROR_CONNECTIVITY := 8

  // ConnectionCode values
  const CODE_CONNECTIVITY := 1
  const CODE_TLS := 2
  const CODE_AUTH := 3
  const CODE_BANDWIDTH := 4

  // StreamType values that are accepted
  const MODE_NORMAL := 0
  const MODE_BLACKJACK := 1
  const MODE_KNOWLEDGE_GRAPH := 2

  /** DefaultAudioLenMs / DefaultChunkMs. */
  const EXPECTED_PACKETS := 50

  datatype Kind = Hotword | ConnectionCheck

  datatype ConnectionResult = ConnectionResult(code: nat, status: string, numPackets: nat, expectedPackets: nat)

  /** What reaches the select loop.  The last five come from the stream they name. */
  datatype Event =
    | MicHotword(mode: nat, locale: string, isTest: bool)
    | MicDebugFile(file: string)
    | MicAudioDone
    | MicAudio(samples: seq<int>)
    | MicConnectionCheck
    | MicOther
    | CheckOpened
    | Intent(stream: nat, result: string)
    | CloudError(stream: nat, kind: nat, text: string)
    | CloudOpened(stream: nat, session: string)
    | CheckError(stream: nat, kind: nat, text: string)
    | CheckResult(stream: nat, outcome: ConnectionResult)

  /** What the loop sends: Mic... to every receiver, Ai... to every intent writer. */
  datatype Message =
    | MicTestStarted
    | MicStop
    | MicConnection(outcome: ConnectionResult)
    | AiResult(result: string)
    | AiError(kind: nat, text: string)
    | AiStreamOpen(session: string)
    | AiDebugFile(file: string)

  /** A message with the stream it answers for, if any, and the event that caused it. */
  datatype Sent = Sent(msg: Message, cause: Option<nat>, at: nat)

  datatype End = Current | Replaced(at: nat) | Answered(at: nat)

  /** A stream: whether it has been closed, the samples it was given, and the events at
      which it was opened and ceased to be the current one. */
  datatype Stream = Stream(kind: Kind, closed: bool, samples: seq<int>, openedAt: nat, end: End)

  datatype Loop = Loop(current: Option<nat>, streams: seq<Stream>, log: seq<Sent>, now: nat)

  const START := Loop(None, [], [], 0)

  // ---------------------------------------------------------------------------------
  // The handling of one event

  function CountChar(s: string, c: char): nat {
    if s == [] then 0 else CountChar(s[..|s| - 1], c) + if s[|s| - 1] == c then 1 else 0
  }

  /** Splitting on '-', or else on '_', gives two parts; an empty locale means "en-US". */
  predicate LocaleAccepted(locale: string) {
    locale == "" || CountChar(locale, '-') == 1 || CountChar(locale, '_') == 1
  }

  predicate ModeAccepted(mode: nat) {
    mode == MODE_NORMAL || mode == MODE_BLACKJACK || mode == MODE_KNOWLEDGE_GRAPH
  }

  predicate Accepted(e: Event) {
    e.MicHotword? && ModeAccepted(e.mode) && LocaleAccepted(e.locale)
  }

  function CheckFailure(kind: nat, text: string): ConnectionResult {
    var code := if kind == ERROR_TLS then CODE_TLS
                else if kind == ERROR_CONNECTIVITY then CODE_CONNECTIVITY
                else if kind == ERROR_TIMEOUT then CODE_BANDWIDTH
                else CODE_AUTH;
    ConnectionResult(code, text, 0, EXPECTED_PACKETS)
  }

  predicate WellFormed(l: Loop) {
    l.current.Some? ==> l.current.value < |l.streams|
  }

  function Write(l: Loop, msg: Message, cause: Option<nat>): Loop {
    l.(log := l.log + [Sent(msg, cause, l.now)])
  }

  /** Close the current stream, if there is one; it stays current. */
  function CloseCurrent(l: Loop): (r: Loop)
    requires WellFormed(l)
    ensures WellFormed(r) && r.now == l.now
  {
    if l.current.None? then l else
      l.(streams := l.streams[l.current.value := l.streams[l.current.value].(closed := true)])
  }

  /** Forget the current stream, if there is one. */
  function Forget(l: Loop, end: End): (r: Loop)
    requires WellFormed(l)
    ensures WellFormed(r) && r.now == l.now
  {
    if l.current.None? then l else
      l.(current := None, streams := l.streams[l.current.value := l.streams[l.current.value].(end := end)])
  }

  function Open(l: Loop, kind: Kind): (r: Loop)
    requires WellFormed(l)
    ensures WellFormed(r) && r.now == l.now
  {
    var l := Forget(l, Replaced(l.now));
    l.(current := Some(|l.streams|), streams := l.streams + [Stream(kind, false, [], l.now, Current)])
  }

  /** The current stream has given its answer. */
  function Finish(l: Loop): (r: Loop)
    requires WellFormed(l)
    ensures WellFormed(r) && r.now == l.now
  {
    Forget(CloseCurrent(l), Answered(l.now))
  }

  function HandleHotword(l: Loop, e: Event): (r: Loop)
    requires WellFormed(l) && e.MicHotword?
    ensures WellFormed(r) && r.now == l.now
  {
    var l := CloseCurrent(l);
    var l := if e.isTest then Write(l, MicTestStarted, None) else l;
    if !ModeAccepted(e.mode) then Write(l, AiError(ERROR_INVALID_CONFIG, "unknown mode"), None)
    else if !LocaleAccepted(e.locale) then Write(l, AiError(ERROR_INVALID_CONFIG, "invalid locale string"), None)
    else Open(l, Hotword)
  }

  function AddSamples(l: Loop, samples: seq<int>): (r: Loop)
    requires WellFormed(l)
    ensures WellFormed(r) && r.now == l.now
  {
    if l.current.None? then l else
      var c := l.current.value;
      l.(streams := l.streams[c := l.streams[c].(samples := l.streams[c].samples + samples)])
  }

  predicate FromStream(e: Event) {
    e.Intent? || e.CloudError? || e.CloudOpened? || e.CheckError? || e.CheckResult?
  }

  function HandleStream(l: Loop, e: Event): (r: Loop)
    requires WellFormed(l) && FromStream(e)
    ensures WellFormed(r) && r.now == l.now
  {
    if l.current != Some(e.stream) then l else
      var cause := Some(e.stream);
      match e
      case Intent(_, result) => Finish(Write(Write(l, MicStop, None), AiResult(result), cause))
      case CloudError(_, kind, text) => Finish(Write(Write(l, MicStop, None), AiError(kind, text), cause))
      case CloudOpened(_, session) => Write(l, AiStreamOpen(session), cause)
      case CheckError(_, kind, text) => Finish(Write(l, MicConnection(CheckFailure(kind, text)), cause))
      case CheckResult(_, outcome) => Finish(Write(l, MicConnection(outcome), cause))
  }

  function Handle(l: Loop, e: Event): (r: Loop)
    requires WellFormed(l)
    ensures WellFormed(r) && r.now == l.now
  {
    match e
    case MicHotword(_, _, _) => HandleHotword(l, e)
    case MicDebugFile(file) => Write(l, AiDebugFile(file), None)
    case MicAudio(samples) => AddSamples(l, samples)
    case MicConnectionCheck => Open(CloseCurrent(l), ConnectionCheck)
    case MicAudioDone => l
    case MicOther => l
    case CheckOpened => l
    case _ => HandleStream(l, e)
  }

  function Step(l: Loop, e: Event): Loop
    requires WellFormed(l)
  {
    Handle(l, e).(now := l.now + 1)
  }

  function Run(events: seq<Event>): (l: Loop)
    ensures WellFormed(l) && l.now == |events|
  {
    if events == [] then START else Step(Run(events[..|events| - 1]), events[|events| - 1])
  }

  // ---------------------------------------------------------------------------------
  // Ownership

  /** Exactly the current stream is open-ended, and all the others have been closed. */
  ghost predicate Owned(l: Loop) {
    && WellFormed(l)
    && (forall s :: 0 <= s < |l.streams| ==> (l.streams[s].end == Current <==> l.current == Some(s)))
    && (forall s :: 0 <= s < |l.streams| && l.current != Some(s) ==> l.streams[s].closed)
  }

  /** Each stream's time as the current one comes after that of the one before it, and all
      of them began and ended before `limit`. */
  ghost predicate InTurn(streams: seq<Stream>, limit: nat) {
    && (forall s :: 0 <= s < |streams| ==> streams[s].openedAt < limit)
    && (forall s :: 0 <= s < |streams| && streams[s].end != Current ==> streams[s].openedAt < streams[s].end.at < limit)
    && (forall s, t :: 0 <= s < t < |streams| ==> Before(streams[s], streams[t]))
  }

  /** The one stream had ceased to be current when the other was opened. */
  predicate Before(a: Stream, b: Stream) {
    a.end != Current && a.end.at <= b.openedAt
  }

  predicate Terminal(x: Sent) {
    x.cause.Some? && (x.msg.AiResult? || x.msg.AiError? || x.msg.MicConnection?)
  }

  /** How many terminal responses the stream has caused. */
  function Terminals(log: seq<Sent>, s: nat): nat {
    if log == [] then 0 else
      Terminals(log[..|log| - 1], s) +
      if Terminal(log[|log| - 1]) && log[|log| - 1].cause == Some(s) then 1 else 0
  }

  /** The stream was current when the message was caused, before `limit`. */
  predicate CausedWhileCurrent(l: Loop, x: Sent, limit: nat) {
    x.cause.Some? ==>
      && x.cause.value < |l.streams|
      && var s := l.streams[x.cause.value];
         s.openedAt < x.at < limit && (s.end == Current || x.at <= s.end.at)
  }

  /** A result or a cloud error of a stream directly follows a stop signal to the mic. */
  predicate FollowsStop(log: seq<Sent>, k: nat)
    requires k < |log|
  {
    log[k].cause.Some? && (log[k].msg.AiResult? || log[k].msg.AiError?) ==> k > 0 && log[k - 1].msg == MicStop
  }

  ghost predicate CountedOnce(log: seq<Sent>, streams: seq<Stream>) {
    forall s: nat ::
      Terminals(log, s) == if s < |streams| && streams[s].end.Answered? then 1 else 0
  }

  ghost predicate Timely(l: Loop, limit: nat) {
    forall k :: 0 <= k < |l.log| ==> CausedWhileCurrent(l, l.log[k], limit) && FollowsStop(l.log, k)
  }

  ghost predicate Inv(l: Loop, streamLimit: nat, logLimit: nat) {
    Owned(l) && InTurn(l.streams, streamLimit) && CountedOnce(l.log, l.streams) && Timely(l, logLimit)
  }

  ghost predicate CurrentClosed(l: Loop)
    requires WellFormed(l)
  {
    l.current.Some? ==> l.streams[l.current.value].closed
  }

  lemma TerminalsSnoc(log: seq<Sent>, x: Sent, s: nat)
    ensures Terminals(log + [x], s) == Terminals(log, s) + if Terminal(x) && x.cause == Some(s) then 1 else 0
  {
    assert (log + [x])[..|log + [x]| - 1] == log;
  }

  lemma SameTimes(streams: seq<Stream>, streams': seq<Stream>, limit: nat)
    requires InTurn(streams, limit) && |streams'| == |streams|
    requires forall s :: 0 <= s < |streams| ==>
               streams'[s].openedAt == streams[s].openedAt && streams'[s].end == streams[s].end
    ensures InTurn(streams', limit)
  {
    forall s, t | 0 <= s < t < |streams'| ensures Before(streams'[s], streams'[t]) {
      assert Before(streams[s], streams[t]);
    }
  }

  lemma CloseKeeps(l: Loop, streamLimit: nat, logLimit: nat)
    requires Inv(l, streamLimit, logLimit)
    ensures Inv(CloseCurrent(l), streamLimit, logLimit) && CurrentClosed(CloseCurrent(l))
  {
    SameTimes(l.streams, CloseCurrent(l).streams, streamLimit);
  }

  lemma NotTerminal(log: seq<Sent>, streams: seq<Stream>, x: Sent)
    requires CountedOnce(log, streams) && !Terminal(x)
    ensures CountedOnce(log + [x], streams)
  {
    forall s: nat ensures Terminals(log + [x], s) == Terminals(log, s) {
      TerminalsSnoc(log, x, s);
    }
  }

  /** A message that answers for no stream. */
  lemma WriteKeeps(l: Loop, msg: Message)
    requires Inv(l, l.now, l.now) || Inv(l, l.now, l.now + 1)
    ensures Inv(Write(l, msg, None), l.now, l.now + 1)
  {
    var x := Sent(msg, None, l.now);
    TimelySnoc(l, x);
    NotTerminal(l.log, l.streams, x);
  }

  lemma TimelySnoc(l: Loop, x: Sent)
    requires (Timely(l, l.now) || Timely(l, l.now + 1)) && x.at == l.now
    requires x.cause.Some? ==> x.cause == l.current && x.cause.value < |l.streams| &&
                               l.streams[x.cause.value].end == Current &&
                               l.streams[x.cause.value].openedAt < l.now
    requires x.cause.Some? && (x.msg.AiResult? || x.msg.AiError?) ==> l.log != [] && l.log[|l.log| - 1].msg == MicStop
    ensures Timely(l.(log := l.log + [x]), l.now + 1)
  {
    var l' := l.(log := l.log + [x]);
    forall k | 0 <= k < |l'.log| ensures CausedWhileCurrent(l', l'.log[k], l.now + 1) && FollowsStop(l'.log, k) {
      if k < |l.log| {
        assert l'.log[k] == l.log[k];
        assert FollowsStop(l.log, k);
      }
    }
  }

  lemma ForgetOwned(l: Loop, end: End)
    requires Owned(l) && CurrentClosed(l) && end != Current
    ensures Owned(Forget(l, end))
  {
  }

  lemma ForgetTurns(l: Loop, end: End)
    requires Owned(l) && InTurn(l.streams, l.now) && (end == Replaced(l.now) || end == Answered(l.now))
    ensures InTurn(Forget(l, end).streams, l.now + 1)
  {
    var streams, streams' := l.streams, Forget(l, end).streams;
    forall s, t | 0 <= s < t < |streams'| ensures Before(streams'[s], streams'[t]) {
      assert Before(streams[s], streams[t]);
    }
  }

  lemma ForgetTimely(l: Loop, end: End, limit: nat)
    requires Owned(l) && Timely(l, limit) && limit <= l.now + 1
    requires end == Replaced(l.now) || end == Answered(l.now)
    ensures Timely(Forget(l, end), limit)
  {
    var l' := Forget(l, end);
    forall k | 0 <= k < |l'.log| ensures CausedWhileCurrent(l', l'.log[k], limit) && FollowsStop(l'.log, k) {
      assert CausedWhileCurrent(l, l.log[k], limit) && FollowsStop(l.log, k);
    }
  }

  /** A new stream becomes the current one, of which there is none. */
  lemma AddedKeeps(l: Loop, stream: Stream, limit: nat)
    requires Inv(l, l.now + 1, limit) && l.current.None?
    requires stream.openedAt == l.now && stream.end == Current
    requires forall s :: 0 <= s < |l.streams| ==> l.streams[s].openedAt < l.now && l.streams[s].end.at <= l.now
    ensures Inv(l.(current := Some(|l.streams|), streams := l.streams + [stream]), l.now + 1, limit)
  {
    var l' := l.(current := Some(|l.streams|), streams := l.streams + [stream]);
    forall k | 0 <= k < |l'.log| ensures CausedWhileCurrent(l', l'.log[k], limit) && FollowsStop(l'.log, k) {
      assert CausedWhileCurrent(l, l.log[k], limit) && FollowsStop(l.log, k);
    }
  }

  lemma ReplacedCounts(l: Loop)
    requires Owned(l) && CountedOnce(l.log, l.streams)
    ensures CountedOnce(l.log, Forget(l, Replaced(l.now)).streams)
  {
  }

  lemma OpenKeeps(l: Loop, kind: Kind, logLimit: nat)
    requires Inv(l, l.now, logLimit) && CurrentClosed(l) && logLimit <= l.now + 1
    ensures Inv(Open(l, kind), l.now + 1, logLimit)
  {
    var end := Replaced(l.now);
    ForgetOwned(l, end);
    ForgetTurns(l, end);
    ForgetTimely(l, end, logLimit);
    ReplacedCounts(l);
    ForgetTimes(l, end);
    hide Inv, Forget, CurrentClosed;
    AllGood(Forget(l, end), l.now + 1, logLimit);
    AddedKeeps(Forget(l, end), Stream(kind, false, [], l.now, Current), logLimit);
  }

  lemma ForgetTimes(l: Loop, end: End)
    requires Owned(l) && InTurn(l.streams, l.now) && (end == Replaced(l.now) || end == Answered(l.now))
    ensures var streams := Forget(l, end).streams;
            Forget(l, end).current.None? &&
            forall s :: 0 <= s < |streams| ==>
              streams[s].openedAt < l.now && streams[s].end != Current && streams[s].end.at <= l.now
  {
  }

  lemma AllGood(l: Loop, streamLimit: nat, logLimit: nat)
    requires Owned(l) && InTurn(l.streams, streamLimit) && CountedOnce(l.log, l.streams) && Timely(l, logLimit)
    ensures Inv(l, streamLimit, logLimit)
  {
  }

  /** The current stream's answer: its message is its first terminal one. */
  lemma AnswerKeeps(l: Loop, msg: Message)
    requires l.current.Some? && (Inv(l, l.now, l.now) || Inv(l, l.now, l.now + 1))
    requires msg.MicConnection? || ((msg.AiResult? || msg.AiError?) && l.log != [] && l.log[|l.log| - 1].msg == MicStop)
    ensures Inv(Finish(Write(l, msg, l.current)), l.now + 1, l.now + 1)
  {
    var x, end := Sent(msg, l.current, l.now), Answered(l.now);
    var l1 := Write(l, msg, l.current);
    var l2 := CloseCurrent(l1);
    assert WellFormed(l1);
    TimelySnoc(l, x);
    ClosedStays(l1, l.now);
    ForgetOwned(l2, end);
    ForgetTurns(l2, end);
    ForgetTimely(l2, end, l.now + 1);
    AnswerCounts(l, x);
    hide Inv, Owned, InTurn, CountedOnce, Timely;
    AllGood(Forget(l2, end), l.now + 1, l.now + 1);
  }

  /** Closing the current stream changes nobody's times. */
  lemma ClosedStays(l: Loop, limit: nat)
    requires Owned(l) && InTurn(l.streams, limit) && Timely(l, limit + 1)
    ensures var l' := CloseCurrent(l);
            Owned(l') && InTurn(l'.streams, limit) && Timely(l', limit + 1) && CurrentClosed(l')
  {
    var l' := CloseCurrent(l);
    SameTimes(l.streams, l'.streams, limit);
    forall k | 0 <= k < |l'.log| ensures CausedWhileCurrent(l', l'.log[k], limit + 1) && FollowsStop(l'.log, k) {
      assert CausedWhileCurrent(l, l.log[k], limit + 1) && FollowsStop(l.log, k);
    }
  }

  /** The answer is the first of its stream. */
  lemma AnswerCounts(l: Loop, x: Sent)
    requires Owned(l) && l.current.Some? && CountedOnce(l.log, l.streams) && Terminal(x) && x.cause == l.current
    ensures CountedOnce(l.log + [x], Forget(CloseCurrent(l.(log := l.log + [x])), Answered(l.now)).streams)
  {
    forall s: nat ensures Terminals(l.log + [x], s) == Terminals(l.log, s) + if s == l.current.value then 1 else 0 {
      TerminalsSnoc(l.log, x, s);
    }
  }

  lemma OpenedKeeps(l: Loop, session: string)
    requires l.current.Some? && Inv(l, l.now, l.now)
    ensures Inv(Write(l, AiStreamOpen(session), l.current), l.now, l.now + 1)
  {
    var x, c := Sent(AiStreamOpen(session), l.current, l.now), l.current.value;
    assert l.streams[c].end == Current && l.streams[c].openedAt < l.now;
    TimelySnoc(l, x);
    NotTerminal(l.log, l.streams, x);
  }

  lemma HotwordKeeps(l: Loop, e: Event)
    requires Inv(l, l.now, l.now) && e.MicHotword? && WellFormed(l)
    ensures Inv(HandleHotword(l, e), l.now, l.now + 1) || Inv(HandleHotword(l, e), l.now + 1, l.now + 1)
  {
    hide Inv;
    CloseKeeps(l, l.now, l.now);
    var l1 := CloseCurrent(l);
    WriteKeeps(l1, MicTestStarted);
    var l2 := if e.isTest then Write(l1, MicTestStarted, None) else l1;
    Widen(l1);
    if !Accepted(e) {
      WriteKeeps(l2, AiError(ERROR_INVALID_CONFIG, "unknown mode"));
      WriteKeeps(l2, AiError(ERROR_INVALID_CONFIG, "invalid locale string"));
    } else {
      OpenKeeps(l2, Hotword, l.now + 1);
    }
  }

  /** Later limits are met as well. */
  lemma Widen(l: Loop)
    requires Inv(l, l.now, l.now) || Inv(l, l.now, l.now + 1) || Inv(l, l.now + 1, l.now) ||
            Inv(l, l.now + 1, l.now + 1)
    ensures Inv(l, l.now + 1, l.now + 1)
    ensures Inv(l, l.now, l.now) ==> Inv(l, l.now, l.now + 1)
  {
    forall k | 0 <= k < |l.log|
      ensures CausedWhileCurrent(l, l.log[k], l.now) ==> CausedWhileCurrent(l, l.log[k], l.now + 1) {}
  }

  lemma StreamEventKeeps(l: Loop, e: Event)
    requires Inv(l, l.now, l.now) && WellFormed(l) && FromStream(e) && l.current == Some(e.stream)
    ensures Inv(HandleStream(l, e), l.now, l.now + 1) || Inv(HandleStream(l, e), l.now + 1, l.now + 1)
  {
    hide Inv;
    match e
    case Intent(_, result) => WriteKeeps(l, MicStop); AnswerKeeps(Write(l, MicStop, None), AiResult(result));
    case CloudError(_, kind, text) => WriteKeeps(l, MicStop); AnswerKeeps(Write(l, MicStop, None), AiError(kind, text));
    case CloudOpened(_, session) => OpenedKeeps(l, session);
    case CheckError(_, kind, text) => AnswerKeeps(l, MicConnection(CheckFailure(kind, text)));
    case CheckResult(_, outcome) => AnswerKeeps(l, MicConnection(outcome));
  }

  lemma AudioKeeps(l: Loop, samples: seq<int>)
    requires Inv(l, l.now, l.now)
    ensures Inv(AddSamples(l, samples), l.now, l.now)
  {
    SameTimes(l.streams, AddSamples(l, samples).streams, l.now);
  }

  /** What arrives from a stream that is not current changes nothing. */
  lemma NotCurrentIgnored(l: Loop, e: Event)
    requires WellFormed(l) && FromStream(e) && l.current != Some(e.stream)
    ensures Handle(l, e) == HandleStream(l, e) == l
    ensures Step(l, e) == l.(now := l.now + 1)
  {
  }

  lemma HandleKeeps(l: Loop, e: Event)
    requires Inv(l, l.now, l.now) && WellFormed(l)
    ensures Inv(Handle(l, e), l.now + 1, l.now + 1)
  {
    hide Inv, HandleHotword, HandleStream, AddSamples, Open, CloseCurrent;
    Widen(l);
    match e
    case MicHotword(_, _, _) => HotwordKeeps(l, e); Widen(Handle(l, e));
    case MicDebugFile(file) => WriteKeeps(l, AiDebugFile(file)); Widen(Handle(l, e));
    case MicAudio(samples) => AudioKeeps(l, samples); Widen(Handle(l, e));
    case MicConnectionCheck =>
      CloseKeeps(l, l.now, l.now);
      OpenKeeps(CloseCurrent(l), ConnectionCheck, l.now);
      Widen(Handle(l, e));
    case MicAudioDone =>
    case MicOther =>
    case CheckOpened =>
    case _ =>
      if l.current == Some(e.stream) {
        StreamEventKeeps(l, e);
        Widen(Handle(l, e));
      } else {
        NotCurrentIgnored(l, e);
      }
  }

  lemma StepKeeps(l: Loop, e: Event)
    requires Inv(l, l.now, l.now)
    ensures Inv(Step(l, e), l.now + 1, l.now + 1)
  {
    HandleKeeps(l, e);
    var l', l'' := Handle(l, e), Step(l, e);
    forall k | 0 <= k < |l''.log| ensures CausedWhileCurrent(l'', l''.log[k], l.now + 1) {
      assert CausedWhileCurrent(l', l'.log[k], l.now + 1);
    }
  }

  /** Over every run: every stream but the current one has been closed; the streams are
      current one after the other; each causes at most one terminal response, namely one
      exactly if it was not replaced before answering; it does so while it is current, and
      for an intent stream right after a stop signal. */
  lemma {:induction false} EveryRunIsDisciplined(events: seq<Event>)
    ensures Inv(Run(events), |events|, |events|)
  {
    if events != [] {
      EveryRunIsDisciplined(events[..|events| - 1]);
      StepKeeps(Run(events[..|events| - 1]), events[|events| - 1]);
    }
  }

  /** In particular, over every run: streams that are not current are closed, and no stream
      causes two terminal responses; a result or a cloud error that answers for a stream comes
      right after a stop signal, while the stream is the current one or has just been. */
  lemma StreamsAndAnswers(events: seq<Event>)
    ensures var l := Run(events);
            && (forall s: nat :: s < |l.streams| && l.current != Some(s) ==> l.streams[s].closed)
            && (forall s: nat :: Terminals(l.log, s) <= 1)
            && (forall k: nat :: k < |l.log| && Terminal(l.log[k]) && !l.log[k].msg.MicConnection? ==>
                  k > 0 && l.log[k - 1].msg == MicStop)
            && (forall k: nat :: k < |l.log| && l.log[k].cause.Some? ==>
                  l.log[k].cause.value < |l.streams| &&
                  var s := l.streams[l.log[k].cause.value];
                  s.openedAt < l.log[k].at && (s.end == Current || l.log[k].at <= s.end.at))
  {
    EveryRunIsDisciplined(events);
    var l := Run(events);
    hide Run, InTurn;
    forall k: nat | k < |l.log| ensures CausedWhileCurrent(l, l.log[k], |events|) && FollowsStop(l.log, k) {
      assert Timely(l, |events|);
    }
  }

  // ---------------------------------------------------------------------------------
  // Audio

  /** The samples of the audio events at positions lo to hi - 1. */
  function AudioIn(events: seq<Event>, lo: nat, hi: nat): seq<int>
    requires lo <= hi <= |events|
    decreases hi
  {
    if lo == hi then [] else
      AudioIn(events, lo, hi - 1) + if events[hi - 1].MicAudio? then events[hi - 1].samples else []
  }

  lemma {:induction false} AudioInPrefix(events: seq<Event>, n: nat, lo: nat, hi: nat)
    requires lo <= hi <= n <= |events|
    ensures AudioIn(events[..n], lo, hi) == AudioIn(events, lo, hi)
    decreases hi
  {
    if lo < hi { AudioInPrefix(events, n, lo, hi - 1); }
  }

  /** A hotword arrived between two positions. */
  predicate HotwordIn(events: seq<Event>, lo: nat, hi: nat) {
    exists k :: lo <= k < hi && k < |events| && events[k].MicHotword?
  }

  /** The end of a stream's time as the current one. */
  function EndOf(l: Loop, s: Stream): nat {
    if s.end == Current then l.now else s.end.at
  }

  /** The stream was given the audio of its own time, all of it, and in order.  While it is
      current it is closed exactly if a hotword has been rejected since it was opened. */
  ghost predicate Fed(events: seq<Event>, l: Loop, s: Stream) {
    && s.openedAt < EndOf(l, s) <= |events|
    && s.samples == AudioIn(events, s.openedAt + 1, EndOf(l, s))
    && (s.end == Current ==> (s.closed <==> HotwordIn(events, s.openedAt + 1, l.now)))
  }

  ghost predicate AllFed(events: seq<Event>, l: Loop) {
    forall s :: 0 <= s < |l.streams| ==> Fed(events, l, l.streams[s])
  }

  /** A stream that is not current any more is not concerned by later events. */
  lemma FormerStreamFed(events: seq<Event>, l: Loop, l': Loop, e: Event, s: Stream)
    requires Fed(events, l, s) && s.end != Current
    ensures Fed(events + [e], l', s)
  {
    assert (events + [e])[..|events|] == events;
    AudioInPrefix(events + [e], |events|, s.openedAt + 1, s.end.at);
  }

  lemma AudioSnoc(events: seq<Event>, e: Event, lo: nat)
    requires lo <= |events|
    ensures AudioIn(events + [e], lo, |events|) == AudioIn(events, lo, |events|)
    ensures AudioIn(events + [e], lo, |events| + 1) ==
              AudioIn(events, lo, |events|) + if e.MicAudio? then e.samples else []
  {
    AudioInPrefix(events + [e], |events|, lo, |events|);
    assert (events + [e])[..|events|] == events;
  }

  lemma HotwordSnoc(events: seq<Event>, e: Event, lo: nat)
    requires lo <= |events|
    ensures HotwordIn(events + [e], lo, |events| + 1) <==> HotwordIn(events, lo, |events|) || e.MicHotword?
  {
    var all := events + [e];
    assert forall k :: 0 <= k < |events| ==> all[k] == events[k];
    if e.MicHotword? { assert all[|events|].MicHotword?; }
  }

  /** What an event does to the stream that is current. */
  predicate CurrentMoves(l: Loop, e: Event, l': Loop)
    requires l.current.Some? && l.current.value < |l.streams|
  {
    var c := l.current.value;
    && c < |l'.streams| && var s, s' := l.streams[c], l'.streams[c];
       && s'.openedAt == s.openedAt
       && s'.samples == s.samples + (if e.MicAudio? then e.samples else [])
       && (s'.end != Current ==> s'.end.at == l.now && !e.MicAudio?)
       && (s'.end == Current ==> (s'.closed <==> s.closed || e.MicHotword?))
  }

  lemma HotwordMovesCurrent(l: Loop, e: Event)
    requires WellFormed(l) && l.current.Some? && l.streams[l.current.value].end == Current && e.MicHotword?
    ensures CurrentMoves(l, e, Handle(l, e))
  {
    hide ModeAccepted, LocaleAccepted;
  }

  lemma StreamMovesCurrent(l: Loop, e: Event)
    requires WellFormed(l) && l.current.Some? && l.streams[l.current.value].end == Current && FromStream(e)
    ensures CurrentMoves(l, e, Handle(l, e))
  {
    hide CheckFailure;
  }

  lemma CurrentAfter(l: Loop, e: Event)
    requires Owned(l) && l.current.Some?
    ensures l.streams[l.current.value].end == Current && CurrentMoves(l, e, Step(l, e))
  {
    assert l.streams[l.current.value].end == Current;
    hide Owned;
    if e.MicHotword? {
      HotwordMovesCurrent(l, e);
      hide Handle;
    } else if FromStream(e) {
      StreamMovesCurrent(l, e);
      hide Handle;
    }
  }

  /** The stream that was current before the event. */
  lemma CurrentStreamFed(events: seq<Event>, l: Loop, e: Event)
    requires Owned(l) && l.current.Some? && Fed(events, l, l.streams[l.current.value]) && l.now == |events|
    ensures l.current.value < |Step(l, e).streams|
    ensures Fed(events + [e], Step(l, e), Step(l, e).streams[l.current.value])
  {
    var s := l.streams[l.current.value];
    CurrentAfter(l, e);
    assert Step(l, e).now == l.now + 1;
    hide Step, AudioIn, HotwordIn, Owned;
    AudioSnoc(events, e, s.openedAt + 1);
    HotwordSnoc(events, e, s.openedAt + 1);
  }

  /** Routing of audio, over every run: each stream has been given exactly the samples that
      arrived while it was the current one, in order. */
  lemma {:induction false} EveryStreamFed(events: seq<Event>)
    ensures AllFed(events, Run(events))
  {
    if events != [] {
      hide AllFed, Step, Inv;
      var init, e := events[..|events| - 1], events[|events| - 1];
      EveryStreamFed(init);
      LastEventFed(init, e);
      assert init + [e] == events;
    }
  }

  lemma LastEventFed(events: seq<Event>, e: Event)
    requires AllFed(events, Run(events))
    ensures AllFed(events + [e], Step(Run(events), e))
  {
    hide AllFed, Step;
    EveryRunIsDisciplined(events);
    StepFed(events, Run(events), e);
  }

  lemma NewStreamFed(events: seq<Event>, l: Loop, s: Stream)
    requires s.openedAt + 1 == l.now == |events| && s.samples == [] && s.end == Current && !s.closed
    ensures Fed(events, l, s)
  {
  }

  lemma StepFed(events: seq<Event>, l: Loop, e: Event)
    requires Owned(l) && AllFed(events, l) && l.now == |events|
    ensures AllFed(events + [e], Step(l, e))
  {
    OthersAfter(l, e);
    assert WellFormed(l);
    hide Fed, Step, Owned;
    var l' := Step(l, e);
    forall s | 0 <= s < |l'.streams| ensures Fed(events + [e], l', l'.streams[s]) {
      if s == |l.streams| {
        NewStreamFed(events + [e], l', l'.streams[s]);
      } else if l.current == Some(s) {
        CurrentStreamFed(events, l, e);
      } else {
        FormerStreamFed(events, l, l', e, l.streams[s]);
      }
    }
  }

  /** What an event does to the other streams, and what a new one is like. */
  lemma OthersAfter(l: Loop, e: Event)
    requires Owned(l)
    ensures var l' := Step(l, e);
            && l'.now == l.now + 1 && |l.streams| <= |l'.streams| <= |l.streams| + 1
            && (forall s :: 0 <= s < |l.streams| && l.current != Some(s) ==>
                  l'.streams[s] == l.streams[s] && l.streams[s].end != Current)
            && (|l'.streams| > |l.streams| ==>
                  var s := l'.streams[|l.streams|];
                  s.openedAt == l.now && s.samples == [] && s.end == Current && !s.closed)
  {
  }

  /** No audio event falls into the times of two streams. */
  lemma AudioReachesOneStream(events: seq<Event>, s: nat, t: nat, k: nat)
    requires s < |Run(events).streams| && t < |Run(events).streams| && s != t
    requires var l := Run(events); l.streams[s].openedAt < k < EndOf(l, l.streams[s])
    ensures var l := Run(events); !(l.streams[t].openedAt < k < EndOf(l, l.streams[t]))
  {
    EveryRunIsDisciplined(events);
    var streams := Run(events).streams;
    assert if s < t then Before(streams[s], streams[t]) else Before(streams[t], streams[s]);
  }

  /** A rejected hotword closes the current stream but leaves it current, and audio is still
      handed to it. */
  lemma ClosedStreamStaysCurrent()
    ensures var l := Run([MicHotword(0, "", false), MicHotword(9, "", false), MicAudio([7])]);
            l.current == Some(0) && l.streams[0].closed && l.streams[0].samples == [7]
  {
    var a, b, c := MicHotword(0, "", false), MicHotword(9, "", false), MicAudio([7]);
    assert [a, b, c][..2] == [a, b] && [a, b][..1] == [a] && [a][..0] == [];
    var l1 := Step(START, a);
    assert Run([a]) == l1;
    assert Run([a, b]) == Step(l1, b);
  }
}
