/** The select loop of the voice process, statement by statement, proved to behave as the
    event handling of `VoiceLoop`. */
module VoiceProcess {
  import opened Wire
  import opened VoiceLoop

  class Process {
    /** The stream the loop owns, by its position among those opened. */
    var strm: Option<nat>
    var streams: seq<Stream>
    var log: seq<Sent>
    var handled: nat

    constructor ()
      ensures Valid() && Abs() == START
    {
      strm, streams, log, handled := None, [], [], 0;
    }

    ghost predicate Valid()
      reads this
    {
      WellFormed(Abs())
    }

    ghost function Abs(): Loop
      reads this
    {
      Loop(strm, streams, log, handled)
    }

    /** writeMic and writeResponse: to all receivers, or to all intent writers. */
    method Send(msg: Message, cause: Option<nat>)
      modifies `log
      ensures Abs() == Write(old(Abs()), msg, cause)
    {
      log := log + [Sent(msg, cause, handled)];
    }

    method CloseStream()
      requires Valid()
      modifies `streams
      ensures Valid() && Abs() == CloseCurrent(old(Abs()))
    {
      if strm != None {
        streams := streams[strm.value := streams[strm.value].(closed := true)];
      }
    }

    method NewStream(kind: Kind)
      requires Valid()
      modifies `strm, `streams
      ensures Valid() && Abs() == Open(old(Abs()), kind)
    {
      if strm != None {
        streams := streams[strm.value := streams[strm.value].(end := Replaced(handled))];
      }
      strm, streams := Some(|streams|), streams + [Stream(kind, false, [], handled, Current)];
    }

    /** Close the stream and forget it. */
    method EndStream()
      requires Valid()
      modifies `strm, `streams
      ensures Valid() && Abs() == Finish(old(Abs()))
    {
      CloseStream();
      if strm != None {
        streams := streams[strm.value := streams[strm.value].(end := Answered(handled))];
        strm := None;
      }
    }

    method RespondToConnectionCheck(result: Option<ConnectionResult>, kind: nat, text: string)
      modifies `log
      ensures Abs() == Write(old(Abs()),
                             MicConnection(if result.Some? then result.value else CheckFailure(kind, text)), strm)
    {
      var toSend := ConnectionResult(0, "", 0, EXPECTED_PACKETS);
      if result == None {
        toSend := toSend.(status := text);
        match kind {
          case 7 => toSend := toSend.(code := CODE_TLS);
          case 8 => toSend := toSend.(code := CODE_CONNECTIVITY);
          case 1 => toSend := toSend.(code := CODE_BANDWIDTH);
          case _ => toSend := toSend.(code := CODE_AUTH);
        }
      } else {
        toSend := result.value;
      }
      Send(MicConnection(toSend), strm);
    }

    method OnHotword(e: Event)
      requires Valid() && e.MicHotword?
      modifies this
      ensures Valid() && Abs() == HandleHotword(old(Abs()), e)
    {
      CloseStream();
      if e.isTest {
        Send(MicTestStarted, None);
      }
      if !ModeAccepted(e.mode) {
        Send(AiError(ERROR_INVALID_CONFIG, "unknown mode"), None);
        return;
      }
      if !LocaleAccepted(e.locale) {
        Send(AiError(ERROR_INVALID_CONFIG, "invalid locale string"), None);
        return;
      }
      NewStream(Hotword);
    }

    method OnStream(e: Event)
      requires Valid() && FromStream(e)
      modifies this
      ensures Valid() && Abs() == HandleStream(old(Abs()), e)
    {
      if strm != Some(e.stream) {
        return;
      }
      match e {
        case Intent(_, result) =>
          Send(MicStop, None);
          Send(AiResult(result), strm);
          EndStream();
        case CloudError(_, kind, text) =>
          Send(MicStop, None);
          Send(AiError(kind, text), strm);
          EndStream();
        case CloudOpened(_, session) =>
          Send(AiStreamOpen(session), strm);
        case CheckError(_, kind, text) =>
          RespondToConnectionCheck(None, kind, text);
          EndStream();
        case CheckResult(_, outcome) =>
          RespondToConnectionCheck(Some(outcome), 0, "");
          EndStream();
      }
    }

    method OnEvent(e: Event)
      requires Valid()
      modifies this
      ensures Valid() && Abs() == Step(old(Abs()), e)
    {
      match e {
        case MicHotword(_, _, _) => OnHotword(e);
        case MicDebugFile(file) => Send(AiDebugFile(file), None);
        case MicAudio(samples) =>
          if strm != None {
            streams := streams[strm.value := streams[strm.value].(samples := streams[strm.value].samples + samples)];
          }
        case MicConnectionCheck =>
          CloseStream();
          NewStream(ConnectionCheck);
        case MicAudioDone =>
        case MicOther =>
        case CheckOpened =>
        case _ => OnStream(e);
      }
      handled := handled + 1;
    }
  }

  /** Run, until it is stopped after the given events. */
  method RunProcess(events: seq<Event>) returns (p: Process)
    ensures fresh(p) && p.Abs() == Run(events)
  {
    p := new Process();
    for i := 0 to |events|
      invariant fresh(p) && p.Valid() && p.Abs() == Run(events[..i])
    {
      assert events[..i + 1][..i] == events[..i];
      p.OnEvent(events[i]);
    }
    assert events[..|events|] == events;
  }
}
