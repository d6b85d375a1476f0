/** What a hotword, and a request to check the connection, lead to, said of the event alone. */
module VoiceHotword {
  import opened Wire
  import opened VoiceLoop

  /** The locale is a language and a country with one hyphen, or else one underscore, between
      them; or it is left out. */
  ghost predicate TwoParts(locale: string, c: char) {
    exists a: string, b: string :: Parts(locale, a, c, b)
  }

  predicate Parts(locale: string, a: string, c: char, b: string) {
    locale == a + [c] + b && c !in a && c !in b
  }

  lemma {:induction false} NoneCounted(s: string, c: char)
    ensures CountChar(s, c) == 0 <==> c !in s
  {
    if s != [] {
      NoneCounted(s[..|s| - 1], c);
      assert s == s[..|s| - 1] + [s[|s| - 1]];
    }
  }

  lemma {:induction false} CountAppended(a: string, b: string, c: char)
    ensures CountChar(a + b, c) == CountChar(a, c) + CountChar(b, c)
  {
    if b == [] {
      assert a + b == a;
    } else {
      CountAppended(a, b[..|b| - 1], c);
      assert (a + b)[..|a + b| - 1] == a + b[..|b| - 1];
    }
  }

  lemma PartsHaveOne(s: string, a: string, c: char, b: string)
    requires Parts(s, a, c, b)
    ensures CountChar(s, c) == 1
  {
    CountAppended(a + [c], b, c);
    CountAppended(a, [c], c);
    NoneCounted(a, c);
    NoneCounted(b, c);
    assert CountChar([c], c) == 1 by { assert [c][..0] == []; }
  }

  lemma {:induction false} OneMakesParts(s: string, c: char)
    requires CountChar(s, c) == 1
    ensures TwoParts(s, c)
  {
    var n := |s| - 1;
    var init, last := s[..n], s[n];
    assert s == init + [last];
    if last == c {
      NoneCounted(init, c);
      assert Parts(s, init, c, []);
    } else {
      OneMakesParts(init, c);
      var a, b :| Parts(init, a, c, b);
      assert Parts(s, a, c, b + [last]);
    }
  }

  lemma TwoPartsIff(locale: string)
    ensures LocaleAccepted(locale) <==> locale == "" || TwoParts(locale, '-') || TwoParts(locale, '_')
  {
    hide CountChar, TwoParts;
    if CountChar(locale, '-') == 1 { OneMakesParts(locale, '-'); }
    if CountChar(locale, '_') == 1 { OneMakesParts(locale, '_'); }
    PartsCount(locale, '-');
    PartsCount(locale, '_');
  }

  lemma PartsCount(s: string, c: char)
    ensures TwoParts(s, c) ==> CountChar(s, c) == 1
  {
    if TwoParts(s, c) {
      var a, b :| Parts(s, a, c, b);
      PartsHaveOne(s, a, c, b);
    }
  }

  // ---------------------------------------------------------------------------------
  // A hotword

  /** The hotword opens a stream. */
  ghost predicate Opens(mode: nat, locale: string) {
    mode <= 2 && (locale == "" || TwoParts(locale, '-') || TwoParts(locale, '_'))
  }

  lemma AfterHotword(events: seq<Event>, e: Event)
    requires e.MicHotword?
    ensures Run(events + [e]) == HandleHotword(Run(events), e).(now := |events| + 1)
  {
    assert (events + [e])[..|events|] == events;
  }

  /** The messages a test hotword sends first. */
  function TestMessages(isTest: bool): seq<Message> {
    if isTest then [MicTestStarted] else []
  }

  /** The messages with which a log goes on from another. */
  ghost predicate GoesOn(log: seq<Sent>, log': seq<Sent>, more: seq<Message>) {
    |log'| == |log| + |more| && log'[..|log|] == log &&
    forall k :: 0 <= k < |more| ==> log'[|log| + k].msg == more[k]
  }

  /** A hotword of an accepted mode and locale opens a stream, which is then the current one,
      and nothing is sent but the news of a test.  Any other opens none, and sends just one
      invalid-configuration error.  In both cases the stream that was current is closed. */
  lemma HotwordOutcome(events: seq<Event>, mode: nat, locale: string, isTest: bool)
    ensures var l, l' := Run(events), Run(events + [MicHotword(mode, locale, isTest)]);
            && |l.streams| <= |l'.streams| && (l.current.Some? ==> l.current.value < |l.streams|)
            && (l.current.Some? ==> l'.streams[l.current.value].closed)
            && if Opens(mode, locale) then
                 && |l'.streams| == |l.streams| + 1 && l'.current == Some(|l.streams|)
                 && (var s := l'.streams[|l.streams|]; s.kind == Hotword && !s.closed && s.samples == [])
                 && GoesOn(l.log, l'.log, TestMessages(isTest))
               else
                 && |l'.streams| == |l.streams| && l'.current == l.current
                 && GoesOn(l.log, l'.log, TestMessages(isTest) +
                           [AiError(3, if mode > 2 then "unknown mode" else "invalid locale string")])
  {
    var e := MicHotword(mode, locale, isTest);
    AfterHotword(events, e);
    TwoPartsIff(locale);
    hide Run, LocaleAccepted, TwoParts;
    HandledHotword(Run(events), e);
  }

  lemma HandledHotword(l: Loop, e: Event)
    requires WellFormed(l) && e.MicHotword?
    ensures var l' := HandleHotword(l, e);
            && |l.streams| <= |l'.streams|
            && (l.current.Some? ==> l'.streams[l.current.value].closed)
            && if e.mode <= 2 && LocaleAccepted(e.locale) then
                 && |l'.streams| == |l.streams| + 1 && l'.current == Some(|l.streams|)
                 && (var s := l'.streams[|l.streams|]; s.kind == Hotword && !s.closed && s.samples == [])
                 && GoesOn(l.log, l'.log, TestMessages(e.isTest))
               else
                 && |l'.streams| == |l.streams| && l'.current == l.current
                 && GoesOn(l.log, l'.log, TestMessages(e.isTest) +
                           [AiError(3, if e.mode > 2 then "unknown mode" else "invalid locale string")])
  {
    hide LocaleAccepted;
  }

  /** The default locale, and one with each separator, are accepted. */
  lemma UsualLocales(locale: string)
    requires locale == "" || locale == "en-US" || locale == "fr_FR"
    ensures Opens(0, locale) && Opens(1, locale) && Opens(2, locale) && !Opens(3, locale)
  {
    if locale == "en-US" { assert Parts(locale, "en", '-', "US"); }
    if locale == "fr_FR" { assert Parts(locale, "fr", '_', "FR"); }
  }

  // ---------------------------------------------------------------------------------
  // A connection check

  /** A request to check the connection closes the current stream and opens one for it. */
  lemma CheckOutcome(events: seq<Event>)
    ensures var l, l' := Run(events), Run(events + [MicConnectionCheck]);
            && |l'.streams| == |l.streams| + 1 && l'.current == Some(|l.streams|)
            && (var s := l'.streams[|l.streams|]; s.kind == ConnectionCheck && !s.closed && s.samples == [])
            && (l.current.Some? ==> l.current.value < |l.streams| && l'.streams[l.current.value].closed)
            && l'.log == l.log
  {
    assert (events + [MicConnectionCheck])[..|events|] == events;
    assert Run(events + [MicConnectionCheck]) == Step(Run(events), MicConnectionCheck);
    hide Run;
  }

  /** A failed check is reported by the kind of the error: a TLS error as such, one of
      connectivity as such, a timeout as bandwidth, and all others as authorization. */
  lemma CheckFailureCodes(kind: nat, text: string)
    ensures CheckFailure(kind, text) ==
              ConnectionResult(match kind case 7 => 2 case 8 => 1 case 1 => 4 case _ => 3, text, 0, 50)
  {
  }
}
