/** The navigation-map feed: a map is begun, given quads and ended by separate messages,
    taken in some order from three channels. Claims are about the order taken. */
module NavMap {
  import opened Wire

  datatype Event<I, Q> = Begin(origin: u32, info: I) | Data(quads: seq<Q>) | End

  datatype Map<I, Q> = Map(origin: u32, info: I, quads: seq<Q>)

  // ---------------------------------------------------------------------------------
  // What is to be sent, from the history

  /** The position of the latest Begin or End, or -1. */
  function Mark<I, Q>(es: seq<Event<I, Q>>): (m: int)
    ensures -1 <= m < |es|
    ensures m >= 0 ==> !es[m].Data?
    ensures forall j :: m < j < |es| ==> es[j].Data?
  {
    if es == [] then -1
    else if !es[|es| - 1].Data? then |es| - 1
    else Mark(es[..|es| - 1])
  }

  /** The quads of all Data messages, in order. */
  function Quads<I, Q>(es: seq<Event<I, Q>>): seq<Q> {
    if es == [] then [] else
      var e := es[|es| - 1];
      Quads(es[..|es| - 1]) + if e.Data? then e.quads else []
  }

  /** The map under way: it carries what the latest Begin says and exactly the quads taken
      since; there is none if an End is later, or no Begin. */
  function UnderWay<I, Q>(es: seq<Event<I, Q>>): Option<Map<I, Q>> {
    var m := Mark(es);
    if m >= 0 && es[m].Begin? then Some(Map(es[m].origin, es[m].info, Quads(es[m + 1..]))) else None
  }

  /** The maps to send: every End sends the map under way before it. */
  function Maps<I, Q>(es: seq<Event<I, Q>>): seq<Map<I, Q>> {
    if es == [] then [] else
      var init := es[..|es| - 1];
      Maps(init) + if es[|es| - 1].End? && UnderWay(init).Some? then [UnderWay(init).value] else []
  }

  // ---------------------------------------------------------------------------------
  // Which messages a sent map is made of

  /** The message at k is an End that sends a map. */
  predicate Sends<I, Q>(es: seq<Event<I, Q>>, k: nat)
    requires k < |es|
  {
    es[k].End? && UnderWay(es[..k]).Some?
  }

  /** The positions of the Ends that send, in order. */
  function Sending<I, Q>(es: seq<Event<I, Q>>): seq<int> {
    if es == [] then [] else
      var k := |es| - 1;
      Sending(es[..k]) + if Sends(es, k) then [k] else []
  }

  lemma {:induction false} SendingPositions<I, Q>(es: seq<Event<I, Q>>)
    ensures forall i, j :: 0 <= i < j < |Sending(es)| ==> Sending(es)[i] < Sending(es)[j]
    ensures forall k :: k in Sending(es) <==> 0 <= k < |es| && Sends(es, k)
  {
    hide UnderWay;
    if es != [] {
      var n := |es| - 1;
      SendingPositions(es[..n]);
      forall k | 0 <= k < n
        ensures Sends(es, k) == Sends(es[..n], k)
      {
        assert es[..n][..k] == es[..k];
      }
      var before := Sending(es[..n]);
      assert forall k :: k in Sending(es) <==> k in before || (k == n && Sends(es, n));
      assert forall i :: 0 <= i < |before| ==> before[i] in before;
    }
  }

  /** Map number i is the one under way at the i-th End that sends. */
  lemma {:induction false} EverySentMap<I, Q>(es: seq<Event<I, Q>>)
    ensures |Maps(es)| == |Sending(es)|
    ensures forall i :: 0 <= i < |Sending(es)| ==>
              0 <= Sending(es)[i] < |es| && UnderWay(es[..Sending(es)[i]]) == Some(Maps(es)[i])
  {
    hide UnderWay;
    if es != [] {
      var n := |es| - 1;
      EverySentMap(es[..n]);
      forall i | 0 <= i < |Sending(es)|
        ensures 0 <= Sending(es)[i] < |es| && UnderWay(es[..Sending(es)[i]]) == Some(Maps(es)[i])
      {
        if i < |Sending(es[..n])| {
          var k := Sending(es[..n])[i];
          assert es[..n][..k] == es[..k];
        }
      }
    }
  }

  /** The Data message at d went into the map sent at k. */
  predicate GoesInto<I, Q>(es: seq<Event<I, Q>>, d: nat, k: nat)
    requires d < |es| && k < |es|
  {
    es[d].Data? && Sends(es, k) && Mark(es[..k]) < d < k
  }

  /** A Data message goes into at most one map that is sent. */
  lemma NoQuadIsSentTwice<I, Q>(es: seq<Event<I, Q>>, d: nat, k: nat, l: nat)
    requires d < |es| && k < |es| && l < |es|
    requires GoesInto(es, d, k) && GoesInto(es, d, l)
    ensures k == l
  {
    if k < l { MarkIsLatest(es, k, l); }
    if l < k { MarkIsLatest(es, l, k); }
  }

  lemma MarkIsLatest<I, Q>(es: seq<Event<I, Q>>, k: nat, l: nat)
    requires k < l <= |es| && !es[k].Data?
    ensures Mark(es[..l]) >= k
  {
    assert es[..l][k] == es[k];
  }

  /** Position k is the first Begin or End after d. */
  predicate Closes<I, Q>(es: seq<Event<I, Q>>, d: nat, k: nat)
    requires d < |es| && k < |es|
  {
    d < k && !es[k].Data? && forall j :: d < j < k ==> es[j].Data?
  }

  /** It goes into one if and only if the latest Begin or End before it is a Begin, and the
      first one after it an End. */
  lemma GoesIntoIff<I, Q>(es: seq<Event<I, Q>>, d: nat, k: nat)
    requires d < |es| && k < |es| && es[d].Data?
    ensures GoesInto(es, d, k) <==>
              Closes(es, d, k) && es[k].End? && UnderWay(es[..d]).Some?
  {
    if d < k {
      var before, upto := es[..d], es[..k];
      assert upto[..d] == before;
      if Mark(upto) < d {
        forall j | d < j < k ensures es[j].Data? { assert upto[j].Data?; }
        SameMark(upto, d);
      } else {
        var m := Mark(upto);
        assert !upto[m].Data? && upto[m] == es[m];
        assert d < m < k && !Closes(es, d, k);
      }
    }
  }

  lemma {:induction false} SameMark<I, Q>(es: seq<Event<I, Q>>, d: nat)
    requires Mark(es) < d <= |es|
    ensures Mark(es[..d]) == Mark(es)
  {
    if d < |es| {
      SameMark(es[..|es| - 1], d);
      assert es[..|es| - 1][..d] == es[..d];
    } else {
      assert es[..d] == es;
    }
  }

  // ---------------------------------------------------------------------------------
  // Stray messages

  function Add<I, Q>(m: Map<I, Q>, quads: seq<Q>): Map<I, Q> {
    m.(quads := m.quads + quads)
  }

  /** One message's effect on the map under way. */
  lemma OneMessage<I, Q>(es: seq<Event<I, Q>>, e: Event<I, Q>)
    ensures UnderWay(es + [e]) ==
              match e
              case Begin(o, i) => Some(Map(o, i, []))
              case Data(qs) => if UnderWay(es).Some? then Some(Add(UnderWay(es).value, qs)) else None
              case End => None
  {
    hide UnderWay, Add;
    if e.Data? { DataMessage(es, e); } else { MarkMessage(es, e); }
  }

  lemma MarkSnoc<I, Q>(es: seq<Event<I, Q>>, e: Event<I, Q>)
    ensures Mark(es + [e]) == if e.Data? then Mark(es) else |es|
  {
    assert (es + [e])[..|es|] == es;
  }

  lemma DataMessage<I, Q>(es: seq<Event<I, Q>>, e: Event<I, Q>)
    requires e.Data?
    ensures UnderWay(es + [e]) == if UnderWay(es).Some? then Some(Add(UnderWay(es).value, e.quads)) else None
  {
    hide Mark, Quads;
    var m := Mark(es);
    MarkSnoc(es, e);
    QuadsSnoc(es[m + 1..], e);
    assert (es + [e])[m + 1..] == es[m + 1..] + [e];
  }

  lemma MarkMessage<I, Q>(es: seq<Event<I, Q>>, e: Event<I, Q>)
    requires !e.Data?
    ensures UnderWay(es + [e]) == if e.Begin? then Some(Map(e.origin, e.info, [])) else None
  {
    hide Mark;
    MarkSnoc(es, e);
    assert (es + [e])[|es| + 1..] == [];
  }

  lemma QuadsSnoc<I, Q>(es: seq<Event<I, Q>>, e: Event<I, Q>)
    ensures Quads(es + [e]) == Quads(es) + if e.Data? then e.quads else []
  {
    assert (es + [e])[..|es|] == es;
  }

  lemma MapsSnoc<I, Q>(es: seq<Event<I, Q>>, e: Event<I, Q>)
    ensures Maps(es + [e]) == Maps(es) + if e.End? && UnderWay(es).Some? then [UnderWay(es).value] else []
  {
    hide UnderWay;
    assert (es + [e])[..|es|] == es;
  }

  /** Data or an End with no map under way might as well not have come: whatever follows,
      the same maps are sent. */
  lemma {:induction false} StrayMessagesDoNothing<I, Q>(a: seq<Event<I, Q>>, e: Event<I, Q>, b: seq<Event<I, Q>>)
    requires UnderWay(a).None? && !e.Begin?
    ensures UnderWay(a + [e] + b) == UnderWay(a + b)
    ensures Maps(a + [e] + b) == Maps(a + b)
  {
    hide UnderWay, Maps;
    if b == [] {
      assert a + [e] + b == a + [e] && a + b == a;
      OneMessage(a, e);
      MapsSnoc(a, e);
    } else {
      var init, last := b[..|b| - 1], b[|b| - 1];
      StrayMessagesDoNothing(a, e, init);
      assert a + [e] + b == (a + [e] + init) + [last];
      assert a + b == (a + init) + [last];
      OneMessage(a + [e] + init, last);
      OneMessage(a + init, last);
      MapsSnoc(a + [e] + init, last);
      MapsSnoc(a + init, last);
    }
  }

  // ---------------------------------------------------------------------------------
  // The feed's loop

  /** The loop over the messages taken, until a channel is closed (the messages end) or the
      client is gone after `sends` maps. */
  method NavMapFeed<I, Q>(es: seq<Event<I, Q>>, sends: nat) returns (sent: seq<Map<I, Q>>, clientGone: bool)
    ensures clientGone <==> sends < |Maps(es)|
    ensures sent == if clientGone then Maps(es)[..sends] else Maps(es)
  {
    var pending: Option<Map<I, Q>> := None;
    sent := [];
    for k := 0 to |es|
      invariant pending == UnderWay(es[..k])
      invariant sent == Maps(es[..k]) && |sent| <= sends
    {
      hide *;
      OneMoreMessage(es, k);
      match es[k]
      case Begin(origin, info) =>
        pending := Some(Map(origin, info, []));
      case Data(quads) =>
        if pending.Some? {
          var m := Append(pending.value, quads);
          pending := Some(m);
        }
      case End =>
        if pending.Some? {
          if |sent| == sends {
            LaterMaps(es, k + 1);
            return sent, true;
          }
          sent := sent + [pending.value];
        }
        pending := None;
    }
    assert es[..|es|] == es;
    clientGone := false;
  }

  /** The loop over one message's quads. */
  method Append<I, Q>(m: Map<I, Q>, quads: seq<Q>) returns (r: Map<I, Q>)
    ensures r == Add(m, quads)
  {
    r := m;
    for i := 0 to |quads|
      invariant r == Add(m, quads[..i])
    {
      r := r.(quads := r.quads + [quads[i]]);
      assert quads[..i + 1] == quads[..i] + [quads[i]];
    }
    assert quads[..|quads|] == quads;
  }

  lemma OneMoreMessage<I, Q>(es: seq<Event<I, Q>>, k: nat)
    requires k < |es|
    ensures UnderWay(es[..k + 1]) ==
              match es[k]
              case Begin(o, i) => Some(Map(o, i, []))
              case Data(qs) => if UnderWay(es[..k]).Some? then Some(Add(UnderWay(es[..k]).value, qs)) else None
              case End => None
    ensures Maps(es[..k + 1]) == Maps(es[..k]) +
              if es[k].End? && UnderWay(es[..k]).Some? then [UnderWay(es[..k]).value] else []
  {
    hide UnderWay, Maps;
    assert es[..k + 1] == es[..k] + [es[k]];
    OneMessage(es[..k], es[k]);
    MapsSnoc(es[..k], es[k]);
  }

  lemma {:induction false} LaterMaps<I, Q>(es: seq<Event<I, Q>>, k: nat)
    requires k <= |es|
    ensures Maps(es[..k]) <= Maps(es)
    decreases |es| - k
  {
    hide UnderWay;
    if k < |es| {
      assert es[..k + 1][..k] == es[..k];
      LaterMaps(es, k + 1);
    } else {
      assert es[..k] == es;
    }
  }
}
