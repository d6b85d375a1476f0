/** The datagram server: one socket's packets are told apart by sender address, and an
    address becomes a connection by its handshake packet. */
module Demux {
  import opened Wire

  const BUFFER_SIZE := 32768

  /** "ANKICONN" */
  const HANDSHAKE: seq<byte> := [65, 78, 75, 73, 67, 79, 78, 78]

  predicate IsHandshake(data: seq<byte>) {
    data == HANDSHAKE
  }

  datatype Packet = Packet(addr: string, data: seq<byte>)

  /** What the reader hands on: a new connection to the listener, or bytes to a connection. */
  datatype Handoff = Connect(addr: string) | Deliver(addr: string, data: seq<byte>)

  /** What a read into the reader's buffer gets of a packet. */
  function Received(data: seq<byte>): seq<byte> {
    if |data| <= BUFFER_SIZE then data else data[..BUFFER_SIZE]
  }

  // ---------------------------------------------------------------------------------
  // What one address is due

  /** The packets of one sender, as they are received: the first 32768 bytes of each. */
  function From(ps: seq<Packet>, addr: string): seq<seq<byte>> {
    if ps == [] then [] else
      var p := ps[|ps| - 1];
      From(ps[..|ps| - 1], addr) +
      if p.addr != addr then [] else if |p.data| <= 32768 then [p.data] else [p.data[..32768]]
  }

  /** The packets of one sender, as they are sent. */
  function SentBy(ps: seq<Packet>, addr: string): seq<seq<byte>> {
    if ps == [] then [] else
      var p := ps[|ps| - 1];
      SentBy(ps[..|ps| - 1], addr) + if p.addr == addr then [p.data] else []
  }

  /** The position of the first handshake, or the length. */
  function FirstHandshake(ds: seq<seq<byte>>): (i: nat)
    ensures i <= |ds|
  {
    if ds == [] || IsHandshake(ds[0]) then 0 else 1 + FirstHandshake(ds[1..])
  }

  function WithoutHandshakes(ds: seq<seq<byte>>): seq<seq<byte>> {
    if ds == [] then [] else
      WithoutHandshakes(ds[..|ds| - 1]) + if IsHandshake(ds[|ds| - 1]) then [] else [ds[|ds| - 1]]
  }

  function Deliveries(addr: string, ds: seq<seq<byte>>): seq<Handoff> {
    if ds == [] then [] else Deliveries(addr, ds[..|ds| - 1]) + [Deliver(addr, ds[|ds| - 1])]
  }

  /** A connection, and everything later but handshakes. */
  function Connection(addr: string, later: seq<seq<byte>>): seq<Handoff> {
    [Connect(addr)] + Deliveries(addr, WithoutHandshakes(later))
  }

  /** What the sender of these packets is due: a connection from the first handshake on. */
  function Due(addr: string, ds: seq<seq<byte>>): seq<Handoff> {
    if FirstHandshake(ds) == |ds| then [] else Connection(addr, ds[FirstHandshake(ds) + 1..])
  }

  // ---------------------------------------------------------------------------------
  // What the reader does

  /** The addresses with a client. */
  function Clients(ps: seq<Packet>): set<string> {
    if ps == [] then {} else
      var p := ps[|ps| - 1];
      Clients(ps[..|ps| - 1]) + if IsHandshake(Received(p.data)) then {p.addr} else {}
  }

  /** What is to be done with one more packet of a sender. */
  function Addition(addr: string, shaken: bool, d: seq<byte>): seq<Handoff> {
    if shaken then if IsHandshake(d) then [] else [Deliver(addr, d)]
    else if IsHandshake(d) then [Connect(addr)] else []
  }

  function HandoffOf(clients: set<string>, p: Packet): seq<Handoff> {
    Addition(p.addr, p.addr in clients, Received(p.data))
  }

  function Handoffs(ps: seq<Packet>): seq<Handoff> {
    if ps == [] then [] else
      Handoffs(ps[..|ps| - 1]) + HandoffOf(Clients(ps[..|ps| - 1]), ps[|ps| - 1])
  }

  /** What concerns one address. */
  function Project(hs: seq<Handoff>, addr: string): seq<Handoff> {
    if hs == [] then [] else
      Project(hs[..|hs| - 1], addr) + if hs[|hs| - 1].addr == addr then [hs[|hs| - 1]] else []
  }

  // ---------------------------------------------------------------------------------
  // Every address gets what it is due

  lemma {:induction false} FirstHandshakeIsFirst(ds: seq<seq<byte>>)
    ensures FirstHandshake(ds) < |ds| ==> IsHandshake(ds[FirstHandshake(ds)])
    ensures forall j :: 0 <= j < FirstHandshake(ds) ==> !IsHandshake(ds[j])
  {
    if ds != [] && !IsHandshake(ds[0]) {
      FirstHandshakeIsFirst(ds[1..]);
      forall j | 0 <= j < FirstHandshake(ds)
        ensures !IsHandshake(ds[j])
      {
        if j > 0 { assert ds[j] == ds[1..][j - 1]; }
      }
    }
  }

  lemma {:induction false} FirstHandshakeSnoc(ds: seq<seq<byte>>, d: seq<byte>)
    ensures FirstHandshake(ds + [d]) ==
              if FirstHandshake(ds) < |ds| || IsHandshake(d) then FirstHandshake(ds) else |ds| + 1
  {
    if ds == [] {
      assert (ds + [d])[1..] == [];
    } else {
      assert (ds + [d])[1..] == ds[1..] + [d];
      FirstHandshakeSnoc(ds[1..], d);
    }
  }

  lemma WithoutHandshakesSnoc(ds: seq<seq<byte>>, d: seq<byte>)
    ensures WithoutHandshakes(ds + [d]) == WithoutHandshakes(ds) + if IsHandshake(d) then [] else [d]
  {
    assert (ds + [d])[..|ds|] == ds;
  }

  lemma DeliveriesSnoc(addr: string, ds: seq<seq<byte>>, d: seq<byte>)
    ensures Deliveries(addr, ds + [d]) == Deliveries(addr, ds) + [Deliver(addr, d)]
  {
    assert (ds + [d])[..|ds|] == ds;
  }

  lemma ConnectionSnoc(addr: string, later: seq<seq<byte>>, d: seq<byte>)
    ensures Connection(addr, later + [d]) == Connection(addr, later) + Addition(addr, true, d)
  {
    hide IsHandshake, WithoutHandshakes, Deliveries;
    WithoutHandshakesSnoc(later, d);
    var w := WithoutHandshakes(later);
    if IsHandshake(d) {
      assert WithoutHandshakes(later + [d]) == w;
    } else {
      DeliveriesSnoc(addr, w, d);
      assert Connection(addr, later + [d]) == [Connect(addr)] + (Deliveries(addr, w) + [Deliver(addr, d)]);
    }
  }

  lemma NewConnection(addr: string)
    ensures Connection(addr, []) == [Connect(addr)]
  {
  }

  lemma DropSnoc(ds: seq<seq<byte>>, d: seq<byte>, i: nat)
    requires i <= |ds|
    ensures (ds + [d])[i..] == ds[i..] + [d]
  {
  }

  lemma DueOnceShaken(addr: string, ds: seq<seq<byte>>, i: nat)
    requires i == FirstHandshake(ds) < |ds|
    ensures Due(addr, ds) == Connection(addr, ds[i + 1..])
  {
    hide FirstHandshake, Connection;
  }

  lemma DueSnoc(addr: string, ds: seq<seq<byte>>, d: seq<byte>)
    ensures Due(addr, ds + [d]) == Due(addr, ds) + Addition(addr, FirstHandshake(ds) < |ds|, d)
  {
    hide *;
    FirstHandshakeSnoc(ds, d);
    var i := FirstHandshake(ds);
    if i < |ds| {
      DropSnoc(ds, d, i + 1);
      ConnectionSnoc(addr, ds[i + 1..], d);
      DueOnceShaken(addr, ds, i);
      DueOnceShaken(addr, ds + [d], i);
    } else {
      ConnectionOrNothing(addr, ds, d);
    }
  }

  lemma ConnectionOrNothing(addr: string, ds: seq<seq<byte>>, d: seq<byte>)
    requires FirstHandshake(ds) == |ds|
    ensures Due(addr, ds) == [] && Due(addr, ds + [d]) == Addition(addr, false, d)
  {
    hide IsHandshake, FirstHandshake, Connection;
    FirstHandshakeSnoc(ds, d);
    if IsHandshake(d) {
      assert (ds + [d])[|ds| + 1..] == [];
      NewConnection(addr);
    }
  }

  lemma FromSnoc(ps: seq<Packet>, addr: string)
    requires ps != []
    ensures var p := ps[|ps| - 1];
            From(ps, addr) == From(ps[..|ps| - 1], addr) + if p.addr == addr then [Received(p.data)] else []
  {
  }

  lemma {:induction false} ClientsHaveShakenHands(ps: seq<Packet>, addr: string)
    ensures addr in Clients(ps) <==> FirstHandshake(From(ps, addr)) < |From(ps, addr)|
  {
    hide IsHandshake, FirstHandshake, From, Received;
    if ps != [] {
      var init, p := ps[..|ps| - 1], ps[|ps| - 1];
      ClientsHaveShakenHands(init, addr);
      FirstHandshakeSnoc(From(init, addr), Received(p.data));
      FromSnoc(ps, addr);
      if p.addr != addr { assert From(ps, addr) == From(init, addr); }
    } else {
      NoPackets(addr);
    }
  }

  lemma NoPackets(addr: string)
    ensures From([], addr) == [] && FirstHandshake([]) == 0
  {
  }

  lemma {:induction false} ProjectAppend(a: seq<Handoff>, b: seq<Handoff>, addr: string)
    ensures Project(a + b, addr) == Project(a, addr) + Project(b, addr)
  {
    if b == [] {
      assert a + b == a;
    } else {
      ProjectAppend(a, b[..|b| - 1], addr);
      assert (a + b)[..|a + b| - 1] == a + b[..|b| - 1];
    }
  }

  /** For every interleaving of packets from any senders, each address yields exactly one
      connection, at its first handshake, and that connection is given exactly the address's
      later packets in order, handshakes excepted. */
  lemma {:induction false} EachAddressGetsItsDue(ps: seq<Packet>, addr: string)
    ensures Project(Handoffs(ps), addr) == Due(addr, From(ps, addr))
  {
    hide IsHandshake, Project, Due, From, Clients, HandoffOf, FirstHandshake, Received;
    if ps != [] {
      var init, p := ps[..|ps| - 1], ps[|ps| - 1];
      EachAddressGetsItsDue(init, addr);
      ClientsHaveShakenHands(init, addr);
      var h := HandoffOf(Clients(init), p);
      ProjectAppend(Handoffs(init), h, addr);
      ProjectOne(Clients(init), p, addr);
      FromSnoc(ps, addr);
      if p.addr == addr {
        DueSnoc(addr, From(init, addr), Received(p.data));
      } else {
        assert From(ps, addr) == From(init, addr);
      }
    } else {
      NothingDue(addr);
    }
  }

  lemma NothingDue(addr: string)
    ensures Project([], addr) == Due(addr, From([], addr))
  {
  }

  lemma ProjectOne(clients: set<string>, p: Packet, addr: string)
    ensures Project(HandoffOf(clients, p), addr) ==
              if p.addr == addr then Addition(addr, addr in clients, Received(p.data)) else []
  {
    hide IsHandshake, Received;
    var h := HandoffOf(clients, p);
    if h != [] {
      assert h[..0] == [] && Project(h[..0], addr) == [];
    }
  }

  lemma {:induction false} ShortPacketsAreWhole(ps: seq<Packet>, addr: string)
    requires forall k :: 0 <= k < |ps| ==> |ps[k].data| <= 32768
    ensures From(ps, addr) == SentBy(ps, addr)
  {
    if ps != [] { ShortPacketsAreWhole(ps[..|ps| - 1], addr); }
  }

  /** Packets that fit the buffer are delivered byte for byte. */
  lemma ShortPacketsArriveWhole(ps: seq<Packet>, addr: string)
    requires forall k :: 0 <= k < |ps| ==> |ps[k].data| <= 32768
    ensures Project(Handoffs(ps), addr) == Due(addr, SentBy(ps, addr))
  {
    hide *;
    EachAddressGetsItsDue(ps, addr);
    ShortPacketsAreWhole(ps, addr);
  }

  /** The handshake is the text the other side sends. */
  lemma HandshakeText(d: seq<byte>)
    ensures IsHandshake(d) <==> |d| == 8 && forall i :: 0 <= i < 8 ==> d[i] == "ANKICONN"[i] as int
  {
    var text := "ANKICONN";
    assert |text| == 8;
    assert forall i :: 0 <= i < 8 ==> HANDSHAKE[i] == text[i] as int;
  }

  /** If the server is killed, what was handed on before is, for every address, a prefix of
      what it was due. */
  lemma KilledServerGavePrefix(ps: seq<Packet>, q: nat, addr: string)
    requires q <= |Handoffs(ps)|
    ensures Project(Handoffs(ps)[..q], addr) <= Due(addr, From(ps, addr))
  {
    var hs := Handoffs(ps);
    EachAddressGetsItsDue(ps, addr);
    assert hs == hs[..q] + hs[q..];
    ProjectAppend(hs[..q], hs[q..], addr);
  }

  // ---------------------------------------------------------------------------------
  // The reader thread

  class Reader {
    const buf: array<byte>
    var clients: set<string>

    constructor ()
      ensures buf.Length == BUFFER_SIZE && fresh(buf) && clients == {}
    {
      buf := new byte[BUFFER_SIZE];
      clients := {};
    }

    method ReadFrom(p: Packet) returns (n: nat)
      requires buf.Length == BUFFER_SIZE
      modifies buf
      ensures n == |Received(p.data)| <= buf.Length && buf[..n] == Received(p.data)
    {
      n := if |p.data| <= buf.Length then |p.data| else buf.Length;
      forall i | 0 <= i < n {
        buf[i] := p.data[i];
      }
    }

    /** One packet, n bytes of which are in the buffer: the handoff to attempt, if any. */
    method Dispatch(n: nat, addr: string) returns (h: seq<Handoff>)
      requires n <= buf.Length
      modifies this`clients
      ensures clients == old(clients) + if IsHandshake(buf[..n]) then {addr} else {}
      ensures h == Addition(addr, addr in old(clients), buf[..n]) && |h| <= 1
    {
      var isConnPacket := n == |HANDSHAKE| && buf[..n] == HANDSHAKE;
      h := [];
      if addr in clients {
        if !isConnPacket {
          h := [Deliver(addr, buf[..n])];
        }
      } else if isConnPacket {
        clients := clients + {addr};
        h := [Connect(addr)];
      }
    }
  }

  /** The reader's loop over the packets; it is killed once `quota` handoffs have been taken,
      or before if the packets end. */
  method Serve(ps: seq<Packet>, quota: nat) returns (out: seq<Handoff>)
    ensures out == if quota < |Handoffs(ps)| then Handoffs(ps)[..quota] else Handoffs(ps)
  {
    var r := new Reader();
    out := [];
    NoneServed(ps);
    hide *;
    for k := 0 to |ps|
      invariant r.buf.Length == BUFFER_SIZE && r.clients == Clients(ps[..k])
      invariant out == Handoffs(ps[..k]) && |out| <= quota
    {
      OnePacket(ps, k);
      var n := r.ReadFrom(ps[k]);
      var h := r.Dispatch(n, ps[k].addr);
      if h != [] && |out| == quota {
        MorePackets(ps, k + 1);
        return;
      }
      out := out + h;
    }
    assert ps[..|ps|] == ps;
  }

  lemma NoneServed(ps: seq<Packet>)
    ensures Clients(ps[..0]) == {} && Handoffs(ps[..0]) == []
  {
  }

  lemma OnePacket(ps: seq<Packet>, k: nat)
    requires k < |ps|
    ensures var data, known := Received(ps[k].data), Clients(ps[..k]);
            Clients(ps[..k + 1]) == known + (if IsHandshake(data) then {ps[k].addr} else {}) &&
            Handoffs(ps[..k + 1]) == Handoffs(ps[..k]) + Addition(ps[k].addr, ps[k].addr in known, data)
  {
    hide Received, Addition, IsHandshake;
    assert ps[..k + 1][..k] == ps[..k];
  }

  lemma {:induction false} MorePackets(ps: seq<Packet>, k: nat)
    requires k <= |ps|
    ensures Handoffs(ps[..k]) <= Handoffs(ps)
    decreases |ps| - k
  {
    if k < |ps| {
      assert ps[..k + 1][..k] == ps[..k];
      MorePackets(ps, k + 1);
    } else {
      assert ps[..k] == ps;
    }
  }
}
