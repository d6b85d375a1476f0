/** The audio subscriber's hand-written parser of microphone datagrams, and its agreement
    with the generated code for the same messages. */
module MicDatagram {
  import opened Wire
  import opened Clad

  const TAG_AUDIO: byte := 1
  const TAG_AUDIO_DONE: byte := 2
  const TAG_DIRECTION: byte := 0xDA
  const BUFFER_SIZE := 65536
  const DIRECTION_SIZE := 77

  function AudioDataLayout(): Schema {
    Field(List(2, UInt(2)), Unit)
  }

  /** The union of the messages exchanged with the microphone process. */
  function MessageLayout(): Schema {
    Union(
      Case(0, Field(UInt(1), Field(Str(1, true), Field(Str(1, true), Field(Bool, Unit)))),
      Case(1, AudioDataLayout(),
      Case(2, Unit, Case(3, Unit, Case(4, Unit, Case(5, Unit, Case(6, Unit,
      Case(7, Field(UInt(1), Field(Str(1, true), Field(UInt(1), Field(UInt(1), Unit)))),
      Case(8, Field(Str(1, true), Unit),
      Case(9, Field(Str(1, true), Field(Str(2, true), Field(Str(2, true), Unit))),
      Case(10, Field(UInt(1), Field(Str(1, true), Unit)),
      Case(11, Field(Str(1, true), Unit), NoCase)))))))))))))
  }

  // ---------------------------------------------------------------------------------
  // What a datagram means to the subscriber

  /** The PCM bytes of an audio datagram. */
  function Pcm(d: seq<byte>): Option<seq<byte>> {
    if |d| < 3 || d[0] != TAG_AUDIO then None else
      var n := FromLittleEndian(d[1..3]);
      if 3 + n * 2 > |d| then None else Some(d[3..3 + n * 2])
  }

  function I16(u: nat): int {
    if u < 0x8000 then u else u - 0x1_0000
  }

  /** The fields of a direction report that end up in notifications. */
  datatype Direction = Direction(direction: nat, confidence: int, selectedDirection: nat)

  const NO_DIRECTION := Direction(0, 0, 0)

  predicate IsDirection(d: seq<byte>) {
    |d| >= DIRECTION_SIZE && d[0] == TAG_DIRECTION
  }

  function DirectionOf(d: seq<byte>): Direction
    requires IsDirection(d)
  {
    Direction(FromLittleEndian(d[5..7]), I16(FromLittleEndian(d[7..9])), FromLittleEndian(d[9..11]))
  }

  datatype Notification =
    | Chunk(pcm: seq<byte>, timestamp: nat)
    | SpeechDone(timestamp: nat, direction: Direction)

  /** What a read into the subscriber's buffer gets of a datagram. */
  function Received(d: seq<byte>): seq<byte> {
    if |d| <= BUFFER_SIZE then d else d[..BUFFER_SIZE]
  }

  /** A uint64 counter. */
  function Wrap64(n: nat): nat {
    n % 0x1_0000_0000_0000_0000
  }

  lemma Wrap64Next(n: nat)
    ensures Wrap64(0) == 0 && Wrap64(Wrap64(n) + 1) == Wrap64(n + 1)
  {
  }

  /** The number of datagrams with audio. */
  function Published(ds: seq<seq<byte>>): nat {
    if ds == [] then 0 else
      Published(ds[..|ds| - 1]) + if Pcm(Received(ds[|ds| - 1])).Some? then 1 else 0
  }

  /** The latest direction report. */
  function Latest(ds: seq<seq<byte>>): Direction {
    if ds == [] then NO_DIRECTION else
      var d := Received(ds[|ds| - 1]);
      if IsDirection(d) then DirectionOf(d) else Latest(ds[..|ds| - 1])
  }

  /** The notifications due for a series of datagrams: audio is numbered from one, and the
      end of speech carries the latest number and direction. */
  function Notifications(ds: seq<seq<byte>>): seq<Notification> {
    if ds == [] then [] else
      var before, d := ds[..|ds| - 1], Received(ds[|ds| - 1]);
      Notifications(before) +
      if Pcm(d).Some? then [Chunk(Pcm(d).value, Wrap64(Published(before) + 1))]
      else if d != [] && d[0] == TAG_AUDIO_DONE
      then [SpeechDone(Wrap64(Published(before)), Latest(before))]
      else []
  }

  // ---------------------------------------------------------------------------------
  // The subscriber

  class AudioSubscriber {
    const buf: array<byte>
    var timestamp: nat
    var lastDir: Direction

    constructor ()
      ensures buf.Length == BUFFER_SIZE && fresh(buf)
      ensures timestamp == 0 && lastDir == NO_DIRECTION
    {
      buf := new byte[BUFFER_SIZE];
      timestamp, lastDir := 0, NO_DIRECTION;
    }

    /** conn.Read: the front of the buffer is overwritten, the rest keeps earlier bytes. */
    method Read(d: seq<byte>) returns (n: nat)
      requires buf.Length == BUFFER_SIZE
      modifies buf
      ensures n == |Received(d)| && buf[..n] == Received(d) && buf[n..] == old(buf[n..])
    {
      n := if |d| <= buf.Length then |d| else buf.Length;
      forall i | 0 <= i < n {
        buf[i] := d[i];
      }
    }

    /** One turn of readLoop, after the read. */
    method Handle(n: nat) returns (out: seq<Notification>)
      requires buf.Length == BUFFER_SIZE && n <= BUFFER_SIZE
      modifies this
      ensures timestamp == if Pcm(buf[..n]).Some? then Wrap64(old(timestamp) + 1) else old(timestamp)
      ensures lastDir == if IsDirection(buf[..n]) then DirectionOf(buf[..n]) else old(lastDir)
      ensures out == if Pcm(buf[..n]).Some? then [Chunk(Pcm(buf[..n]).value, timestamp)]
                     else if n > 0 && buf[0] == TAG_AUDIO_DONE then [SpeechDone(timestamp, old(lastDir))]
                     else []
    {
      ghost var d := buf[..n];
      out := [];
      if n < 1 { return; }
      var tag := buf[0];
      if tag == TAG_AUDIO {
        if n < 3 { return; }
        WithinRead(buf, n, 1, 3);
        var dataLen := FromLittleEndian(buf[1..3]);
        var pcmStart, pcmEnd := 3, 3 + dataLen * 2;
        if pcmEnd > n { return; }
        WithinRead(buf, n, pcmStart, pcmEnd);
        timestamp := Wrap64(timestamp + 1);
        out := [Chunk(buf[pcmStart..pcmEnd], timestamp)];
      } else if tag == TAG_AUDIO_DONE {
        out := [SpeechDone(timestamp, lastDir)];
      } else if tag == TAG_DIRECTION {
        if n < DIRECTION_SIZE { return; }
        WithinRead(buf, n, 5, 7);
        WithinRead(buf, n, 7, 9);
        WithinRead(buf, n, 9, 11);
        lastDir := Direction(FromLittleEndian(buf[5..7]), I16(FromLittleEndian(buf[7..9])),
                             FromLittleEndian(buf[9..11]));
      }
    }
  }

  /** Parsing below n does not see what the buffer holds beyond n. */
  lemma WithinRead(buf: array<byte>, n: nat, lo: nat, hi: nat)
    requires lo <= hi <= n <= buf.Length
    ensures buf[lo..hi] == buf[..n][lo..hi]
  {
    assert forall i :: 0 <= i < hi - lo ==> buf[lo..hi][i] == buf[..n][lo..hi][i];
  }

  /** readLoop over the datagrams that arrive: every notification depends on the datagrams
      alone, never on what earlier ones left in the shared buffer. */
  method ReadLoop(ds: seq<seq<byte>>) returns (out: seq<Notification>)
    ensures out == Notifications(ds)
  {
    hide Pcm, IsDirection, DirectionOf, Wrap64;
    Wrap64Next(0);
    var s := new AudioSubscriber();
    out := [];
    for i := 0 to |ds|
      invariant s.buf.Length == BUFFER_SIZE
      invariant s.timestamp == Wrap64(Published(ds[..i]))
      invariant s.lastDir == Latest(ds[..i])
      invariant out == Notifications(ds[..i])
    {
      assert ds[..i + 1][..i] == ds[..i];
      Wrap64Next(Published(ds[..i]));
      var n := s.Read(ds[i]);
      var more := s.Handle(n);
      out := out + more;
    }
    assert ds[..|ds|] == ds;
  }

  // ---------------------------------------------------------------------------------
  // Agreement with the generated code

  lemma {:induction false} DecodeSamples(n: nat, bs: seq<byte>)
    ensures DecodeAll(UInt(2), n, bs).Done? <==> n * 2 <= |bs|
    ensures n * 2 <= |bs| ==>
              var vs := DecodeAll(UInt(2), n, bs).v.vs;
              && (forall i :: 0 <= i < n ==> Shape(UInt(2), vs[i]))
              && EncodeAll(UInt(2), vs) == Some(bs[..n * 2])
    decreases n
  {
    if DecodeAll(UInt(2), n, bs).Done? {
      DecodeSoundAll(UInt(2), n, bs);
      WithoutFlagsAll(UInt(2), n, bs);
      var p := DecodeAll(UInt(2), n, bs);
      SizeIsLengthAll(UInt(2), p.v.vs);
      SamplesSize(p.v.vs);
      assert EncodeAll(UInt(2), p.v.vs).value == bs[..n * 2];
    } else if n > 0 && |bs| >= 2 {
      DecodeSamples(n - 1, bs[2..]);
    }
  }

  lemma {:induction false} SamplesSize(vs: seq<Value>)
    requires forall i :: 0 <= i < |vs| ==> Shape(UInt(2), vs[i])
    ensures SizeOfAll(UInt(2), vs) == 2 * |vs|
  {
    if vs != [] { SamplesSize(vs[1..]); }
  }

  /** What AudioData.Unpack does. */
  lemma ReadAudioData(bs: seq<byte>)
    ensures Decode(AudioDataLayout(), bs) ==
              (if |bs| < 2 then Fail else
                 var p := DecodeAll(UInt(2), FromLittleEndian(bs[..2]), bs[2..]);
                 if p.Fail? then Fail else Done(Pair(p.v, Empty), p.left))
  {
    hide DecodeAll, FromLittleEndian;
  }

  lemma AudioCase(bs: seq<byte>)
    ensures DecodeCase(MessageLayout().cases, TAG_AUDIO, bs) == Decode(AudioDataLayout(), bs)
  {
    hide Decode, AudioDataLayout;
    var cs := MessageLayout().cases;
    assert DecodeCase(cs, TAG_AUDIO, bs) == DecodeCase(cs.others, TAG_AUDIO, bs);
  }

  /** What Message.Unpack does with an audio tag. */
  lemma UnpackAudio(d: seq<byte>)
    requires d != [] && d[0] == TAG_AUDIO
    ensures Decode(MessageLayout(), d) ==
              (if |d| < 3 then Fail else
                 var p := DecodeAll(UInt(2), FromLittleEndian(d[1..3]), d[3..]);
                 if p.Fail? then Fail else Done(Tagged(TAG_AUDIO, Pair(p.v, Empty)), p.left))
  {
    hide DecodeAll, DecodeCase, FromLittleEndian, AudioDataLayout;
    AudioCase(d[1..]);
    ReadAudioData(d[1..]);
    if |d| >= 3 {
      assert d[1..][..2] == d[1..3] && d[1..][2..] == d[3..];
    }
  }

  /** The parser publishes an audio datagram exactly if the generated code unpacks it, and
      what it publishes are the unpacked samples in little-endian form. */
  lemma ParserAgreesWithCodec(d: seq<byte>)
    requires d != [] && d[0] == 1 && |d| <= 65536
    ensures Pcm(Received(d)).Some? <==> Decode(MessageLayout(), d).Done?
    ensures Pcm(Received(d)).Some? ==>
              var m := Decode(MessageLayout(), d).v;
              && m.Tagged? && m.t == TAG_AUDIO && m.v.Pair? && m.v.first.Items?
              && (forall i :: 0 <= i < |m.v.first.vs| ==> Shape(UInt(2), m.v.first.vs[i]))
              && EncodeAll(UInt(2), m.v.first.vs) == Some(Pcm(Received(d)).value)
  {
    hide Decode, DecodeAll, EncodeAll;
    UnpackAudio(d);
    if |d| >= 3 {
      var n := FromLittleEndian(d[1..3]);
      DecodeSamples(n, d[3..]);
      assert n * 2 <= |d[3..]| ==> d[3..][..n * 2] == d[3..3 + n * 2];
    }
  }

  /** The unsigned value of two bytes, least significant first. */
  function Word(lo: int, hi: int): int {
    lo + 256 * hi
  }

  lemma TwoBytes(d: seq<byte>, lo: nat)
    requires lo + 2 <= |d|
    ensures FromLittleEndian(d[lo..lo + 2]) == Word(d[lo], d[lo + 1])
  {
    var bs := d[lo..lo + 2];
    assert bs[1..][1..] == [] && FromLittleEndian(bs[1..]) == bs[1];
  }

  /** A report of the direction: the latest one, and nothing is notified. */
  lemma AfterReport(ds: seq<seq<byte>>, report: seq<byte>)
    requires 77 <= |report| <= 65536 && report[0] == 0xDA
    ensures var all := ds + [report];
            && Notifications(all) == Notifications(ds) && Published(all) == Published(ds)
            && Latest(all).direction == Word(report[5], report[6])
            && Latest(all).selectedDirection == Word(report[9], report[10])
            && (Latest(all).confidence - Word(report[7], report[8])) % 0x1_0000 == 0
            && -0x8000 <= Latest(all).confidence < 0x8000
  {
    hide FromLittleEndian;
    var all := ds + [report];
    assert all[..|all| - 1] == ds;
    TwoBytes(report, 5);
    TwoBytes(report, 7);
    TwoBytes(report, 9);
  }

  /** The end of speech: it is notified with the latest report. */
  lemma AfterDone(ds: seq<seq<byte>>, done: seq<byte>)
    requires 0 < |done| <= 65536 && done[0] == 2
    ensures Notifications(ds + [done]) == Notifications(ds) +
              [SpeechDone(Published(ds) % 0x1_0000_0000_0000_0000, Latest(ds))]
  {
    hide FromLittleEndian;
    assert (ds + [done])[..|ds|] == ds;
  }

  /** The end of speech is notified with the direction, confidence and selected direction
      that the latest report has in its bytes 5 to 10, and the number of the last audio. */
  lemma SpeechDoneReports(ds: seq<seq<byte>>, report: seq<byte>, done: seq<byte>)
    requires 77 <= |report| <= 65536 && report[0] == 0xDA
    requires 0 < |done| <= 65536 && done[0] == 2
    ensures exists d: Direction ::
              && Notifications(ds + [report] + [done]) == Notifications(ds) +
                   [SpeechDone(Published(ds) % 0x1_0000_0000_0000_0000, d)]
              && d.direction == Word(report[5], report[6]) && d.selectedDirection == Word(report[9], report[10])
              && (d.confidence - Word(report[7], report[8])) % 0x1_0000 == 0 && -0x8000 <= d.confidence < 0x8000
  {
    hide *;
    AfterReport(ds, report);
    AfterDone(ds + [report], done);
  }
}
