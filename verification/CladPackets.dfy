/** Two larger messages of generated code: a union of structures, one of which holds a union,
    and a structure with a list of strings; and what becomes of packets of them. */
module CladPackets {
  import opened Wire
  import opened Clad
  import opened CladMessages

  const ROBOT_COMPLETED_ACTION: byte := 1
  const MEMORY_MAP_MESSAGE_END: byte := 24

  function RobotToExternalCases(): Cases {
    Case(ROBOT_COMPLETED_ACTION, RobotCompletedActionLayout(), Case(MEMORY_MAP_MESSAGE_END, Unit, NoCase))
  }

  function RobotToExternalLayout(): Schema {
    Union(RobotToExternalCases())
  }

  /** What a message's value points to. */
  datatype Content = Nothing | Action(action: RobotCompletedAction) | MapEnd

  class MessageRobotToExternal {
    var tag: Option<byte>
    var value: Content

    constructor ()
      ensures Valid() && Val() == Unset
    {
      tag, value := None, Nothing;
    }

    ghost predicate Empty()
      reads this
    {
      tag.None? || tag.value == TAG_INVALID
    }

    ghost function Parts(): set<object>
      reads this
    {
      if value.Action? then {value.action, value.action.completionInfo} else {}
    }

    ghost predicate Valid()
      reads this, Parts()
    {
      Empty() ||
      (tag.value == ROBOT_COMPLETED_ACTION && value.Action? && value.action.Valid()) ||
      (tag.value == MEMORY_MAP_MESSAGE_END && value.MapEnd?)
    }

    ghost function Val(): Value
      requires Valid()
      reads this, Parts(), if value.Action? then {value.action.completionInfo.value} else {}
    {
      if Empty() then Unset
      else if value.Action? then Tagged(ROBOT_COMPLETED_ACTION, value.action.Val())
      else Tagged(MEMORY_MAP_MESSAGE_END, Value.Empty)
    }

    /** After an error the message is empty, unless there was not even a tag to read. */
    method Unpack(buf: Buffer) returns (ok: bool)
      requires Valid()
      modifies this, buf
      ensures Valid() && Reads(RobotToExternalLayout(), old(buf.data), ok, Val(), buf.data)
      ensures !ok ==> if old(buf.data) == [] then unchanged(this) else Val() == Unset
    {
      var bytes := buf.Next(1);
      if bytes == [] {
        return false;
      }
      CaseRead(bytes[0], buf.data);
      hide *;
      if bytes[0] == TAG_INVALID {
        tag, value := Some(TAG_INVALID), Nothing;
        ok := true;
      } else if bytes[0] == ROBOT_COMPLETED_ACTION {
        var ret := new RobotCompletedAction();
        ok := ret.Unpack(buf);
        tag := Some(if ok then bytes[0] else TAG_INVALID);
        value := if ok then Action(ret) else value;
      } else if bytes[0] == MEMORY_MAP_MESSAGE_END {
        tag, value := Some(bytes[0]), MapEnd;
        ok := true;
      } else {
        tag := Some(TAG_INVALID);
        ok := false;
      }
    }

    method Pack(buf: Buffer) returns (ok: bool)
      requires Valid()
      modifies buf
      ensures Writes(RobotToExternalLayout(), Val(), old(buf.data), ok, buf.data)
    {
      hide Writes, Shape, SizeOf, Encode, Decode, RobotToExternalLayout, RobotCompletedActionLayout,
          RobotCompletedAction.Valid, RobotCompletedAction.Val;
      var t := if tag.Some? then tag.value else TAG_INVALID;
      NoCaseWritten(buf.data);
      ghost var before := buf.data;
      buf.data := buf.data + [t];
      ok := true;
      if t != TAG_INVALID && value.Action? {
        ok := value.action.Pack(buf);
        ActionCaseWritten(value.action.Val(), before, ok, buf.data);
      }
    }

    method Size() returns (result: u32)
      requires Valid()
      ensures Sized(RobotToExternalLayout(), Val(), result)
    {
      hide Shape, SizeOf, Encode, Decode, RobotToExternalLayout, RobotCompletedActionLayout,
          RobotCompletedAction.Valid, RobotCompletedAction.Val;
      NoCaseWritten([]);
      result := 1;
      if tag.Some? && tag.value != TAG_INVALID && value.Action? {
        var n := value.action.Size();
        result := AddSize(1, n, SizeOf(RobotCompletedActionLayout(), value.action.Val()), 1);
        ActionCaseShaped(value.action.Val());
      }
    }
  }

  lemma CaseRead(tag: byte, bs: seq<byte>)
    ensures Decode(RobotToExternalLayout(), [tag] + bs) ==
              if tag == TAG_INVALID then Done(Unset, bs)
              else if tag == ROBOT_COMPLETED_ACTION then Labelled(tag, Decode(RobotCompletedActionLayout(), bs))
              else if tag == MEMORY_MAP_MESSAGE_END then Done(Tagged(tag, Value.Empty), bs)
              else Fail
  {
  }

  lemma NoCaseWritten(before: seq<byte>)
    ensures Writes(RobotToExternalLayout(), Unset, before, true, before + [TAG_INVALID])
    ensures var end := Tagged(MEMORY_MAP_MESSAGE_END, Value.Empty);
            Writes(RobotToExternalLayout(), end, before, true, before + [MEMORY_MAP_MESSAGE_END]) &&
            SizeOf(RobotToExternalLayout(), end) == 1 == SizeOf(RobotToExternalLayout(), Unset) &&
            Shape(RobotToExternalLayout(), end) && Shape(RobotToExternalLayout(), Unset)
  {
  }

  lemma ActionCaseShaped(v: Value)
    requires Shape(RobotCompletedActionLayout(), v)
    ensures var s, u := RobotToExternalLayout(), Tagged(ROBOT_COMPLETED_ACTION, v);
            Shape(s, u) && Encode(s, u) ==
                Join(Some([ROBOT_COMPLETED_ACTION]), Encode(RobotCompletedActionLayout(), v)) &&
            SizeOf(s, u) == 1 + SizeOf(RobotCompletedActionLayout(), v)
  {
    hide RobotCompletedActionLayout;
  }

  lemma ActionCaseWritten(v: Value, before: seq<byte>, ok: bool, after: seq<byte>)
    requires Writes(RobotCompletedActionLayout(), v, before + [ROBOT_COMPLETED_ACTION], ok, after)
    ensures Writes(RobotToExternalLayout(), Tagged(ROBOT_COMPLETED_ACTION, v), before, ok, after)
  {
    hide Encode, Shape, RobotCompletedActionLayout;
    ActionCaseShaped(v);
  }

  function Labelled(tag: byte, p: Parsed): Parsed {
    if p.Fail? then Fail else Done(Tagged(tag, p.v), p.left)
  }

  lemma RobotToExternalChecked()
    ensures Checked(RobotToExternalLayout())
  {
  }

  /** What a fresh buffer holds once a message has been packed into it. */
  lemma PackedAlone(v: Value, ok: bool, bs: seq<byte>)
    requires Writes(RobotToExternalLayout(), v, [], ok, bs)
    ensures var s := RobotToExternalLayout();
            Shape(s, v) && (ok <==> Within(s, v)) &&
            (ok ==> Encode(s, v) == Some(bs) && |bs| == SizeOf(s, v))
  {
    hide RobotToExternalLayout, Shape, Encode, Within, SizeOf, Checked;
    RobotToExternalChecked();
    PacksIffWithin(RobotToExternalLayout(), v);
    if ok {
      assert [] + Encode(RobotToExternalLayout(), v).value == Encode(RobotToExternalLayout(), v).value;
      SizeIsLength(RobotToExternalLayout(), v);
    }
  }

  /** A message packed, and unpacked by another from a buffer with more behind it: it is
      packed if and only if it is within its limits, and then arrives, whole and alone. */
  method Exchange(m: MessageRobotToExternal, more: seq<byte>)
    returns (packed: bool, size: u32, length: nat, n: MessageRobotToExternal, left: seq<byte>)
    requires m.Valid()
    ensures m.Valid() && n.Valid() && fresh(n) && Shape(RobotToExternalLayout(), m.Val())
    ensures packed <==> Within(RobotToExternalLayout(), m.Val())
    ensures packed ==> length == SizeOf(RobotToExternalLayout(), m.Val()) && size == length % 0x1_0000_0000
    ensures packed ==> n.Val() == m.Val() && left == more
  {
    hide Shape, Encode, Within, SizeOf, Decode, RobotToExternalLayout, RobotCompletedAction.Valid,
        RobotCompletedAction.Val;
    ghost var s, v := RobotToExternalLayout(), m.Val();
    var buf := new Buffer([]);
    n := new MessageRobotToExternal();
    size := m.Size();
    packed := m.Pack(buf);
    PackedAlone(v, packed, buf.data);
    left, length := more, |buf.data|;
    if packed {
      RoundTrip(s, v, more);
      buf.data := buf.data + more;
      var ok := n.Unpack(buf);
      left := buf.data;
    }
  }

  /** A packed message of which the first `cut` bytes arrive: it is refused exactly if that
      is not all of it. */
  method ExchangeCut(m: MessageRobotToExternal, cut: nat) returns (packed: bool, length: nat, ok: bool)
    requires m.Valid()
    ensures m.Valid() && Shape(RobotToExternalLayout(), m.Val())
    ensures packed <==> Within(RobotToExternalLayout(), m.Val())
    ensures packed ==> length == SizeOf(RobotToExternalLayout(), m.Val())
    ensures packed ==> (ok <==> cut >= length)
  {
    hide Shape, Encode, Within, SizeOf, Decode, RobotToExternalLayout, RobotCompletedAction.Valid,
        RobotCompletedAction.Val;
    ghost var v := m.Val();
    var buf := new Buffer([]);
    packed := m.Pack(buf);
    PackedAlone(v, packed, buf.data);
    length, ok := |buf.data|, false;
    if packed {
      if cut < length {
        PrefixRejected(RobotToExternalLayout(), v, cut);
        buf.data := buf.data[..cut];
      } else {
        RoundTripsIffWithin(RobotToExternalLayout(), v);
      }
      var n := new MessageRobotToExternal();
      ok := n.Unpack(buf);
    }
  }

  /** These packets hold no flags, so that what is accepted is exactly what Pack writes. */
  lemma PacketsHaveOneForm(bs: seq<byte>, v: Value, left: seq<byte>)
    ensures Decode(RobotToExternalLayout(), bs) == Done(v, left) <==>
            Shape(RobotToExternalLayout(), v) && Within(RobotToExternalLayout(), v) &&
            Encode(RobotToExternalLayout(), v).Some? && bs == Encode(RobotToExternalLayout(), v).value + left
  {
    assert NoBool(RobotToExternalLayout());
    hide *;
    UnpackInvertsPack(RobotToExternalLayout(), bs, v, left);
    if Decode(RobotToExternalLayout(), bs).Done? {
      WithoutFlags(RobotToExternalLayout(), bs);
    }
  }

  // ---------------------------------------------------------------------------------
  // A list of strings

  function ImageLayout(): Schema {
    Field(UInt(4), Field(UInt(4), Field(UInt(4), Field(UInt(4), Field(Bool, Field(Bool, ImageTail()))))))
  }

  /** The last two fields of an image. */
  function ImageTail(): Schema {
    Field(List(1, Str(1, true)), Field(Str(1, true), Unit))
  }

  function Texts(ss: seq<seq<byte>>): (vs: seq<Value>)
    ensures |vs| == |ss| && forall i :: 0 <= i < |ss| ==> vs[i] == Text(ss[i])
  {
    seq(|ss|, i requires 0 <= i < |ss| => Text(ss[i]))
  }

  lemma TextsShaped(ss: seq<seq<byte>>)
    ensures forall i :: 0 <= i < |ss| ==> Shape(Str(1, true), Texts(ss)[i])
  {
  }

  /** The loop that reads n strings. */
  method ReadStrings(buf: Buffer, n: nat) returns (ok: bool, ss: seq<seq<byte>>)
    modifies buf
    ensures DecodeAll(Str(1, true), n, old(buf.data)) == if ok then Done(Items(Texts(ss)), buf.data) else Fail
  {
    hide Decode, DecodeAll, Pow256, After;
    ghost var e, before := Str(1, true), buf.data;
    ss, ok := [], true;
    AfterNone(DecodeAll(e, n, before));
    for idx := 0 to n
      invariant |ss| == idx
      invariant After(Texts(ss), DecodeAll(e, n - idx, buf.data)) == DecodeAll(e, n, before)
    {
      ReadTurn(e, n - idx, Texts(ss), buf.data);
      var x;
      ok, x := buf.ReadString(1, true);
      if !ok { return; }
      assert Texts(ss + [x]) == Texts(ss) + [Text(x)];
      ss := ss + [x];
    }
    AfterAll(Texts(ss), e, buf.data);
  }

  /** The loop that writes them. */
  method WriteStrings(buf: Buffer, ss: seq<seq<byte>>) returns (ok: bool)
    modifies buf
    ensures forall i :: 0 <= i < |ss| ==> Shape(Str(1, true), Texts(ss)[i])
    ensures var b := EncodeAll(Str(1, true), Texts(ss));
            (ok <==> b.Some?) && (ok ==> buf.data == old(buf.data) + b.value)
  {
    hide Encode, EncodeAll, Pow256, Shape, Texts;
    TextsShaped(ss);
    ghost var e, vs, before, written := Str(1, true), Texts(ss), buf.data, [];
    ok := true;
    WriteStart(e, vs);
    for idx := 0 to |ss|
      invariant buf.data == before + written
      invariant Join(Some(written), EncodeAll(e, vs[idx..])) == EncodeAll(e, vs)
    {
      WriteTurn(e, vs, idx, written);
      ok := buf.WriteString(1, true, ss[idx]);
      if !ok { return; }
      written := written + Encode(e, vs[idx]).value;
    }
    WriteEnd(e, vs, written);
  }

  /** An image's value, but for its last two fields. */
  function ImageValue(timestamp: nat, numRows: nat, numCols: nat, numChannels: nat,
                      isCompressed: bool, isEncrypted: bool, rest: Value): Value {
    Pair(Num(timestamp), Pair(Num(numRows), Pair(Num(numCols), Pair(Num(numChannels),
      Pair(Flag(isCompressed), Pair(Flag(isEncrypted), rest))))))
  }

  class OffboardImageReady {
    var timestamp: nat
    var numRows: nat
    var numCols: nat
    var numChannels: nat
    var isCompressed: bool
    var isEncrypted: bool
    var procTypes: seq<seq<byte>>
    var filename: seq<byte>

    constructor ()
      ensures Valid()
    {
      timestamp, numRows, numCols, numChannels := 0, 0, 0, 0;
      isCompressed, isEncrypted, procTypes, filename := false, false, [], [];
    }

    ghost predicate Valid()
      reads this
    {
      timestamp < Pow256(4) && numRows < Pow256(4) && numCols < Pow256(4) && numChannels < Pow256(4)
    }

    /** The value with the given last fields. */
    ghost function With(rest: Value): Value
      reads this
    {
      ImageValue(timestamp, numRows, numCols, numChannels, isCompressed, isEncrypted, rest)
    }

    ghost function Rest(): Value
      reads this
    {
      Pair(Items(Texts(procTypes)), Pair(Text(filename), Empty))
    }

    ghost function Val(): Value
      reads this
    {
      With(Rest())
    }

    method UnpackNumbers(buf: Buffer) returns (ok: bool)
      requires Valid()
      modifies this, buf
      ensures Valid()
      ensures Decode(ImageLayout(), old(buf.data)) ==
                if ok then WithNumbers(timestamp, numRows, numCols, numChannels,
                                       Decode(ImageFlags(), buf.data)) else Fail
    {
      hide Decode, Pow256, ImageTail;
      ghost var s := ImageLayout();
      FieldRead(s, buf.data);
      var n;
      ok, n := buf.ReadUint(4);
      if !ok { return; }
      timestamp := n;
      FieldRead(s.tail, buf.data);
      ok, n := buf.ReadUint(4);
      if !ok { return; }
      numRows := n;
      FieldRead(s.tail.tail, buf.data);
      ok, n := buf.ReadUint(4);
      if !ok { return; }
      numCols := n;
      FieldRead(s.tail.tail.tail, buf.data);
      ok, n := buf.ReadUint(4);
      if !ok { return; }
      numChannels := n;
    }

    method Unpack(buf: Buffer) returns (ok: bool)
      requires Valid()
      modifies this, buf
      ensures Valid() && Reads(ImageLayout(), old(buf.data), ok, Val(), buf.data)
    {
      hide Decode, DecodeAll, Pow256, ImageLayout;
      ok := UnpackNumbers(buf);
      if !ok { return; }
      FieldRead(ImageFlags(), buf.data);
      ok, isCompressed := buf.ReadBool();
      if !ok { return; }
      FieldRead(ImageFlags().tail, buf.data);
      ok, isEncrypted := buf.ReadBool();
      if !ok { return; }
      FieldRead(ImageTail(), buf.data);
      ghost var before := buf.data;
      var n;
      ok, n := buf.ReadUint(1);
      ListRead(ImageTail().head, before, ok, n, buf.data);
      if !ok { return; }
      ok, procTypes := ReadStrings(buf, n);
      if !ok { return; }
      FieldRead(ImageTail().tail, buf.data);
      ok, filename := buf.ReadString(1, true);
    }

    /** The length-checked list. */
    method PackTypes(buf: Buffer) returns (ok: bool)
      modifies buf
      ensures Writes(ImageTail().head, Items(Texts(procTypes)), old(buf.data), ok, buf.data)
    {
      hide Encode, EncodeAll, Pow256, Shape;
      TextsShaped(procTypes);
      ListWritten(1, Str(1, true), Texts(procTypes));
      SmallPowers();
      if |procTypes| > 255 {
        return false;
      }
      buf.WriteUint(1, |procTypes|);
      ok := WriteStrings(buf, procTypes);
    }

    method PackFixed(buf: Buffer)
      requires Valid()
      modifies buf
      ensures buf.data == old(buf.data) +
              FixedBytes(timestamp, numRows, numCols, numChannels, isCompressed, isEncrypted)
    {
      buf.WriteUint(4, timestamp);
      buf.WriteUint(4, numRows);
      buf.WriteUint(4, numCols);
      buf.WriteUint(4, numChannels);
      buf.WriteBool(isCompressed);
      buf.WriteBool(isEncrypted);
    }

    method Pack(buf: Buffer) returns (ok: bool)
      requires Valid()
      modifies buf
      ensures Writes(ImageLayout(), Val(), old(buf.data), ok, buf.data)
    {
      hide Encode, Shape, SizeOf, Pow256, FixedBytes, ImageLayout, ImageValue, Texts;
      ghost var z, types, name := buf.data, Items(Texts(procTypes)), Text(filename);
      PackFixed(buf);
      ghost var a := buf.data;
      ok := PackTypes(buf);
      ghost var ok1, b := ok, buf.data;
      TailShaped(procTypes, filename);
      ImageShaped(timestamp, numRows, numCols, numChannels, isCompressed, isEncrypted, Rest());
      if !ok { return; }
      ok := buf.WriteString(1, true, filename);
      if ok {
        Chain(z, FixedBytes(timestamp, numRows, numCols, numChannels, isCompressed, isEncrypted),
              Encode(ImageTail().head, types).value, Encode(Str(1, true), name).value);
      }
    }

    method Size() returns (result: u32)
      requires Valid()
      ensures Sized(ImageLayout(), Val(), result)
    {
      hide SizeOf, SizeOfAll, Encode, Shape, Pow256, Wraps, AddU32, ImageLayout, ImageValue, Texts;
      TextsShaped(procTypes);
      ghost var e, vs := Str(1, true), Texts(procTypes);
      result := SizeOfFixed();
      ghost var total: nat := 19;
      SizeStart(e, vs);
      for idx := 0 to |procTypes|
        invariant total + SizeOfAll(e, vs[idx..]) == 19 + SizeOfAll(e, vs)
        invariant Wraps(result, total)
      {
        SizeTurn(e, vs, idx);
        TextSize(procTypes, idx);
        result := AddU32(result, 1, total);
        result := AddU32(result, |procTypes[idx]|, total + 1);
        total := total + 1 + |procTypes[idx]|;
      }
      SizeEnd(e, vs);
      result := AddU32(result, 1, total);
      result := AddU32(result, |filename|, total + 1);
      TailShaped(procTypes, filename);
      ImageShaped(timestamp, numRows, numCols, numChannels, isCompressed, isEncrypted, Rest());
    }

    /** The lengths of the fixed part and of the list's prefix. */
    method SizeOfFixed() returns (result: u32)
      ensures Wraps(result, 19)
    {
      result := 4;
      result := AddU32(result, 4, 4);
      result := AddU32(result, 4, 8);
      result := AddU32(result, 4, 12);
      result := AddU32(result, 1, 16);
      result := AddU32(result, 1, 17);
      result := AddU32(result, 1, 18);
    }
  }

  /** The flags of an image and what follows them. */
  function ImageFlags(): Schema {
    Field(Bool, Field(Bool, ImageTail()))
  }

  function WithNumbers(a: nat, b: nat, c: nat, d: nat, p: Parsed): Parsed {
    Prepend(Num(a), Prepend(Num(b), Prepend(Num(c), Prepend(Num(d), p))))
  }

  function FixedBytes(a: nat, b: nat, c: nat, d: nat, e: bool, f: bool): seq<byte> {
    LittleEndian(4, a) + LittleEndian(4, b) + LittleEndian(4, c) + LittleEndian(4, d)
    + [if e then 1 else 0] + [if f then 1 else 0]
  }

  lemma TextSize(ss: seq<seq<byte>>, k: nat)
    requires k < |ss|
    ensures Shape(Str(1, true), Texts(ss)[k]) && SizeOf(Str(1, true), Texts(ss)[k]) == 1 + |ss[k]|
  {
  }

  /** What Pack and Size come to for the last two fields. */
  lemma TailShaped(ss: seq<seq<byte>>, filename: seq<byte>)
    ensures var s, v := ImageTail(), Pair(Items(Texts(ss)), Pair(Text(filename), Empty));
            && (forall i :: 0 <= i < |ss| ==> Shape(Str(1, true), Texts(ss)[i]))
            && Shape(s.head, v.first) && Shape(s, v)
            && Encode(s, v) == Join(Encode(s.head, v.first), Encode(Str(1, true), Text(filename)))
            && SizeOf(s, v) == 1 + SizeOfAll(Str(1, true), Texts(ss)) + 1 + |filename|
  {
    hide Encode;
    TextsShaped(ss);
    var s, v := ImageTail(), Pair(Items(Texts(ss)), Pair(Text(filename), Empty));
    LastField(s.tail, v.rest);
    FieldWritten(s, v);
  }

  /** What they come to for the flags and the rest. */
  lemma FlagsShaped(e: bool, f: bool, rest: Value)
    requires Shape(ImageTail(), rest)
    ensures var s, v := ImageFlags(), Pair(Flag(e), Pair(Flag(f), rest));
            && Shape(s, v) && SizeOf(s, v) == 2 + SizeOf(ImageTail(), rest)
            && Encode(s, v) == Join(Some([if e then 1 else 0]),
                                    Join(Some([if f then 1 else 0]), Encode(ImageTail(), rest)))
  {
    hide ImageTail;
    FieldWritten(ImageFlags().tail, Pair(Flag(f), rest));
    FieldWritten(ImageFlags(), Pair(Flag(e), Pair(Flag(f), rest)));
  }

  lemma NumberShaped(n: nat, rest: Schema, v: Value)
    requires n < Pow256(4) && Shape(rest, v)
    ensures var s, w := Field(UInt(4), rest), Pair(Num(n), v);
            Shape(s, w) && SizeOf(s, w) == 4 + SizeOf(rest, v) &&
                Encode(s, w) == Join(Some(LittleEndian(4, n)), Encode(rest, v))
  {
    hide Pow256, LittleEndian;
    FieldWritten(Field(UInt(4), rest), Pair(Num(n), v));
  }

  /** What they come to for the whole. */
  lemma ImageShaped(a: nat, b: nat, c: nat, d: nat, e: bool, f: bool, rest: Value)
    requires a < Pow256(4) && b < Pow256(4) && c < Pow256(4) && d < Pow256(4) && Shape(ImageTail(), rest)
    ensures var s, v := ImageLayout(), ImageValue(a, b, c, d, e, f, rest);
            && Shape(s, v)
            && Encode(s, v) == Join(Some(FixedBytes(a, b, c, d, e, f)), Encode(ImageTail(), rest))
            && SizeOf(s, v) == 18 + SizeOf(ImageTail(), rest)
  {
    hide Pow256, LittleEndian, ImageTail, Shape, Encode, SizeOf;
    var v := ImageValue(a, b, c, d, e, f, rest);
    FlagsShaped(e, f, rest);
    NumberShaped(d, ImageLayout().tail.tail.tail.tail, v.rest.rest.rest.rest);
    NumberShaped(c, ImageLayout().tail.tail.tail, v.rest.rest.rest);
    NumberShaped(b, ImageLayout().tail.tail, v.rest.rest);
    NumberShaped(a, ImageLayout().tail, v.rest);
    if Encode(ImageTail(), rest).Some? {
      SixAndMore(LittleEndian(4, a), LittleEndian(4, b), LittleEndian(4, c), LittleEndian(4, d),
                 [if e then 1 else 0], [if f then 1 else 0], Encode(ImageTail(), rest).value);
    }
  }

  lemma SixAndMore(a: seq<byte>, b: seq<byte>, c: seq<byte>, d: seq<byte>, e: seq<byte>, f: seq<byte>, more: seq<byte>)
    ensures a + (b + (c + (d + (e + (f + more))))) == a + b + c + d + e + f + more
  {
  }
}
