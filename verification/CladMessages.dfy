/** Generated message code over a byte buffer: strings, lists of structures and of integers, and
    a union in a structure, with their Size, Pack and Unpack proved to do what the layout says.
    The fixed array and the nested structure are in CladRecords, the list of strings and the
    union of structures in CladPackets. */
module CladMessages {
  import opened Wire
  import opened Clad

  // ---------------------------------------------------------------------------------
  // Layouts

  function DocLayout(): Schema {
    Field(UInt(8), Field(UInt(8), Field(Str(1, true), Field(Str(4, false), Unit))))
  }

  function ReadItemLayout(): Schema {
    Field(Str(1, true), Field(UInt(8), Unit))
  }

  function ReadRequestLayout(): Schema {
    Field(Str(2, true), Field(Str(2, true), Field(List(2, ReadItemLayout()), Unit)))
  }

  function AnimationCompletedLayout(): Schema {
    Field(Str(1, true), Unit)
  }

  function ActionCompletedUnionCases(): Cases {
    Case(1, AnimationCompletedLayout(), NoCase)
  }

  function RobotCompletedActionLayout(): Schema {
    Field(UInt(4), Field(UInt(4),
                         Field(UInt(4), Field(List(1, UInt(4)), Field(Union(ActionCompletedUnionCases()), Unit)))))
  }

  // ---------------------------------------------------------------------------------
  // The buffer

  /** Unpacking `before` by the layout succeeds or not as `ok` says, with v and `after`. */
  predicate Reads(s: Schema, before: seq<byte>, ok: bool, v: Value, after: seq<byte>) {
    Decode(s, before) == if ok then Done(v, after) else Fail
  }

  /** Packing v appends its encoding, unless a length check fails. */
  predicate Writes(s: Schema, v: Value, before: seq<byte>, ok: bool, after: seq<byte>) {
    && Shape(s, v)
    && (ok <==> Encode(s, v).Some?)
    && (ok ==> after == before + Encode(s, v).value)
  }

  /** r is what a uint32 sum shows of a true total. */
  predicate Wraps(r: u32, total: nat) {
    r == total % 0x1_0000_0000
  }

  /** Size is the length of what Pack writes, modulo the wrap of its uint32 sum. */
  predicate Sized(s: Schema, v: Value, result: u32) {
    Shape(s, v) && Wraps(result, SizeOf(s, v))
  }

  /** uint32 addition of a length to a sum whose true value is `total`. */
  function AddU32(a: u32, b: nat, ghost total: nat): (r: u32)
    requires Wraps(a, total)
    ensures Wraps(r, total + b)
  {
    (a + b) % 0x1_0000_0000
  }

  /** uint32 addition of the size of a nested structure. */
  function AddSize(a: u32, n: u32, ghost size: nat, ghost total: nat): (r: u32)
    requires Wraps(a, total) && Wraps(n, size)
    ensures Wraps(r, total + size)
  {
    (a + n) % 0x1_0000_0000
  }

  class Buffer {
    var data: seq<byte>

    constructor (bytes: seq<byte>)
      ensures data == bytes
    {
      data := bytes;
    }

    /** Up to n bytes from the front. */
    method Next(n: nat) returns (bytes: seq<byte>)
      modifies this
      ensures var k := if n <= |old(data)| then n else |old(data)|;
              bytes == old(data)[..k] && data == old(data)[k..]
    {
      var k := if n <= |data| then n else |data|;
      bytes, data := data[..k], data[k..];
    }

    /** A fixed-width integer, or an error if the buffer is short. */
    method ReadUint(w: nat) returns (ok: bool, n: nat)
      modifies this
      ensures Reads(UInt(w), old(data), ok, Num(n), data) && (ok ==> n < Pow256(w))
    {
      var bytes := Next(w);
      ok, n := |bytes| == w, FromLittleEndian(bytes);
      FromLittleEndianRoundTrip(bytes);
    }

    method ReadBool() returns (ok: bool, b: bool)
      modifies this
      ensures Reads(Bool, old(data), ok, Flag(b), data)
    {
      var bytes := Next(1);
      ok, b := |bytes| == 1, |bytes| == 1 && bytes[0] != 0;
    }

    /** A length and that many bytes: "string byte mismatch" if there are fewer. */
    method ReadString(w: nat, ghost checked: bool) returns (ok: bool, s: seq<byte>)
      modifies this
      ensures Reads(Str(w, checked), old(data), ok, Text(s), data)
    {
      ghost var before := data;
      var n;
      ok, n := ReadUint(w);
      if !ok {
        return ok, [];
      }
      s := Next(n);
      ok := |s| == n;
      assert ok ==> before[w..][..n] == before[w..w + n] && before[w..][n..] == before[w + n..];
    }

    method WriteUint(w: nat, n: nat)
      requires n < Pow256(w)
      modifies this
      ensures Writes(UInt(w), Num(n), old(data), true, data)
    {
      data := data + LittleEndian(w, n);
    }

    method WriteBool(b: bool)
      modifies this
      ensures Writes(Bool, Flag(b), old(data), true, data)
    {
      data := data + [if b then 1 else 0];
    }

    /** The length is checked, where it is, before anything is written. */
    method WriteString(w: nat, checked: bool, s: seq<byte>) returns (ok: bool)
      modifies this
      ensures Writes(Str(w, checked), Text(s), old(data), ok, data)
    {
      if checked && |s| >= Pow256(w) {
        return false;
      }
      data := data + (LittleEndian(w, |s|) + s);
      ok := true;
    }
  }

  // One layer of a layout at a time; the methods below hide the rest.

  lemma FieldRead(s: Schema, bs: seq<byte>)
    requires s.Field?
    ensures Decode(s, bs) ==
              var p := Decode(s.head, bs);
              if p.Fail? then Fail else if s.tail.Unit? then Done(Pair(p.v, Empty), p.left)
              else Prepend(p.v, Decode(s.tail, p.left))
  {
  }

  lemma FieldWritten(s: Schema, v: Value)
    requires s.Field? && v.Pair? && Shape(s.head, v.first) && Shape(s.tail, v.rest)
    ensures Shape(s, v)
    ensures Encode(s, v) == Join(Encode(s.head, v.first), Encode(s.tail, v.rest))
    ensures SizeOf(s, v) == SizeOf(s.head, v.first) + SizeOf(s.tail, v.rest)
  {
  }

  lemma ListRead(s: Schema, before: seq<byte>, ok: bool, n: nat, mid: seq<byte>)
    requires s.List? && Reads(UInt(s.countWidth), before, ok, Num(n), mid)
    ensures Decode(s, before) == if ok then DecodeAll(s.elem, n, mid) else Fail
  {
  }

  class Doc {
    var docVersion: nat
    var fmtVersion: nat
    var metadata: seq<byte>
    var jsonDoc: seq<byte>

    constructor ()
      ensures Valid()
    {
      docVersion, fmtVersion, metadata, jsonDoc := 0, 0, [], [];
    }

    ghost predicate Valid()
      reads this
    {
      docVersion < Pow256(8) && fmtVersion < Pow256(8)
    }

    ghost function Val(): Value
      reads this
    {
      Pair(Num(docVersion), Pair(Num(fmtVersion), Pair(Text(metadata), Pair(Text(jsonDoc), Empty))))
    }

    method Unpack(buf: Buffer) returns (ok: bool)
      requires Valid()
      modifies this, buf
      ensures Valid() && Reads(DocLayout(), old(buf.data), ok, Val(), buf.data)
    {
      hide Decode, Pow256;
      ghost var s := DocLayout();
      FieldRead(s, buf.data);
      var n;
      ok, n := buf.ReadUint(8);
      if !ok { return; }
      docVersion := n;
      FieldRead(s.tail, buf.data);
      ok, n := buf.ReadUint(8);
      if !ok { return; }
      fmtVersion := n;
      FieldRead(s.tail.tail, buf.data);
      ok, metadata := buf.ReadString(1, true);
      if !ok { return; }
      FieldRead(s.tail.tail.tail, buf.data);
      ok, jsonDoc := buf.ReadString(4, false);
    }

    method Pack(buf: Buffer) returns (ok: bool)
      requires Valid()
      modifies buf
      ensures Writes(DocLayout(), Val(), old(buf.data), ok, buf.data)
    {
      hide Encode, SizeOf, LittleEndian, Pow256;
      DocShaped(docVersion, fmtVersion, metadata, jsonDoc);
      buf.WriteUint(8, docVersion);
      buf.WriteUint(8, fmtVersion);
      ok := buf.WriteString(1, true, metadata);
      if !ok { return; }
      ok := buf.WriteString(4, false, jsonDoc);
      Chain4(old(buf.data), Encode(UInt(8), Num(docVersion)).value, Encode(UInt(8), Num(fmtVersion)).value,
             Encode(Str(1, true), Text(metadata)).value, Encode(Str(4, false), Text(jsonDoc)).value);
    }

    method Size() returns (result: u32)
      requires Valid()
      ensures Sized(DocLayout(), Val(), result)
    {
      hide Encode, SizeOf, Pow256;
      DocShaped(docVersion, fmtVersion, metadata, jsonDoc);
      result := 8;
      result := AddU32(result, 8, 8);
      result := AddU32(result, 1, 16);
      result := AddU32(result, |metadata|, 17);
      result := AddU32(result, 4, 17 + |metadata|);
      result := AddU32(result, |jsonDoc|, 21 + |metadata|);
    }
  }

  /** What Pack and Size come to for a document. */
  lemma DocShaped(docVersion: nat, fmtVersion: nat, metadata: seq<byte>, jsonDoc: seq<byte>)
    requires docVersion < Pow256(8) && fmtVersion < Pow256(8)
    ensures var s, v := DocLayout(),
            Pair(Num(docVersion), Pair(Num(fmtVersion), Pair(Text(metadata), Pair(Text(jsonDoc), Empty))));
            && Shape(s, v)
            && SizeOf(s, v) == 21 + |metadata| + |jsonDoc|
            && Encode(UInt(8), Num(docVersion)).Some? && Encode(UInt(8), Num(fmtVersion)).Some?
            && Encode(Str(4, false), Text(jsonDoc)).Some?
            && Encode(s, v) == Join(Encode(UInt(8), Num(docVersion)), Join(Encode(UInt(8), Num(fmtVersion)),
                                 Join(Encode(Str(1, true), Text(metadata)), Encode(Str(4, false), Text(jsonDoc)))))
  {
    hide Pow256, LittleEndian;
    var s, v := DocLayout(),
        Pair(Num(docVersion), Pair(Num(fmtVersion), Pair(Text(metadata), Pair(Text(jsonDoc), Empty))));
    LastField(s.tail.tail.tail, v.rest.rest.rest);
    FieldWritten(s.tail.tail, v.rest.rest);
    FieldWritten(s.tail, v.rest);
    FieldWritten(s, v);
  }

  lemma Chain4(z: seq<byte>, a: seq<byte>, b: seq<byte>, c: seq<byte>, d: seq<byte>)
    ensures z + a + b + c + d == z + (a + (b + (c + d)))
  {
  }

  class ReadItem {
    var docName: seq<byte>
    var myDocVersion: nat

    constructor ()
      ensures Valid()
    {
      docName, myDocVersion := [], 0;
    }

    ghost predicate Valid()
      reads this
    {
      myDocVersion < Pow256(8)
    }

    ghost function Val(): Value
      reads this
    {
      Pair(Text(docName), Pair(Num(myDocVersion), Empty))
    }

    method Unpack(buf: Buffer) returns (ok: bool)
      requires Valid()
      modifies this, buf
      ensures Valid() && Reads(ReadItemLayout(), old(buf.data), ok, Val(), buf.data)
    {
      ok, docName := buf.ReadString(1, true);
      if !ok { return; }
      var n;
      ok, n := buf.ReadUint(8);
      if ok { myDocVersion := n; }
    }

    method Pack(buf: Buffer) returns (ok: bool)
      requires Valid()
      modifies buf
      ensures Writes(ReadItemLayout(), Val(), old(buf.data), ok, buf.data)
    {
      ok := buf.WriteString(1, true, docName);
      if !ok { return; }
      buf.WriteUint(8, myDocVersion);
    }

    method Size() returns (result: u32)
      requires Valid()
      ensures Sized(ReadItemLayout(), Val(), result)
    {
      result := 1;
      result := AddU32(result, |docName|, 1);
      result := AddU32(result, 8, 1 + |docName|);
    }
  }

  /** The values of a slice of items. */
  ghost function Vals(items: seq<ReadItem>): (vs: seq<Value>)
    reads items
    ensures |vs| == |items| && forall i :: 0 <= i < |items| ==> vs[i] == items[i].Val()
  {
    if items == [] then [] else Vals(items[..|items| - 1]) + [items[|items| - 1].Val()]
  }

  ghost predicate AllValid(items: seq<ReadItem>)
    reads items
  {
    forall item <- items :: item.Valid()
  }

  lemma ItemShaped(item: ReadItem)
    requires item.Valid()
    ensures Shape(ReadItemLayout(), item.Val())
  {
  }

  lemma ItemsShaped(items: seq<ReadItem>)
    requires AllValid(items)
    ensures forall i :: 0 <= i < |items| ==> Shape(ReadItemLayout(), Vals(items)[i])
  {
    hide Shape, Vals, ReadItem.Valid, ReadItem.Val, ReadItemLayout;
    forall i | 0 <= i < |items| ensures Shape(ReadItemLayout(), Vals(items)[i]) {
      assert items[i] in items && items[i].Valid();
      ItemShaped(items[i]);
    }
  }

  lemma ValsSnoc(items: seq<ReadItem>, item: ReadItem)
    ensures Vals(items + [item]) == Vals(items) + [item.Val()]
    ensures AllValid(items) && item.Valid() ==> AllValid(items + [item])
  {
    hide ReadItem.Valid, ReadItem.Val;
    assert (items + [item])[..|items + [item]| - 1] == items;
  }

  lemma NoItems()
    ensures Vals([]) == [] && AllValid([])
  {
  }

  // ---------------------------------------------------------------------------------
  // Index loops over a slice

  /** Items already read, in front of those still to be read. */
  function After(done: seq<Value>, p: Parsed): Parsed {
    if p.Done? && p.v.Items? then Done(Items(done + p.v.vs), p.left) else Fail
  }

  lemma AfterNone(p: Parsed)
    requires p.Done? ==> p.v.Items?
    ensures After([], p) == p
  {
    if p.Done? { assert [] + p.v.vs == p.v.vs; }
  }

  lemma AfterAll(done: seq<Value>, e: Schema, bs: seq<byte>)
    ensures After(done, DecodeAll(e, 0, bs)) == Done(Items(done), bs)
  {
    assert done + [] == done;
  }

  /** One more turn of a loop that unpacks n items. */
  lemma ReadTurn(e: Schema, n: nat, done: seq<Value>, bs: seq<byte>)
    requires n > 0
    ensures var p := Decode(e, bs);
            After(done, DecodeAll(e, n, bs)) ==
              if p.Fail? then Fail else After(done + [p.v], DecodeAll(e, n - 1, p.left))
  {
    var p := Decode(e, bs);
    if p.Done? {
      var q := DecodeAll(e, n - 1, p.left);
      if q.Done? {
        assert done + ([p.v] + q.v.vs) == done + [p.v] + q.v.vs;
      }
    }
  }

  /** One more turn of a loop that packs the items of vs, k of them so far. */
  lemma WriteTurn(e: Schema, vs: seq<Value>, k: nat, written: seq<byte>)
    requires k < |vs| && forall i :: 0 <= i < |vs| ==> Shape(e, vs[i])
    ensures var b := Encode(e, vs[k]);
            Join(Some(written), EncodeAll(e, vs[k..])) ==
              if b.None? then None else Join(Some(written + b.value), EncodeAll(e, vs[k + 1..]))
  {
    assert vs[k..][1..] == vs[k + 1..];
    var b, c := Encode(e, vs[k]), EncodeAll(e, vs[k + 1..]);
    if b.Some? && c.Some? {
      assert written + (b.value + c.value) == written + b.value + c.value;
    }
  }

  lemma WriteStart(e: Schema, vs: seq<Value>)
    requires forall i :: 0 <= i < |vs| ==> Shape(e, vs[i])
    ensures Join(Some([]), EncodeAll(e, vs[0..])) == EncodeAll(e, vs)
  {
    assert vs[0..] == vs;
    var c := EncodeAll(e, vs);
    if c.Some? { assert [] + c.value == c.value; }
  }

  lemma WriteEnd(e: Schema, vs: seq<Value>, written: seq<byte>)
    ensures Join(Some(written), EncodeAll(e, vs[|vs|..])) == Some(written)
  {
    assert vs[|vs|..] == [] && written + [] == written;
  }

  lemma SizeTurn(e: Schema, vs: seq<Value>, k: nat)
    requires k < |vs| && forall i :: 0 <= i < |vs| ==> Shape(e, vs[i])
    ensures SizeOfAll(e, vs[k..]) == SizeOf(e, vs[k]) + SizeOfAll(e, vs[k + 1..])
  {
    assert vs[k..][1..] == vs[k + 1..];
  }

  class ReadRequest {
    var account: seq<byte>
    var thing: seq<byte>
    var items: seq<ReadItem>

    constructor ()
      ensures Valid()
    {
      account, thing, items := [], [], [];
    }

    ghost predicate Valid()
      reads this, items
    {
      AllValid(items)
    }

    ghost function Val(): Value
      reads this, items
    {
      Pair(Text(account), Pair(Text(thing), Pair(Items(Vals(items)), Empty)))
    }

    /** One turn of the loop. */
    method UnpackItem(buf: Buffer) returns (ok: bool, item: ReadItem)
      modifies buf
      ensures fresh(item) && item.Valid() && Reads(ReadItemLayout(), old(buf.data), ok, item.Val(), buf.data)
    {
      hide *;
      item := new ReadItem();
      ok := item.Unpack(buf);
    }

    method UnpackItems(buf: Buffer, n: nat) returns (ok: bool, read: seq<ReadItem>)
      modifies buf
      ensures AllValid(read) && (forall item <- read :: fresh(item))
      ensures DecodeAll(ReadItemLayout(), n, old(buf.data)) == if ok then Done(Items(Vals(read)), buf.data) else Fail
    {
      hide Decode, DecodeAll, Pow256, After, ReadItemLayout, ReadItem.Valid, ReadItem.Val, AllValid, Vals;
      ghost var e, before := ReadItemLayout(), buf.data;
      read, ok := [], true;
      NoItems();
      AfterNone(DecodeAll(e, n, before));
      for idx := 0 to n
        invariant |read| == idx && AllValid(read) && forall item <- read :: fresh(item)
        invariant After(Vals(read), DecodeAll(e, n - idx, buf.data)) == DecodeAll(e, n, before)
      {
        ReadTurn(e, n - idx, Vals(read), buf.data);
        ghost var done := Vals(read);
        var item;
        ok, item := UnpackItem(buf);
        if !ok { return; }
        assert Vals(read) == done;
        ValsSnoc(read, item);
        read := read + [item];
      }
      AfterAll(Vals(read), e, buf.data);
    }

    method Unpack(buf: Buffer) returns (ok: bool)
      modifies this, buf
      ensures Reads(ReadRequestLayout(), old(buf.data), ok, Val(), buf.data) && (ok ==> Valid())
    {
      hide Decode, DecodeAll, Pow256;
      ghost var s := ReadRequestLayout();
      FieldRead(s, buf.data);
      ok, account := buf.ReadString(2, true);
      if !ok { return; }
      FieldRead(s.tail, buf.data);
      ok, thing := buf.ReadString(2, true);
      if !ok { return; }
      FieldRead(s.tail.tail, buf.data);
      ghost var before := buf.data;
      var n;
      ok, n := buf.ReadUint(2);
      ListRead(s.tail.tail.head, before, ok, n, buf.data);
      if !ok { return; }
      ok, items := UnpackItems(buf, n);
    }

    method PackItems(buf: Buffer) returns (ok: bool)
      requires Valid()
      modifies buf
      ensures forall i :: 0 <= i < |items| ==> Shape(ReadItemLayout(), Vals(items)[i])
      ensures var b := EncodeAll(ReadItemLayout(), Vals(items));
              (ok <==> b.Some?) && (ok ==> buf.data == old(buf.data) + b.value)
    {
      hide Encode, EncodeAll, Pow256, Shape, ReadItemLayout, ReadItem.Valid, ReadItem.Val, Vals;
      ItemsShaped(items);
      ghost var e, vs, before, written := ReadItemLayout(), Vals(items), buf.data, [];
      ok := true;
      WriteStart(e, vs);
      for idx := 0 to |items|
        invariant AllValid(items) && Vals(items) == vs
        invariant buf.data == before + written
        invariant Join(Some(written), EncodeAll(e, vs[idx..])) == EncodeAll(e, vs)
      {
        WriteTurn(e, vs, idx, written);
        ok := items[idx].Pack(buf);
        if !ok { return; }
        written := written + Encode(e, vs[idx]).value;
      }
      WriteEnd(e, vs, written);
    }

    /** The length-checked slice at the end of the message. */
    method PackList(buf: Buffer) returns (ok: bool)
      requires Valid()
      modifies buf
      ensures Writes(List(2, ReadItemLayout()), Items(Vals(items)), old(buf.data), ok, buf.data)
    {
      hide Encode, EncodeAll, Pow256, Shape;
      ItemsShaped(items);
      ListWritten(2, ReadItemLayout(), Vals(items));
      SmallPowers();
      if |items| > 65535 {
        return false;
      }
      buf.WriteUint(2, |items|);
      ok := PackItems(buf);
    }

    method Pack(buf: Buffer) returns (ok: bool)
      requires Valid()
      modifies buf
      ensures Writes(ReadRequestLayout(), Val(), old(buf.data), ok, buf.data)
    {
      hide Encode, EncodeAll, Pow256, Shape, Vals, ReadItemLayout;
      ItemsShaped(items);
      RequestShaped(account, thing, Vals(items));
      ok := buf.WriteString(2, true, account);
      if !ok { return; }
      ok := buf.WriteString(2, true, thing);
      if !ok { return; }
      ok := PackList(buf);
      if ok {
        Chain(old(buf.data), Encode(Str(2, true), Text(account)).value, Encode(Str(2, true), Text(thing)).value,
              Encode(List(2, ReadItemLayout()), Items(Vals(items))).value);
      }
    }

    method Size() returns (result: u32)
      requires Valid()
      ensures Sized(ReadRequestLayout(), Val(), result)
    {
      hide SizeOf, SizeOfAll, Shape, Pow256, Wraps, AddU32, AddSize, Vals, ReadItemLayout, ReadItem.Valid, ReadItem.Val;
      ItemsShaped(items);
      ghost var e, vs := ReadItemLayout(), Vals(items);
      RequestShaped(account, thing, vs);
      result := SizeOfStrings();
      ghost var head := 6 + |account| + |thing|;
      ghost var total: nat := head;
      SizeStart(e, vs);
      for idx := 0 to |items|
        invariant total + SizeOfAll(e, vs[idx..]) == head + SizeOfAll(e, vs)
        invariant Wraps(result, total)
      {
        SizeTurn(e, vs, idx);
        var n := items[idx].Size();
        result := AddSize(result, n, SizeOf(e, vs[idx]), total);
        total := total + SizeOf(e, vs[idx]);
      }
      SizeEnd(e, vs);
    }

    /** The lengths of the strings and of the three prefixes. */
    method SizeOfStrings() returns (result: u32)
      ensures Wraps(result, 6 + |account| + |thing|)
    {
      result := 2;
      result := AddU32(result, |account|, 2);
      result := AddU32(result, 2, 2 + |account|);
      result := AddU32(result, |thing|, 4 + |account|);
      result := AddU32(result, 2, 4 + |account| + |thing|);
    }
  }

  lemma SizeStart(e: Schema, vs: seq<Value>)
    requires forall i :: 0 <= i < |vs| ==> Shape(e, vs[i])
    ensures SizeOfAll(e, vs[0..]) == SizeOfAll(e, vs)
  {
    assert vs[0..] == vs;
  }

  lemma SizeEnd(e: Schema, vs: seq<Value>)
    ensures SizeOfAll(e, vs[|vs|..]) == 0
  {
  }

  /** What Pack and Size come to for a request, field by field. */
  lemma RequestShaped(account: seq<byte>, thing: seq<byte>, vs: seq<Value>)
    requires forall i :: 0 <= i < |vs| ==> Shape(ReadItemLayout(), vs[i])
    ensures var s, l := ReadRequestLayout(), List(2, ReadItemLayout());
            var v := Pair(Text(account), Pair(Text(thing), Pair(Items(vs), Empty)));
            && Shape(s, v)
            && SizeOf(s, v) == 6 + |account| + |thing| + SizeOfAll(ReadItemLayout(), vs)
            && Encode(s, v) ==
                 Join(Encode(Str(2, true), Text(account)),
                      Join(Encode(Str(2, true), Text(thing)), Encode(l, Items(vs))))
  {
    hide Encode;
    var l := List(2, ReadItemLayout());
    var v := Pair(Text(account), Pair(Text(thing), Pair(Items(vs), Empty)));
    LastField(Field(l, Unit), v.rest.rest);
    FieldWritten(ReadRequestLayout().tail, v.rest);
    FieldWritten(ReadRequestLayout(), v);
  }

  lemma Chain(z: seq<byte>, a: seq<byte>, b: seq<byte>, c: seq<byte>)
    ensures z + a + b + c == z + (a + (b + c))
  {
  }

  lemma LastField(s: Schema, v: Value)
    requires s.Field? && s.tail.Unit? && v.Pair? && v.rest.Empty? && Shape(s.head, v.first)
    ensures Shape(s, v) && Encode(s, v) == Encode(s.head, v.first) && SizeOf(s, v) == SizeOf(s.head, v.first)
  {
    var c := Encode(s.head, v.first);
    if c.Some? { assert c.value + [] == c.value; }
  }

  lemma ListWritten(w: nat, e: Schema, vs: seq<Value>)
    requires forall i :: 0 <= i < |vs| ==> Shape(e, vs[i])
    ensures Shape(List(w, e), Items(vs))
    ensures Encode(List(w, e), Items(vs)) ==
              if |vs| >= Pow256(w) then None else Join(Encode(UInt(w), Num(|vs|)), EncodeAll(e, vs))
  {
  }

  // ---------------------------------------------------------------------------------
  // Slices of fixed-size elements

  /** The values of a slice of integers. */
  ghost function Nums(ns: seq<nat>): (vs: seq<Value>)
    ensures |vs| == |ns| && forall i :: 0 <= i < |ns| ==> vs[i] == Num(ns[i])
  {
    seq(|ns|, i requires 0 <= i < |ns| => Num(ns[i]))
  }

  predicate AllBelow(ns: seq<nat>, limit: nat) {
    forall i :: 0 <= i < |ns| ==> ns[i] < limit
  }

  /** binary.Read into a slice of n integers of w bytes. */
  method ReadUints(buf: Buffer, w: nat, n: nat) returns (ok: bool, ns: seq<nat>)
    modifies buf
    ensures AllBelow(ns, Pow256(w))
    ensures DecodeAll(UInt(w), n, old(buf.data)) == if ok then Done(Items(Nums(ns)), buf.data) else Fail
  {
    hide Decode, DecodeAll, Pow256, After;
    ghost var e, before := UInt(w), buf.data;
    ns, ok := [], true;
    AfterNone(DecodeAll(e, n, before));
    for idx := 0 to n
      invariant |ns| == idx && AllBelow(ns, Pow256(w))
      invariant After(Nums(ns), DecodeAll(e, n - idx, buf.data)) == DecodeAll(e, n, before)
    {
      ReadTurn(e, n - idx, Nums(ns), buf.data);
      var x;
      ok, x := buf.ReadUint(w);
      if !ok { return; }
      assert Nums(ns + [x]) == Nums(ns) + [Num(x)];
      ns := ns + [x];
    }
    AfterAll(Nums(ns), e, buf.data);
  }

  /** binary.Write of such a slice. */
  method WriteUints(buf: Buffer, w: nat, ns: seq<nat>)
    requires AllBelow(ns, Pow256(w))
    modifies buf
    ensures forall i :: 0 <= i < |ns| ==> Shape(UInt(w), Nums(ns)[i])
    ensures var b := EncodeAll(UInt(w), Nums(ns)); b.Some? && buf.data == old(buf.data) + b.value
  {
    ghost var e, vs, before, written := UInt(w), Nums(ns), buf.data, [];
    assert forall i :: 0 <= i < |vs| ==> Shape(e, vs[i]);
    hide Encode, EncodeAll, Pow256, Shape;
    WriteStart(e, vs);
    for idx := 0 to |ns|
      invariant buf.data == before + written
      invariant Join(Some(written), EncodeAll(e, vs[idx..])) == EncodeAll(e, vs)
    {
      WriteTurn(e, vs, idx, written);
      buf.WriteUint(w, ns[idx]);
      written := written + Encode(e, vs[idx]).value;
    }
    WriteEnd(e, vs, written);
  }

  lemma {:induction false} SizeOfNums(w: nat, ns: seq<nat>)
    requires AllBelow(ns, Pow256(w))
    ensures forall i :: 0 <= i < |ns| ==> Shape(UInt(w), Nums(ns)[i])
    ensures SizeOfAll(UInt(w), Nums(ns)) == |ns| * w
  {
    if ns != [] {
      assert forall i :: 0 <= i < |ns[1..]| ==> ns[1..][i] == ns[i + 1];
      SizeOfNums(w, ns[1..]);
      assert Nums(ns)[1..] == Nums(ns[1..]);
    }
  }

  // ---------------------------------------------------------------------------------
  // A union, in a structure

  class AnimationCompleted {
    var animationName: seq<byte>

    constructor ()
    {
      animationName := [];
    }

    ghost function Val(): Value
      reads this
    {
      Pair(Text(animationName), Empty)
    }

    method Unpack(buf: Buffer) returns (ok: bool)
      modifies this, buf
      ensures Reads(AnimationCompletedLayout(), old(buf.data), ok, Val(), buf.data)
    {
      ok, animationName := buf.ReadString(1, true);
    }

    method Pack(buf: Buffer) returns (ok: bool)
      modifies buf
      ensures Writes(AnimationCompletedLayout(), Val(), old(buf.data), ok, buf.data)
    {
      ok := buf.WriteString(1, true, animationName);
    }

    method Size() returns (result: u32)
      ensures Sized(AnimationCompletedLayout(), Val(), result)
    {
      result := 1;
      result := AddU32(result, |animationName|, 1);
    }
  }

  class ActionCompletedUnion {
    var tag: Option<byte>
    var value: AnimationCompleted?

    constructor ()
      ensures Valid() && Val() == Unset && value == null
    {
      tag, value := None, null;
    }

    ghost predicate Valid()
      reads this
    {
      tag.Some? && tag.value != TAG_INVALID ==> tag.value == 1 && value != null
    }

    ghost function Val(): Value
      requires Valid()
      reads this, value
    {
      if tag.None? || tag.value == TAG_INVALID then Unset else Tagged(tag.value, value.Val())
    }

    /** After an error the union is empty, unless there was not even a tag to read. */
    method Unpack(buf: Buffer) returns (ok: bool)
      requires Valid()
      modifies this, buf
      ensures Valid() && Reads(Union(ActionCompletedUnionCases()), old(buf.data), ok, Val(), buf.data)
      ensures !ok ==> if old(buf.data) == [] then unchanged(this) else Val() == Unset
      ensures value == null || value == old(value) || fresh(value)
    {
      ghost var before := buf.data;
      var bytes := buf.Next(1);
      if bytes == [] {
        return false;
      }
      tag := Some(bytes[0]);
      if tag.value == TAG_INVALID {
        value := null;
        return true;
      }
      if tag.value == 1 {
        var ret := new AnimationCompleted();
        ok := ret.Unpack(buf);
        if ok {
          value := ret;
        } else {
          tag := Some(TAG_INVALID);
        }
      } else {
        tag := Some(TAG_INVALID);
        ok := false;
      }
    }

    method Pack(buf: Buffer) returns (ok: bool)
      requires Valid()
      modifies buf
      ensures Writes(Union(ActionCompletedUnionCases()), Val(), old(buf.data), ok, buf.data)
    {
      var t := if tag.Some? then tag.value else TAG_INVALID;
      buf.data := buf.data + [t];
      if t == TAG_INVALID {
        return true;
      }
      ok := value.Pack(buf);
    }

    method Size() returns (result: u32)
      requires Valid()
      ensures Sized(Union(ActionCompletedUnionCases()), Val(), result)
    {
      if tag.None? || tag.value == TAG_INVALID {
        return 1;
      }
      var n := value.Size();
      result := AddSize(1, n, SizeOf(AnimationCompletedLayout(), value.Val()), 1);
    }
  }

  class RobotCompletedAction {
    var idTag: nat
    var actionType: nat
    var actionResult: nat
    var subActionResults: seq<nat>
    const completionInfo: ActionCompletedUnion

    constructor ()
      ensures Valid() && fresh(completionInfo)
    {
      idTag, actionType, actionResult, subActionResults := 0, 0, 0, [];
      completionInfo := new ActionCompletedUnion();
    }

    ghost predicate Valid()
      reads this, completionInfo
    {
      && idTag < Pow256(4) && actionType < Pow256(4) && actionResult < Pow256(4)
      && AllBelow(subActionResults, Pow256(4))
      && completionInfo.Valid()
    }

    ghost function Val(): Value
      requires Valid()
      reads this, completionInfo, completionInfo.value
    {
      ActionValue(idTag, actionType, actionResult, Nums(subActionResults), completionInfo.Val())
    }

    method UnpackNumbers(buf: Buffer) returns (ok: bool)
      requires Valid()
      modifies this, buf
      ensures Valid() && completionInfo.Val() == old(completionInfo.Val())
      ensures NumbersRead(old(buf.data), ok, idTag, actionType, actionResult, buf.data)
    {
      var n;
      ok, n := buf.ReadUint(4);
      if !ok { return; }
      idTag := n;
      ok, n := buf.ReadUint(4);
      if !ok { return; }
      actionType := n;
      ok, n := buf.ReadUint(4);
      if !ok { return; }
      actionResult := n;
    }

    method Unpack(buf: Buffer) returns (ok: bool)
      requires Valid()
      modifies this, completionInfo, buf
      ensures Valid() && Reads(RobotCompletedActionLayout(), old(buf.data), ok, Val(), buf.data)
    {
      hide Decode, DecodeAll, Pow256;
      ok := UnpackNumbers(buf);
      if !ok { return; }
      ghost var before := buf.data;
      var n;
      ok, n := buf.ReadUint(1);
      ListRead(List(1, UInt(4)), before, ok, n, buf.data);
      FieldRead(ActionTail(), before);
      if !ok { return; }
      ok, subActionResults := ReadUints(buf, 4, n);
      if !ok { return; }
      FieldRead(ActionTail().tail, buf.data);
      ok := completionInfo.Unpack(buf);
    }

    method PackNumbers(buf: Buffer)
      requires Valid()
      modifies buf
      ensures buf.data == old(buf.data) + LittleEndian(4, idTag) + LittleEndian(4, actionType) +
              LittleEndian(4, actionResult)
    {
      buf.WriteUint(4, idTag);
      buf.WriteUint(4, actionType);
      buf.WriteUint(4, actionResult);
    }

    method PackResults(buf: Buffer) returns (ok: bool)
      requires Valid()
      modifies buf
      ensures Writes(List(1, UInt(4)), Items(Nums(subActionResults)), old(buf.data), ok, buf.data)
    {
      hide Encode, EncodeAll, Pow256;
      SizeOfNums(4, subActionResults);
      ListWritten(1, UInt(4), Nums(subActionResults));
      SmallPowers();
      if |subActionResults| > 255 {
        return false;
      }
      buf.WriteUint(1, |subActionResults|);
      WriteUints(buf, 4, subActionResults);
      ok := true;
    }

    method Pack(buf: Buffer) returns (ok: bool)
      requires Valid()
      modifies buf
      ensures Writes(RobotCompletedActionLayout(), Val(), old(buf.data), ok, buf.data)
    {
      hide Encode, EncodeAll, Pow256, LittleEndian;
      ghost var subs, info := Nums(subActionResults), completionInfo.Val();
      PackNumbers(buf);
      ok := PackResults(buf);
      ActionShaped(idTag, actionType, actionResult, subs, info);
      if !ok { return; }
      ok := completionInfo.Pack(buf);
      if ok {
        Chain5(old(buf.data), LittleEndian(4, idTag), LittleEndian(4, actionType), LittleEndian(4, actionResult),
               Encode(List(1, UInt(4)), Items(subs)).value, Encode(Union(ActionCompletedUnionCases()), info).value);
      }
    }

    method Size() returns (result: u32)
      requires Valid()
      ensures Sized(RobotCompletedActionLayout(), Val(), result)
    {
      hide SizeOf, SizeOfAll, Encode, Pow256;
      ghost var info := completionInfo.Val();
      SizeOfNums(4, subActionResults);
      result := 12;
      result := AddU32(result, 1, 12);
      result := AddU32(result, |subActionResults| * 4, 13);
      var n := completionInfo.Size();
      ActionShaped(idTag, actionType, actionResult, Nums(subActionResults), info);
      result := AddSize(result, n, SizeOf(Union(ActionCompletedUnionCases()), info), 13 + |subActionResults| * 4);
    }
  }

  lemma Chain5(z: seq<byte>, a: seq<byte>, b: seq<byte>, c: seq<byte>, d: seq<byte>, e: seq<byte>)
    ensures z + a + b + c + d + e == z + (a + (b + (c + (d + e))))
  {
  }

  /** What Pack and Size come to for a completed action. */
  lemma ActionShaped(a: nat, b: nat, c: nat, subs: seq<Value>, info: Value)
    requires a < Pow256(4) && b < Pow256(4) && c < Pow256(4)
    requires forall i :: 0 <= i < |subs| ==> Shape(UInt(4), subs[i])
    requires Shape(Union(ActionCompletedUnionCases()), info)
    ensures var s, v, l, u := RobotCompletedActionLayout(), ActionValue(a, b, c, subs, info),
                              List(1, UInt(4)), Union(ActionCompletedUnionCases());
            && Shape(s, v)
            && SizeOf(s, v) == 13 + SizeOfAll(UInt(4), subs) + SizeOf(u, info)
            && Encode(s, v) == Join(Some(LittleEndian(4, a)), Join(Some(LittleEndian(4, b)),
                                 Join(Some(LittleEndian(4, c)), Join(Encode(l, Items(subs)), Encode(u, info)))))
  {
    hide Pow256, LittleEndian;
    var s, v := RobotCompletedActionLayout(), ActionValue(a, b, c, subs, info);
    LastField(s.tail.tail.tail.tail, v.rest.rest.rest.rest);
    FieldWritten(s.tail.tail.tail, v.rest.rest.rest);
    FieldWritten(s.tail.tail, v.rest.rest);
    FieldWritten(s.tail, v.rest);
    FieldWritten(s, v);
  }

  /** The last two fields of a completed action. */
  function ActionTail(): Schema {
    Field(List(1, UInt(4)), Field(Union(ActionCompletedUnionCases()), Unit))
  }

  function ActionValue(idTag: nat, actionType: nat, actionResult: nat, subs: seq<Value>, info: Value): Value {
    Pair(Num(idTag), Pair(Num(actionType), Pair(Num(actionResult), Pair(Items(subs), Pair(info, Empty)))))
  }

  /** The first three fields of a completed action have been read. */
  predicate NumbersRead(before: seq<byte>, ok: bool, a: nat, b: nat, c: nat, after: seq<byte>) {
    Decode(RobotCompletedActionLayout(), before) ==
      if ok then Prepend(Num(a), Prepend(Num(b), Prepend(Num(c), Decode(ActionTail(), after)))) else Fail
  }
}
