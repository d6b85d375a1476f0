/** Two more shapes of generated code: a structure in a structure, and a fixed array. */
module CladRecords {
  import opened Wire
  import opened Clad
  import opened CladMessages

  // ---------------------------------------------------------------------------------
  // A structure in a structure

  function WriteRequestLayout(): Schema {
    Field(Str(2, true), Field(Str(2, true), Field(Str(2, true), Field(DocLayout(), Unit))))
  }

  function WriteRequestValue(account: seq<byte>, thing: seq<byte>, docName: seq<byte>, doc: Value): Value {
    Pair(Text(account), Pair(Text(thing), Pair(Text(docName), Pair(doc, Empty))))
  }

  class WriteRequest {
    var account: seq<byte>
    var thing: seq<byte>
    var docName: seq<byte>
    const doc: Doc

    constructor ()
      ensures Valid() && fresh(doc)
    {
      account, thing, docName := [], [], [];
      doc := new Doc();
    }

    ghost predicate Valid()
      reads this, doc
    {
      doc.Valid()
    }

    ghost function Val(): Value
      reads this, doc
    {
      WriteRequestValue(account, thing, docName, doc.Val())
    }

    method Unpack(buf: Buffer) returns (ok: bool)
      requires Valid()
      modifies this, doc, buf
      ensures Valid() && Reads(WriteRequestLayout(), old(buf.data), ok, Val(), buf.data)
    {
      hide Decode, Pow256, DocLayout, Doc.Valid, Doc.Val;
      ghost var s := WriteRequestLayout();
      FieldRead(s, buf.data);
      ok, account := buf.ReadString(2, true);
      if !ok { return; }
      FieldRead(s.tail, buf.data);
      ok, thing := buf.ReadString(2, true);
      if !ok { return; }
      FieldRead(s.tail.tail, buf.data);
      ok, docName := buf.ReadString(2, true);
      if !ok { return; }
      FieldRead(s.tail.tail.tail, buf.data);
      ok := doc.Unpack(buf);
    }

    method Pack(buf: Buffer) returns (ok: bool)
      requires Valid()
      modifies buf
      ensures Writes(WriteRequestLayout(), Val(), old(buf.data), ok, buf.data)
    {
      hide Encode, Shape, SizeOf, Pow256, DocLayout, Doc.Valid, Doc.Val, WriteRequestLayout, WriteRequestValue;
      ghost var v := doc.Val();
      DocIsShaped(doc);
      WriteRequestShaped(account, thing, docName, v);
      ok := buf.WriteString(2, true, account);
      if !ok { return; }
      ok := buf.WriteString(2, true, thing);
      if !ok { return; }
      ok := buf.WriteString(2, true, docName);
      if !ok { return; }
      ok := doc.Pack(buf);
      if ok {
        Chain4(old(buf.data), Encode(Str(2, true), Text(account)).value, Encode(Str(2, true), Text(thing)).value,
               Encode(Str(2, true), Text(docName)).value, Encode(DocLayout(), v).value);
      }
    }

    method Size() returns (result: u32)
      requires Valid()
      ensures Sized(WriteRequestLayout(), Val(), result)
    {
      hide Encode, Shape, SizeOf, Pow256, Wraps, AddU32, DocLayout, Doc.Valid, Doc.Val, WriteRequestLayout,
          WriteRequestValue;
      ghost var v := doc.Val();
      DocIsShaped(doc);
      WriteRequestShaped(account, thing, docName, v);
      result := SizeOfStrings();
      var n := doc.Size();
      result := AddSize(result, n, SizeOf(DocLayout(), v), 6 + |account| + |thing| + |docName|);
    }

    /** The lengths of the strings and of their prefixes. */
    method SizeOfStrings() returns (result: u32)
      ensures Wraps(result, 6 + |account| + |thing| + |docName|)
    {
      result := 2;
      result := AddU32(result, |account|, 2);
      result := AddU32(result, 2, 2 + |account|);
      result := AddU32(result, |thing|, 4 + |account|);
      result := AddU32(result, 2, 4 + |account| + |thing|);
      result := AddU32(result, |docName|, 6 + |account| + |thing|);
    }
  }

  lemma DocIsShaped(doc: Doc)
    requires doc.Valid()
    ensures Shape(DocLayout(), doc.Val())
  {
    DocShaped(doc.docVersion, doc.fmtVersion, doc.metadata, doc.jsonDoc);
  }

  /** What Pack and Size come to for a write request. */
  lemma WriteRequestShaped(account: seq<byte>, thing: seq<byte>, docName: seq<byte>, doc: Value)
    requires Shape(DocLayout(), doc)
    ensures var s, v := WriteRequestLayout(), WriteRequestValue(account, thing, docName, doc);
            && Shape(s, v)
            && SizeOf(s, v) == 6 + |account| + |thing| + |docName| + SizeOf(DocLayout(), doc)
            && Encode(s, v) == Join(Encode(Str(2, true), Text(account)), Join(Encode(Str(2, true), Text(thing)),
                                 Join(Encode(Str(2, true), Text(docName)), Encode(DocLayout(), doc))))
  {
    hide Encode, DocLayout;
    var s, v := WriteRequestLayout(), WriteRequestValue(account, thing, docName, doc);
    LastField(s.tail.tail.tail, v.rest.rest.rest);
    FieldWritten(s.tail.tail, v.rest.rest);
    FieldWritten(s.tail, v.rest);
    FieldWritten(s, v);
  }

  // ---------------------------------------------------------------------------------
  // A fixed array

  const FACE_DATA_LENGTH := 600

  function FaceChunkLayout(): Schema {
    Field(Array(FACE_DATA_LENGTH, UInt(2)), FaceChunkTail())
  }

  /** All but the array. */
  function FaceChunkTail(): Schema {
    Field(UInt(2), Field(UInt(1), Field(UInt(1), Field(UInt(4), Field(Bool, Unit)))))
  }

  function FaceChunkRest(numPixels: nat, chunkIndex: nat, numChunks: nat, durationMs: nat,
                         interruptRunning: bool): Value {
    Pair(Num(numPixels),
         Pair(Num(chunkIndex), Pair(Num(numChunks), Pair(Num(durationMs), Pair(Flag(interruptRunning), Empty)))))
  }

  class DisplayFaceImageRGBChunk {
    const faceData: array<nat>
    var numPixels: nat
    var chunkIndex: nat
    var numChunks: nat
    var durationMs: nat
    var interruptRunning: bool

    constructor ()
      ensures Valid() && fresh(faceData)
    {
      faceData := new nat[FACE_DATA_LENGTH](_ => 0);
      numPixels, chunkIndex, numChunks, durationMs, interruptRunning := 0, 0, 0, 0, false;
    }

    ghost predicate Valid()
      reads this, faceData
    {
      && faceData.Length == FACE_DATA_LENGTH && AllBelow(faceData[..], Pow256(2))
      && numPixels < Pow256(2) && chunkIndex < Pow256(1) && numChunks < Pow256(1) && durationMs < Pow256(4)
    }

    ghost function Rest(): Value
      reads this
    {
      FaceChunkRest(numPixels, chunkIndex, numChunks, durationMs, interruptRunning)
    }

    ghost function Val(): Value
      reads this, faceData
    {
      Pair(Items(Nums(faceData[..])), Rest())
    }

    /** The fields behind the array. */
    method UnpackRest(buf: Buffer) returns (ok: bool)
      requires Valid()
      modifies this, buf
      ensures Valid() && Reads(FaceChunkTail(), old(buf.data), ok, Rest(), buf.data)
    {
      hide Decode, Pow256;
      ghost var s := FaceChunkTail();
      FieldRead(s, buf.data);
      var n;
      ok, n := buf.ReadUint(2);
      if !ok { return; }
      numPixels := n;
      FieldRead(s.tail, buf.data);
      ok, n := buf.ReadUint(1);
      if !ok { return; }
      chunkIndex := n;
      FieldRead(s.tail.tail, buf.data);
      ok, n := buf.ReadUint(1);
      if !ok { return; }
      numChunks := n;
      FieldRead(s.tail.tail.tail, buf.data);
      ok, n := buf.ReadUint(4);
      if !ok { return; }
      durationMs := n;
      FieldRead(s.tail.tail.tail.tail, buf.data);
      ok, interruptRunning := buf.ReadBool();
    }

    method Unpack(buf: Buffer) returns (ok: bool)
      requires Valid()
      modifies this, faceData, buf
      ensures Valid() && Reads(FaceChunkLayout(), old(buf.data), ok, Val(), buf.data)
    {
      hide Decode, DecodeAll, Pow256, FaceChunkTail, FaceChunkRest;
      ArrayRead(FACE_DATA_LENGTH, UInt(2), buf.data);
      FieldRead(FaceChunkLayout(), buf.data);
      var ns;
      ok, ns := ReadUints(buf, 2, FACE_DATA_LENGTH);
      if !ok { return; }
      assert |ns| == FACE_DATA_LENGTH;
      forall i | 0 <= i < FACE_DATA_LENGTH {
        faceData[i] := ns[i];
      }
      assert faceData[..] == ns;
      ok := UnpackRest(buf);
      TailIsNotUnit();
    }

    method PackRest(buf: Buffer)
      requires Valid()
      modifies buf
      ensures Writes(FaceChunkTail(), Rest(), old(buf.data), true, buf.data)
    {
      hide Encode, SizeOf, Pow256, LittleEndian;
      RestShaped(numPixels, chunkIndex, numChunks, durationMs, interruptRunning);
      buf.WriteUint(2, numPixels);
      buf.WriteUint(1, chunkIndex);
      buf.WriteUint(1, numChunks);
      buf.WriteUint(4, durationMs);
      buf.WriteBool(interruptRunning);
      Chain5(old(buf.data), Encode(UInt(2), Num(numPixels)).value, Encode(UInt(1), Num(chunkIndex)).value,
             Encode(UInt(1), Num(numChunks)).value, Encode(UInt(4), Num(durationMs)).value,
             Encode(Bool, Flag(interruptRunning)).value);
    }

    method Pack(buf: Buffer) returns (ok: bool)
      requires Valid()
      modifies buf
      ensures ok && Writes(FaceChunkLayout(), Val(), old(buf.data), ok, buf.data)
    {
      hide Encode, EncodeAll, SizeOf, Shape, Pow256, FaceChunkTail, FaceChunkRest;
      ghost var z := buf.data;
      WriteUints(buf, 2, faceData[..]);
      ghost var a := buf.data;
      PackRest(buf);
      ArrayShaped(faceData[..], Rest());
      Chain2(z, EncodeAll(UInt(2), Nums(faceData[..])).value, Encode(FaceChunkTail(), Rest()).value);
      ok := true;
    }

    method Size() returns (result: u32)
      requires Valid()
      ensures Sized(FaceChunkLayout(), Val(), result)
    {
      hide Encode, Shape, SizeOf, Pow256, FaceChunkTail, FaceChunkRest;
      result := FACE_DATA_LENGTH * 2;
      result := AddU32(result, 2, 1200);
      result := AddU32(result, 1, 1202);
      result := AddU32(result, 1, 1203);
      result := AddU32(result, 4, 1204);
      result := AddU32(result, 1, 1208);
      RestShaped(numPixels, chunkIndex, numChunks, durationMs, interruptRunning);
      ArrayShaped(faceData[..], Rest());
    }
  }

  lemma Chain2(z: seq<byte>, a: seq<byte>, b: seq<byte>)
    ensures z + a + b == z + (a + b)
  {
  }

  lemma TailIsNotUnit()
    ensures FaceChunkTail().Field?
  {
  }

  lemma ArrayRead(n: nat, e: Schema, bs: seq<byte>)
    ensures Decode(Array(n, e), bs) == DecodeAll(e, n, bs)
  {
  }

  /** What Pack and Size come to for the fields behind the array. */
  lemma RestShaped(a: nat, b: nat, c: nat, d: nat, e: bool)
    requires a < Pow256(2) && b < Pow256(1) && c < Pow256(1) && d < Pow256(4)
    ensures var s, v := FaceChunkTail(), FaceChunkRest(a, b, c, d, e);
            && Shape(s, v) && SizeOf(s, v) == 9
            && Encode(UInt(2), Num(a)).Some? && Encode(UInt(1), Num(b)).Some? && Encode(UInt(1), Num(c)).Some?
            && Encode(UInt(4), Num(d)).Some? && Encode(Bool, Flag(e)).Some?
            && Encode(s, v) == Join(Encode(UInt(2), Num(a)), Join(Encode(UInt(1), Num(b)),
                 Join(Encode(UInt(1), Num(c)), Join(Encode(UInt(4), Num(d)), Encode(Bool, Flag(e))))))
  {
    hide Pow256, LittleEndian;
    var s, v := FaceChunkTail(), FaceChunkRest(a, b, c, d, e);
    LastField(s.tail.tail.tail.tail, v.rest.rest.rest.rest);
    FieldWritten(s.tail.tail.tail, v.rest.rest.rest);
    FieldWritten(s.tail.tail, v.rest.rest);
    FieldWritten(s.tail, v.rest);
    FieldWritten(s, v);
  }

  /** What they come to for the whole. */
  lemma ArrayShaped(ns: seq<nat>, rest: Value)
    requires |ns| == FACE_DATA_LENGTH && AllBelow(ns, Pow256(2)) && Shape(FaceChunkTail(), rest)
    ensures var s, v := FaceChunkLayout(), Pair(Items(Nums(ns)), rest);
            && (forall i :: 0 <= i < |ns| ==> Shape(UInt(2), Nums(ns)[i]))
            && Shape(s, v)
            && SizeOf(s, v) == 1200 + SizeOf(FaceChunkTail(), rest)
            && Encode(s, v) == Join(EncodeAll(UInt(2), Nums(ns)), Encode(FaceChunkTail(), rest))
  {
    hide Pow256, FaceChunkTail;
    SizeOfNums(2, ns);
    FieldWritten(FaceChunkLayout(), Pair(Items(Nums(ns)), rest));
  }
}
