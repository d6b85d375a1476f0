/** The wire format of generated message code: what Size, Pack and Unpack do for every
    message layout the generator can express, and the laws all of them obey. */
module Clad {
  import opened Wire

  /** The layout of a message.  A structure is a chain of `Field`s ended by `Unit`; a union is
      a chain of `Case`s ended by `NoCase`, behind a tag byte.  The length prefix of a string
      is checked before it is written, except where it has four bytes. */
  datatype Schema =
    | UInt(width: nat)
    | Bool
    | Str(lenWidth: nat, checked: bool)
    | List(countWidth: nat, elem: Schema)
    | Array(size: nat, item: Schema)
    | Unit
    | Field(head: Schema, tail: Schema)
    | Union(cases: Cases)

  datatype Cases = NoCase | Case(tag: byte, body: Schema, others: Cases)

  /** Signed integers and floats travel as their unsigned bit patterns. */
  datatype Value =
    | Num(n: nat)
    | Flag(b: bool)
    | Text(s: seq<byte>)
    | Items(vs: seq<Value>)
    | Empty
    | Pair(first: Value, rest: Value)
    | Tagged(t: byte, v: Value)
    | Unset

  /** The tag of a union that holds nothing. */
  const TAG_INVALID: byte := 255

  datatype Parsed = Fail | Done(v: Value, left: seq<byte>)

  /** The value is one of the message type: fields of the right kind and range. */
  predicate Shape(s: Schema, v: Value)
    decreases s
  {
    match s
    case UInt(w) => v.Num? && v.n < Pow256(w)
    case Bool => v.Flag?
    case Str(_, _) => v.Text?
    case List(_, e) => v.Items? && forall i :: 0 <= i < |v.vs| ==> Shape(e, v.vs[i])
    case Array(n, e) => v.Items? && |v.vs| == n && forall i :: 0 <= i < |v.vs| ==> Shape(e, v.vs[i])
    case Unit => v.Empty?
    case Field(h, t) => v.Pair? && Shape(h, v.first) && Shape(t, v.rest)
    case Union(cs) => v.Unset? || (v.Tagged? && v.t != TAG_INVALID && CaseShape(cs, v.t, v.v))
  }

  predicate CaseShape(cs: Cases, tag: byte, v: Value)
    decreases cs
  {
    cs.Case? && if cs.tag == tag then Shape(cs.body, v) else CaseShape(cs.others, tag, v)
  }

  /** Every string and list is short enough for its length prefix. */
  predicate Within(s: Schema, v: Value)
    requires Shape(s, v)
    decreases s
  {
    match s
    case Str(w, _) => |v.s| < Pow256(w)
    case List(w, e) => |v.vs| < Pow256(w) && forall i :: 0 <= i < |v.vs| ==> Within(e, v.vs[i])
    case Array(_, e) => forall i :: 0 <= i < |v.vs| ==> Within(e, v.vs[i])
    case Field(h, t) => Within(h, v.first) && Within(t, v.rest)
    case Union(cs) => v.Unset? || CaseWithin(cs, v.t, v.v)
    case _ => true
  }

  predicate CaseWithin(cs: Cases, tag: byte, v: Value)
    requires CaseShape(cs, tag, v)
    decreases cs
  {
    if cs.tag == tag then Within(cs.body, v) else CaseWithin(cs.others, tag, v)
  }

  function Join(a: Option<seq<byte>>, b: Option<seq<byte>>): Option<seq<byte>> {
    if a.Some? && b.Some? then Some(a.value + b.value) else None
  }

  /** Pack: the bytes written, or None if a length check fails. */
  function Encode(s: Schema, v: Value): Option<seq<byte>>
    requires Shape(s, v)
    decreases s, 0
  {
    match s
    case UInt(w) => Some(LittleEndian(w, v.n))
    case Bool => Some([if v.b then 1 else 0])
    case Str(w, checked) =>
      if checked && |v.s| >= Pow256(w) then None
      else Some(LittleEndian(w, |v.s|) + v.s)   // only the low bytes of an unchecked length
    case List(w, e) =>
      if |v.vs| >= Pow256(w) then None else Join(Some(LittleEndian(w, |v.vs|)), EncodeAll(e, v.vs))
    case Array(_, e) => EncodeAll(e, v.vs)
    case Unit => Some([])
    case Field(h, t) => Join(Encode(h, v.first), Encode(t, v.rest))
    case Union(cs) => if v.Unset? then Some([TAG_INVALID]) else Join(Some([v.t]), EncodeCase(cs, v.t, v.v))
  }

  function EncodeCase(cs: Cases, tag: byte, v: Value): Option<seq<byte>>
    requires CaseShape(cs, tag, v)
    decreases cs, 0
  {
    if cs.tag == tag then Encode(cs.body, v) else EncodeCase(cs.others, tag, v)
  }

  function EncodeAll(e: Schema, vs: seq<Value>): Option<seq<byte>>
    requires forall i :: 0 <= i < |vs| ==> Shape(e, vs[i])
    decreases e, |vs| + 1
  {
    if vs == [] then Some([]) else Join(Encode(e, vs[0]), EncodeAll(e, vs[1..]))
  }

  /** Unpack: the value read and the bytes left in the buffer. */
  function Decode(s: Schema, bs: seq<byte>): Parsed
    decreases s, 0
  {
    match s
    case UInt(w) => if |bs| < w then Fail else Done(Num(FromLittleEndian(bs[..w])), bs[w..])
    case Bool => if bs == [] then Fail else Done(Flag(bs[0] != 0), bs[1..])
    case Str(w, _) =>
      if |bs| < w then Fail else
        var n := FromLittleEndian(bs[..w]);
        if |bs| - w < n then Fail else Done(Text(bs[w..w + n]), bs[w + n..])
    case List(w, e) =>
      if |bs| < w then Fail else DecodeAll(e, FromLittleEndian(bs[..w]), bs[w..])
    case Array(n, e) => DecodeAll(e, n, bs)
    case Unit => Done(Empty, bs)
    case Field(h, t) =>
      var p := Decode(h, bs);
      if p.Fail? then Fail else Prepend(p.v, Decode(t, p.left))
    case Union(cs) =>
      if bs == [] then Fail
      else if bs[0] == TAG_INVALID then Done(Unset, bs[1..])
      else
        var p := DecodeCase(cs, bs[0], bs[1..]);
        if p.Fail? then Fail else Done(Tagged(bs[0], p.v), p.left)
  }

  /** unpackStruct: the body of the case with the tag. */
  function DecodeCase(cs: Cases, tag: byte, bs: seq<byte>): Parsed
    decreases cs, 0
  {
    if cs.NoCase? then Fail
    else if cs.tag == tag then Decode(cs.body, bs)
    else DecodeCase(cs.others, tag, bs)
  }

  function Prepend(v: Value, p: Parsed): Parsed {
    if p.Fail? then Fail else Done(Pair(v, p.v), p.left)
  }

  function DecodeAll(e: Schema, n: nat, bs: seq<byte>): (p: Parsed)
    ensures p.Done? ==> p.v.Items? && |p.v.vs| == n
    decreases e, n + 1
  {
    if n == 0 then Done(Items([]), bs) else
      var p := Decode(e, bs);
      if p.Fail? then Fail else
        var q := DecodeAll(e, n - 1, p.left);
        if q.Fail? then Fail else Done(Items([p.v] + q.v.vs), q.left)
  }

  /** The number of bytes Size reports, before its uint32 sum wraps. */
  function SizeOf(s: Schema, v: Value): nat
    requires Shape(s, v)
    decreases s, 0
  {
    match s
    case UInt(w) => w
    case Bool => 1
    case Str(w, _) => w + |v.s|
    case List(w, e) => w + SizeOfAll(e, v.vs)
    case Array(_, e) => SizeOfAll(e, v.vs)
    case Unit => 0
    case Field(h, t) => SizeOf(h, v.first) + SizeOf(t, v.rest)
    case Union(cs) => if v.Unset? then 1 else 1 + SizeOfCase(cs, v.t, v.v)
  }

  function SizeOfCase(cs: Cases, tag: byte, v: Value): nat
    requires CaseShape(cs, tag, v)
    decreases cs, 0
  {
    if cs.tag == tag then SizeOf(cs.body, v) else SizeOfCase(cs.others, tag, v)
  }

  function SizeOfAll(e: Schema, vs: seq<Value>): nat
    requires forall i :: 0 <= i < |vs| ==> Shape(e, vs[i])
    decreases e, |vs| + 1
  {
    if vs == [] then 0 else SizeOf(e, vs[0]) + SizeOfAll(e, vs[1..])
  }

  // ---------------------------------------------------------------------------------
  // Size

  /** Pack writes exactly the number of bytes that Size announces. */
  lemma {:induction false} SizeIsLength(s: Schema, v: Value)
    requires Shape(s, v) && Encode(s, v).Some?
    ensures |Encode(s, v).value| == SizeOf(s, v)
    decreases s, 0
  {
    match s
    case List(_, e) => SizeIsLengthAll(e, v.vs);
    case Array(_, e) => SizeIsLengthAll(e, v.vs);
    case Field(h, t) => SizeIsLength(h, v.first); SizeIsLength(t, v.rest);
    case Union(cs) => if v.Tagged? { SizeIsLengthCase(cs, v.t, v.v); }
    case _ =>
  }

  lemma {:induction false} SizeIsLengthCase(cs: Cases, tag: byte, v: Value)
    requires CaseShape(cs, tag, v) && EncodeCase(cs, tag, v).Some?
    ensures |EncodeCase(cs, tag, v).value| == SizeOfCase(cs, tag, v)
    decreases cs, 0
  {
    if cs.tag == tag { SizeIsLength(cs.body, v); } else { SizeIsLengthCase(cs.others, tag, v); }
  }

  lemma {:induction false} SizeIsLengthAll(e: Schema, vs: seq<Value>)
    requires (forall i :: 0 <= i < |vs| ==> Shape(e, vs[i])) && EncodeAll(e, vs).Some?
    ensures |EncodeAll(e, vs).value| == SizeOfAll(e, vs)
    decreases e, |vs| + 1
  {
    if vs != [] {
      SizeIsLength(e, vs[0]);
      SizeIsLengthAll(e, vs[1..]);
    }
  }

  // ---------------------------------------------------------------------------------
  // Round trip

  /** A message of two parts, followed by anything. */
  lemma Parts(a: seq<byte>, b: seq<byte>, rest: seq<byte>)
    ensures a + b + rest == a + (b + rest)
    ensures (a + (b + rest))[..|a|] == a && (a + (b + rest))[|a|..] == b + rest
  {
  }

  lemma NumberRoundTrip(w: nat, n: nat, rest: seq<byte>)
    requires n < Pow256(w)
    ensures Decode(UInt(w), LittleEndian(w, n) + rest) == Done(Num(n), rest)
  {
    LittleEndianRoundTrip(w, n);
    Parts(LittleEndian(w, n), [], rest);
    assert [] + rest == rest;
  }

  lemma StringRoundTrip(w: nat, checked: bool, s: seq<byte>, rest: seq<byte>)
    requires |s| < Pow256(w)
    ensures Decode(Str(w, checked), LittleEndian(w, |s|) + s + rest) == Done(Text(s), rest)
  {
    LittleEndianRoundTrip(w, |s|);
    var bs := LittleEndian(w, |s|) + s + rest;
    assert bs[..w] == LittleEndian(w, |s|) && bs[w..w + |s|] == s && bs[w + |s|..] == rest;
  }

  lemma ListRoundTrip(w: nat, e: Schema, vs: seq<Value>, items: seq<byte>, rest: seq<byte>)
    requires |vs| < Pow256(w) && DecodeAll(e, |vs|, items + rest) == Done(Items(vs), rest)
    ensures Decode(List(w, e), LittleEndian(w, |vs|) + items + rest) == Done(Items(vs), rest)
  {
    LittleEndianRoundTrip(w, |vs|);
    Parts(LittleEndian(w, |vs|), items, rest);
  }

  lemma FieldRoundTrip(h: Schema, t: Schema, v: Value, a: seq<byte>, b: seq<byte>, rest: seq<byte>)
    requires v.Pair?
    requires Decode(t, b + rest) == Done(v.rest, rest)
    requires Decode(h, a + (b + rest)) == Done(v.first, b + rest)
    ensures Decode(Field(h, t), a + b + rest) == Done(v, rest)
  {
    Parts(a, b, rest);
  }

  lemma UnionRoundTrip(cs: Cases, tag: byte, v: Value, b: seq<byte>, rest: seq<byte>)
    requires tag != TAG_INVALID && DecodeCase(cs, tag, b + rest) == Done(v, rest)
    ensures Decode(Union(cs), [tag] + b + rest) == Done(Tagged(tag, v), rest)
  {
    Parts([tag], b, rest);
  }

  /** Unpacking what Pack wrote, followed by anything, gives the value back and leaves
      exactly what followed. */
  lemma {:induction false} RoundTrip(s: Schema, v: Value, rest: seq<byte>)
    requires Shape(s, v) && Within(s, v)
    ensures Encode(s, v).Some? && Decode(s, Encode(s, v).value + rest) == Done(v, rest)
    decreases s, 2
  {
    match s
    case List(_, _) => RoundTripList(s, v, rest);
    case Array(_, e) => RoundTripAll(e, v.vs, rest);
    case Field(_, _) => RoundTripField(s, v, rest);
    case Union(_) => RoundTripUnion(s, v, rest);
    case _ => RoundTripAtom(s, v, rest);
  }

  lemma RoundTripAtom(s: Schema, v: Value, rest: seq<byte>)
    requires (s.UInt? || s.Bool? || s.Str? || s.Unit?) && Shape(s, v) && Within(s, v)
    ensures Encode(s, v).Some? && Decode(s, Encode(s, v).value + rest) == Done(v, rest)
  {
    match s
    case UInt(w) => NumberRoundTrip(w, v.n, rest);
    case Str(w, checked) => StringRoundTrip(w, checked, v.s, rest);
    case Unit => assert [] + rest == rest;
    case Bool => Parts([if v.b then 1 else 0], [], rest); assert [] + rest == rest;
  }

  lemma {:induction false} RoundTripList(s: Schema, v: Value, rest: seq<byte>)
    requires s.List? && Shape(s, v) && Within(s, v)
    ensures Encode(s, v).Some? && Decode(s, Encode(s, v).value + rest) == Done(v, rest)
    decreases s, 1
  {
    RoundTripAll(s.elem, v.vs, rest);
    ListRoundTrip(s.countWidth, s.elem, v.vs, EncodeAll(s.elem, v.vs).value, rest);
  }

  lemma {:induction false} RoundTripField(s: Schema, v: Value, rest: seq<byte>)
    requires s.Field? && Shape(s, v) && Within(s, v)
    ensures Encode(s, v).Some? && Decode(s, Encode(s, v).value + rest) == Done(v, rest)
    decreases s, 1
  {
    RoundTrip(s.tail, v.rest, rest);
    var b := Encode(s.tail, v.rest).value;
    RoundTrip(s.head, v.first, b + rest);
    FieldRoundTrip(s.head, s.tail, v, Encode(s.head, v.first).value, b, rest);
  }

  lemma {:induction false} RoundTripUnion(s: Schema, v: Value, rest: seq<byte>)
    requires s.Union? && Shape(s, v) && Within(s, v)
    ensures Encode(s, v).Some? && Decode(s, Encode(s, v).value + rest) == Done(v, rest)
    decreases s, 1
  {
    if v.Tagged? {
      RoundTripCase(s.cases, v.t, v.v, rest);
      UnionRoundTrip(s.cases, v.t, v.v, EncodeCase(s.cases, v.t, v.v).value, rest);
    } else {
      assert ([TAG_INVALID] + rest)[1..] == rest;
    }
  }

  lemma {:induction false} RoundTripCase(cs: Cases, tag: byte, v: Value, rest: seq<byte>)
    requires CaseShape(cs, tag, v) && CaseWithin(cs, tag, v)
    ensures EncodeCase(cs, tag, v).Some? && DecodeCase(cs, tag, EncodeCase(cs, tag, v).value + rest) == Done(v, rest)
    decreases cs, 2
  {
    if cs.tag == tag { RoundTrip(cs.body, v, rest); } else { RoundTripCase(cs.others, tag, v, rest); }
  }

  lemma ItemRoundTrip(e: Schema, vs: seq<Value>, a: seq<byte>, b: seq<byte>, rest: seq<byte>)
    requires vs != []
    requires Decode(e, a + (b + rest)) == Done(vs[0], b + rest)
    requires DecodeAll(e, |vs| - 1, b + rest) == Done(Items(vs[1..]), rest)
    ensures DecodeAll(e, |vs|, a + b + rest) == Done(Items(vs), rest)
  {
    Parts(a, b, rest);
    assert vs == [vs[0]] + vs[1..];
  }

  lemma {:induction false} RoundTripAll(e: Schema, vs: seq<Value>, rest: seq<byte>)
    requires forall i :: 0 <= i < |vs| ==> Shape(e, vs[i]) && Within(e, vs[i])
    ensures EncodeAll(e, vs).Some? && DecodeAll(e, |vs|, EncodeAll(e, vs).value + rest) == Done(Items(vs), rest)
    decreases e, |vs| + 3
  {
    if vs == [] {
      assert [] + rest == rest;
    } else {
      RoundTripAll(e, vs[1..], rest);
      var b := EncodeAll(e, vs[1..]).value;
      RoundTrip(e, vs[0], b + rest);
      ItemRoundTrip(e, vs, Encode(e, vs[0]).value, b, rest);
    }
  }

  // ---------------------------------------------------------------------------------
  // Prefixes

  lemma MoreBytes(bs: seq<byte>, more: seq<byte>, n: nat)
    requires n <= |bs|
    ensures (bs + more)[..n] == bs[..n] && (bs + more)[n..] == bs[n..] + more
  {
  }

  lemma MoreInputAtom(s: Schema, bs: seq<byte>, more: seq<byte>)
    requires (s.UInt? || s.Bool? || s.Str? || s.Unit?) && Decode(s, bs).Done?
    ensures Decode(s, bs + more) == Decode(s, bs).(left := Decode(s, bs).left + more)
  {
    if s.UInt? {
      MoreBytes(bs, more, s.width);
    } else if s.Str? {
      var w := s.lenWidth;
      MoreBytes(bs, more, w);
      var n := FromLittleEndian(bs[..w]);
      MoreBytes(bs, more, w + n);
      assert (bs + more)[w..w + n] == bs[w..w + n];
    }
  }

  /** More input does not change what Unpack reads from the front of the buffer. */
  lemma {:induction false} MoreInput(s: Schema, bs: seq<byte>, more: seq<byte>)
    requires Decode(s, bs).Done?
    ensures Decode(s, bs + more) == Decode(s, bs).(left := Decode(s, bs).left + more)
    decreases s, 0
  {
    match s
    case List(w, e) =>
      MoreBytes(bs, more, w);
      MoreInputAll(e, FromLittleEndian(bs[..w]), bs[w..], more);
    case Array(n, e) => MoreInputAll(e, n, bs, more);
    case Field(h, t) =>
      MoreInput(h, bs, more);
      MoreInput(t, Decode(h, bs).left, more);
    case Union(cs) =>
      MoreBytes(bs, more, 1);
      if bs[0] != TAG_INVALID { MoreInputCase(cs, bs[0], bs[1..], more); }
    case _ => MoreInputAtom(s, bs, more);
  }

  lemma {:induction false} MoreInputCase(cs: Cases, tag: byte, bs: seq<byte>, more: seq<byte>)
    requires DecodeCase(cs, tag, bs).Done?
    ensures DecodeCase(cs, tag, bs + more) == DecodeCase(cs, tag, bs).(left := DecodeCase(cs, tag, bs).left + more)
    decreases cs, 0
  {
    if cs.tag == tag { MoreInput(cs.body, bs, more); } else { MoreInputCase(cs.others, tag, bs, more); }
  }

  lemma {:induction false} MoreInputAll(e: Schema, n: nat, bs: seq<byte>, more: seq<byte>)
    requires DecodeAll(e, n, bs).Done?
    ensures DecodeAll(e, n, bs + more) == DecodeAll(e, n, bs).(left := DecodeAll(e, n, bs).left + more)
    decreases e, n + 1
  {
    if n > 0 {
      MoreInput(e, bs, more);
      MoreInputAll(e, n - 1, Decode(e, bs).left, more);
    }
  }

  /** Every proper prefix of a packed message is rejected, wherever it is cut. */
  lemma PrefixRejected(s: Schema, v: Value, cut: nat)
    requires Shape(s, v) && Within(s, v) && Encode(s, v).Some? && cut < |Encode(s, v).value|
    ensures Decode(s, Encode(s, v).value[..cut]) == Fail
  {
    hide Shape, Within, Encode, Decode;
    var bs := Encode(s, v).value;
    if Decode(s, bs[..cut]).Done? {
      MoreInput(s, bs[..cut], bs[cut..]);
      assert bs[..cut] + bs[cut..] == bs == bs + [];
      RoundTrip(s, v, []);
    }
  }

  // ---------------------------------------------------------------------------------
  // What Unpack accepts

  /** Every flag byte that Unpack reads is 0 or 1. */
  predicate PlainFlags(s: Schema, bs: seq<byte>)
    requires Decode(s, bs).Done?
    decreases s, 0
  {
    match s
    case Bool => bs[0] <= 1
    case List(w, e) => PlainFlagsAll(e, FromLittleEndian(bs[..w]), bs[w..])
    case Array(n, e) => PlainFlagsAll(e, n, bs)
    case Field(h, t) => PlainFlags(h, bs) && PlainFlags(t, Decode(h, bs).left)
    case Union(cs) => bs[0] == TAG_INVALID || PlainFlagsCase(cs, bs[0], bs[1..])
    case _ => true
  }

  predicate PlainFlagsCase(cs: Cases, tag: byte, bs: seq<byte>)
    requires DecodeCase(cs, tag, bs).Done?
    decreases cs, 0
  {
    if cs.tag == tag then PlainFlags(cs.body, bs) else PlainFlagsCase(cs.others, tag, bs)
  }

  predicate PlainFlagsAll(e: Schema, n: nat, bs: seq<byte>)
    requires DecodeAll(e, n, bs).Done?
    decreases e, n + 1
  {
    n == 0 || (PlainFlags(e, bs) && PlainFlagsAll(e, n - 1, Decode(e, bs).left))
  }

  /** What was read from bs, leaving `left`, Pack would write in as many bytes, and in the
      very same ones exactly if the flags read were plain. */
  predicate Wrote(enc: Option<seq<byte>>, plain: bool, bs: seq<byte>, left: seq<byte>) {
    && enc.Some?
    && |enc.value| <= |bs| && left == bs[|enc.value|..]
    && (plain <==> bs[..|enc.value|] == enc.value)
  }

  lemma HeadIsNumber(head: seq<byte>, w: nat)
    requires |head| == w
    ensures FromLittleEndian(head) < Pow256(w) && LittleEndian(w, FromLittleEndian(head)) == head
  {
    FromLittleEndianRoundTrip(head);
  }

  lemma NumberSound(w: nat, bs: seq<byte>)
    requires w <= |bs|
    ensures FromLittleEndian(bs[..w]) < Pow256(w)
    ensures LittleEndian(w, FromLittleEndian(bs[..w])) + bs[w..] == bs
  {
    HeadIsNumber(bs[..w], w);
    assert bs[..w] + bs[w..] == bs;
  }

  lemma StringSound(w: nat, checked: bool, bs: seq<byte>)
    requires Decode(Str(w, checked), bs).Done?
    ensures var p := Decode(Str(w, checked), bs);
            |p.v.s| < Pow256(w) && bs == LittleEndian(w, |p.v.s|) + p.v.s + p.left
  {
    FromLittleEndianRoundTrip(bs[..w]);
    var n := FromLittleEndian(bs[..w]);
    assert bs == bs[..w] + bs[w..w + n] + bs[w + n..];
  }

  lemma SamePrefix(a: seq<byte>, b: seq<byte>, bs: seq<byte>)
    requires |a| + |b| <= |bs|
    ensures bs[..|a| + |b|] == a + b <==> bs[..|a|] == a && bs[|a|..][..|b|] == b
  {
    assert bs[..|a| + |b|] == bs[..|a|] + bs[|a|..][..|b|];
    if bs[..|a| + |b|] == a + b {
      assert (a + b)[..|a|] == a && (a + b)[|a|..] == b;
      assert bs[..|a| + |b|][..|a|] == bs[..|a|];
      assert bs[..|a| + |b|][|a|..] == bs[|a|..][..|b|];
    }
  }

  /** Two parts that were read one after the other. */
  lemma WroteBoth(a: Option<seq<byte>>, b: Option<seq<byte>>, pa: bool, pb: bool,
                  bs: seq<byte>, mid: seq<byte>, left: seq<byte>)
    requires Wrote(a, pa, bs, mid) && Wrote(b, pb, mid, left)
    ensures Wrote(Join(a, b), pa && pb, bs, left)
  {
    SamePrefix(a.value, b.value, bs);
    assert bs[|a.value|..][|b.value|..] == bs[|a.value| + |b.value|..];
  }

  /** The value was read from the front of bs as one Pack would write there. */
  predicate Sound(s: Schema, bs: seq<byte>)
    requires Decode(s, bs).Done?
  {
    var p := Decode(s, bs);
    Shape(s, p.v) && Within(s, p.v) && Wrote(Encode(s, p.v), PlainFlags(s, bs), bs, p.left)
  }

  /** Whatever Unpack accepts, it accepts as a value within its limits, and consumes as many
      bytes as Pack would write for it: those very bytes exactly if the flags are plain. */
  lemma {:induction false} DecodeSound(s: Schema, bs: seq<byte>)
    requires Decode(s, bs).Done?
    ensures Sound(s, bs)
    decreases s, 2
  {
    match s
    case List(_, _) => DecodeSoundList(s, bs);
    case Array(n, e) => DecodeSoundAll(e, n, bs);
    case Field(_, _) => DecodeSoundField(s, bs);
    case Union(_) => DecodeSoundUnion(s, bs);
    case _ => DecodeSoundAtom(s, bs);
  }

  lemma NumberIsSound(w: nat, bs: seq<byte>)
    requires Decode(UInt(w), bs).Done?
    ensures Sound(UInt(w), bs)
  {
    NumberSound(w, bs);
  }

  lemma StringIsSound(w: nat, checked: bool, bs: seq<byte>)
    requires Decode(Str(w, checked), bs).Done?
    ensures Sound(Str(w, checked), bs)
  {
    StringSound(w, checked, bs);
  }

  lemma DecodeSoundAtom(s: Schema, bs: seq<byte>)
    requires (s.UInt? || s.Bool? || s.Str? || s.Unit?) && Decode(s, bs).Done?
    ensures Sound(s, bs)
  {
    if s.UInt? {
      NumberIsSound(s.width, bs);
    } else if s.Str? {
      StringIsSound(s.lenWidth, s.checked, bs);
    } else if s.Unit? {
      assert [] + bs == bs;
    }
  }

  lemma {:induction false} DecodeSoundList(s: Schema, bs: seq<byte>)
    requires s.List? && Decode(s, bs).Done?
    ensures Sound(s, bs)
    decreases s, 1
  {
    var w, e := s.countWidth, s.elem;
    NumberSound(w, bs);
    var n := FromLittleEndian(bs[..w]);
    DecodeSoundAll(e, n, bs[w..]);
    var p := DecodeAll(e, n, bs[w..]);
    WroteBoth(Some(LittleEndian(w, n)), EncodeAll(e, p.v.vs), true, PlainFlagsAll(e, n, bs[w..]), bs, bs[w..], p.left);
  }

  lemma {:induction false} DecodeSoundField(s: Schema, bs: seq<byte>)
    requires s.Field? && Decode(s, bs).Done?
    ensures Sound(s, bs)
    decreases s, 1
  {
    DecodeSound(s.head, bs);
    var p := Decode(s.head, bs);
    DecodeSound(s.tail, p.left);
    var q := Decode(s.tail, p.left);
    WroteBoth(Encode(s.head, p.v), Encode(s.tail, q.v), PlainFlags(s.head, bs), PlainFlags(s.tail, p.left), bs,
              p.left, q.left);
  }

  lemma {:induction false} DecodeSoundUnion(s: Schema, bs: seq<byte>)
    requires s.Union? && Decode(s, bs).Done?
    ensures Sound(s, bs)
    decreases s, 1
  {
    assert bs == [bs[0]] + bs[1..];
    if bs[0] != TAG_INVALID {
      DecodeSoundCase(s.cases, bs[0], bs[1..]);
      var p := DecodeCase(s.cases, bs[0], bs[1..]);
      WroteBoth(Some([bs[0]]), EncodeCase(s.cases, bs[0], p.v), true, PlainFlagsCase(s.cases, bs[0], bs[1..]), bs,
                bs[1..], p.left);
    }
  }

  lemma {:induction false} DecodeSoundCase(cs: Cases, tag: byte, bs: seq<byte>)
    requires DecodeCase(cs, tag, bs).Done?
    ensures var p := DecodeCase(cs, tag, bs);
            && CaseShape(cs, tag, p.v) && CaseWithin(cs, tag, p.v)
            && Wrote(EncodeCase(cs, tag, p.v), PlainFlagsCase(cs, tag, bs), bs, p.left)
    decreases cs, 2
  {
    if cs.tag == tag { DecodeSound(cs.body, bs); } else { DecodeSoundCase(cs.others, tag, bs); }
  }

  lemma {:induction false} DecodeSoundAll(e: Schema, n: nat, bs: seq<byte>)
    requires DecodeAll(e, n, bs).Done?
    ensures SoundAll(e, n, bs)
    decreases e, n + 3
  {
    hide SoundAll, Decode, Sound;
    if n > 0 {
      AllRead(e, n, bs);
      DecodeSound(e, bs);
      DecodeSoundAll(e, n - 1, Decode(e, bs).left);
      OneMoreSound(e, n, bs);
    } else {
      NoneSound(e, bs);
    }
  }

  /** n values in a row were read as Pack would write them. */
  predicate SoundAll(e: Schema, n: nat, bs: seq<byte>)
    requires DecodeAll(e, n, bs).Done?
  {
    var p := DecodeAll(e, n, bs);
    && (forall i :: 0 <= i < n ==> Shape(e, p.v.vs[i]) && Within(e, p.v.vs[i]))
    && Wrote(EncodeAll(e, p.v.vs), PlainFlagsAll(e, n, bs), bs, p.left)
  }

  lemma AllRead(e: Schema, n: nat, bs: seq<byte>)
    requires n > 0 && DecodeAll(e, n, bs).Done?
    ensures var p := Decode(e, bs);
            && p.Done? && DecodeAll(e, n - 1, p.left).Done?
            && var q := DecodeAll(e, n - 1, p.left);
               DecodeAll(e, n, bs) == Done(Items([p.v] + q.v.vs), q.left)
  {
  }

  lemma NoneSound(e: Schema, bs: seq<byte>)
    ensures SoundAll(e, 0, bs)
  {
  }

  lemma OneMoreSound(e: Schema, n: nat, bs: seq<byte>)
    requires n > 0 && DecodeAll(e, n, bs).Done?
    requires Decode(e, bs).Done? && DecodeAll(e, n - 1, Decode(e, bs).left).Done?
    requires Sound(e, bs) && SoundAll(e, n - 1, Decode(e, bs).left)
    ensures SoundAll(e, n, bs)
  {
    hide Decode, Shape, Within, Encode, PlainFlags, Wrote;
    AllRead(e, n, bs);
    var p := Decode(e, bs);
    var q := DecodeAll(e, n - 1, p.left);
    assert ([p.v] + q.v.vs)[1..] == q.v.vs;
    WroteBoth(Encode(e, p.v), EncodeAll(e, q.v.vs), PlainFlags(e, bs), PlainFlagsAll(e, n - 1, p.left), bs, p.left,
              q.left);
  }

  /** Repacking what was unpacked gives the bytes back exactly if every flag byte read was
      0 or 1. */
  lemma RepacksIffPlain(s: Schema, bs: seq<byte>)
    requires Decode(s, bs).Done?
    ensures var p := Decode(s, bs);
            Shape(s, p.v) && Encode(s, p.v).Some? &&
            (bs == Encode(s, p.v).value + p.left <==> PlainFlags(s, bs))
  {
    hide Decode, Encode, Shape, Within, PlainFlags;
    DecodeSound(s, bs);
    var enc, left := Encode(s, Decode(s, bs).v).value, Decode(s, bs).left;
    assert bs == bs[..|enc|] + bs[|enc|..];
    assert (enc + left)[..|enc|] == enc;
  }

  /** Unpack is the inverse of Pack on bytes with plain flags. */
  lemma UnpackInvertsPack(s: Schema, bs: seq<byte>, v: Value, left: seq<byte>)
    ensures Decode(s, bs) == Done(v, left) && PlainFlags(s, bs) <==>
            Shape(s, v) && Within(s, v) && Encode(s, v).Some? && bs == Encode(s, v).value + left
  {
    hide Decode, Encode, Shape, Within, PlainFlags;
    if Decode(s, bs) == Done(v, left) {
      DecodeSound(s, bs);
      RepacksIffPlain(s, bs);
    } else if Shape(s, v) && Within(s, v) && Encode(s, v).Some? && bs == Encode(s, v).value + left {
      RoundTrip(s, v, left);
    }
  }

  /** The layout has no flags. */
  predicate NoBool(s: Schema)
    decreases s
  {
    match s
    case Bool => false
    case List(_, e) => NoBool(e)
    case Array(_, e) => NoBool(e)
    case Field(h, t) => NoBool(h) && NoBool(t)
    case Union(cs) => NoBoolCase(cs)
    case _ => true
  }

  predicate NoBoolCase(cs: Cases)
    decreases cs
  {
    cs.Case? ==> NoBool(cs.body) && NoBoolCase(cs.others)
  }

  /** All bytes have plain flags if the layout has none. */
  lemma {:induction false} WithoutFlags(s: Schema, bs: seq<byte>)
    requires NoBool(s) && Decode(s, bs).Done?
    ensures PlainFlags(s, bs)
    decreases s, 0
  {
    match s
    case List(w, e) => WithoutFlagsAll(e, FromLittleEndian(bs[..w]), bs[w..]);
    case Array(n, e) => WithoutFlagsAll(e, n, bs);
    case Field(h, t) =>
      WithoutFlags(h, bs);
      WithoutFlags(t, Decode(h, bs).left);
    case Union(cs) => if bs[0] != TAG_INVALID { WithoutFlagsCase(cs, bs[0], bs[1..]); }
    case _ =>
  }

  lemma {:induction false} WithoutFlagsCase(cs: Cases, tag: byte, bs: seq<byte>)
    requires NoBoolCase(cs) && DecodeCase(cs, tag, bs).Done?
    ensures PlainFlagsCase(cs, tag, bs)
    decreases cs, 0
  {
    if cs.tag == tag { WithoutFlags(cs.body, bs); } else { WithoutFlagsCase(cs.others, tag, bs); }
  }

  lemma {:induction false} WithoutFlagsAll(e: Schema, n: nat, bs: seq<byte>)
    requires NoBool(e) && DecodeAll(e, n, bs).Done?
    ensures PlainFlagsAll(e, n, bs)
    decreases e, n + 1
  {
    if n > 0 {
      WithoutFlags(e, bs);
      WithoutFlagsAll(e, n - 1, Decode(e, bs).left);
    }
  }

  /** A message survives the round trip exactly if it is within its limits; the limit of an
      unchecked length prefix is not enforced by Pack. */
  lemma RoundTripsIffWithin(s: Schema, v: Value)
    requires Shape(s, v)
    ensures Within(s, v) <==> Encode(s, v).Some? && Decode(s, Encode(s, v).value) == Done(v, [])
  {
    hide Shape, Within, Encode, Decode, PlainFlags;
    if Within(s, v) {
      RoundTrip(s, v, []);
      assert Encode(s, v).value + [] == Encode(s, v).value;
    } else if Encode(s, v).Some? && Decode(s, Encode(s, v).value) == Done(v, []) {
      DecodeSound(s, Encode(s, v).value);
    }
  }

  /** No string's length goes unchecked. */
  predicate Checked(s: Schema)
    decreases s
  {
    match s
    case Str(_, checked) => checked
    case List(_, e) => Checked(e)
    case Array(_, e) => Checked(e)
    case Field(h, t) => Checked(h) && Checked(t)
    case Union(cs) => CheckedCase(cs)
    case _ => true
  }

  predicate CheckedCase(cs: Cases)
    decreases cs
  {
    cs.NoCase? || (Checked(cs.body) && CheckedCase(cs.others))
  }

  /** Pack refuses exactly the messages that are not within their limits. */
  lemma {:induction false} PacksIffWithin(s: Schema, v: Value)
    requires Shape(s, v) && Checked(s)
    ensures Encode(s, v).Some? <==> Within(s, v)
    decreases s, 0
  {
    match s
    case List(_, e) => PacksIffWithinAll(e, v.vs);
    case Array(_, e) => PacksIffWithinAll(e, v.vs);
    case Field(h, t) =>
      PacksIffWithin(h, v.first);
      PacksIffWithin(t, v.rest);
    case Union(cs) => if v.Tagged? { PacksIffWithinCase(cs, v.t, v.v); }
    case _ =>
  }

  lemma {:induction false} PacksIffWithinCase(cs: Cases, tag: byte, v: Value)
    requires CaseShape(cs, tag, v) && CheckedCase(cs)
    ensures EncodeCase(cs, tag, v).Some? <==> CaseWithin(cs, tag, v)
    decreases cs, 0
  {
    if cs.tag == tag { PacksIffWithin(cs.body, v); } else { PacksIffWithinCase(cs.others, tag, v); }
  }

  lemma {:induction false} PacksIffWithinAll(e: Schema, vs: seq<Value>)
    requires Checked(e) && forall i :: 0 <= i < |vs| ==> Shape(e, vs[i])
    ensures EncodeAll(e, vs).Some? <==> forall i :: 0 <= i < |vs| ==> Within(e, vs[i])
    decreases e, |vs| + 1
  {
    if vs != [] {
      PacksIffWithin(e, vs[0]);
      PacksIffWithinAll(e, vs[1..]);
      assert vs == [vs[0]] + vs[1..];
    }
  }

  // ---------------------------------------------------------------------------------
  // Byte order

  /** The first w bytes are the number, least significant byte first: byte i has the weight
      256^i. */
  predicate StartsWith(bs: seq<byte>, w: nat, n: nat) {
    w <= |bs| && forall i: nat :: i < w ==> bs[i] == n / Pow256(i) % 256
  }

  lemma NumberReadFrom(w: nat, bs: seq<byte>)
    requires w <= |bs|
    ensures FromLittleEndian(bs[..w]) < Pow256(w) && StartsWith(bs, w, FromLittleEndian(bs[..w]))
  {
    FromLittleEndianRoundTrip(bs[..w]);
    forall i: nat | i < w ensures bs[i] == FromLittleEndian(bs[..w]) / Pow256(i) % 256 {
      FromLittleEndianAt(bs[..w], i);
    }
  }

  lemma NumberWrittenAs(w: nat, n: nat, rest: seq<byte>)
    ensures StartsWith(LittleEndian(w, n) + rest, w, n)
  {
    forall i: nat | i < w ensures (LittleEndian(w, n) + rest)[i] == n / Pow256(i) % 256 {
      LittleEndianAt(w, n, i);
    }
  }

  /** What Unpack takes for a number, and for the length of a string or a list, is what the
      bytes say, least significant first; and a string is the bytes behind its length. */
  lemma ReadsLittleEndian(s: Schema, bs: seq<byte>)
    requires (s.UInt? || s.Str? || s.List?) && Decode(s, bs).Done?
    ensures s.UInt? ==>
              var p, w := Decode(s, bs), s.width;
              p.v.Num? && w <= |bs| && (forall i: nat :: i < w ==> bs[i] == p.v.n / Pow256(i) % 256) &&
              p.left == bs[w..]
    ensures s.Str? ==>
              var p, w := Decode(s, bs), s.lenWidth;
              p.v.Text? && w + |p.v.s| <= |bs| && (forall i: nat :: i < w ==> bs[i] == |p.v.s| / Pow256(i) % 256) &&
              p.v.s == bs[w..w + |p.v.s|] && p.left == bs[w + |p.v.s|..]
    ensures s.List? ==>
              var p, w := Decode(s, bs), s.countWidth;
              p.v.Items? && w <= |bs| && forall i: nat :: i < w ==> bs[i] == |p.v.vs| / Pow256(i) % 256
  {
    var w := if s.UInt? then s.width else if s.Str? then s.lenWidth else s.countWidth;
    hide DecodeAll, FromLittleEndian;
    NumberReadFrom(w, bs);
  }

  /** And so Pack writes them. */
  lemma WritesLittleEndian(s: Schema, v: Value)
    requires (s.UInt? || s.Str? || s.List?) && Shape(s, v) && Encode(s, v).Some?
    ensures s.UInt? ==>
              var bs := Encode(s, v).value;
              |bs| == s.width && forall i: nat :: i < |bs| ==> bs[i] == v.n / Pow256(i) % 256
    ensures s.Str? ==>
              var bs, w := Encode(s, v).value, s.lenWidth;
              w <= |bs| && (forall i: nat :: i < w ==> bs[i] == |v.s| / Pow256(i) % 256) && bs[w..] == v.s
    ensures s.List? ==>
              var bs, w := Encode(s, v).value, s.countWidth;
              w <= |bs| && forall i: nat :: i < w ==> bs[i] == |v.vs| / Pow256(i) % 256
  {
    hide EncodeAll, Pow256;
    match s
    case UInt(w) => NumberWrittenAs(w, v.n, []); assert LittleEndian(w, v.n) + [] == LittleEndian(w, v.n);
    case Str(w, _) => NumberWrittenAs(w, |v.s|, v.s);
    case List(w, e) => NumberWrittenAs(w, |v.vs|, EncodeAll(e, v.vs).value);
    case _ =>
  }

  /** The uint16 1 is the bytes 1, 0. */
  lemma OneIsOneZero()
    ensures Encode(UInt(2), Num(1)) == Some([1, 0]) && Decode(UInt(2), [1, 0]) == Done(Num(1), [])
  {
    assert LittleEndian(1, 0) == [0] + LittleEndian(0, 0) == [0];
    assert LittleEndian(2, 1) == [1] + LittleEndian(1, 0) == [1, 0];
    var bs: seq<byte> := [1, 0];
    assert bs[1..] == [0] && [0][1..] == [] && FromLittleEndian(bs) == 1;
    assert bs[..2] == bs && bs[2..] == [];
  }

  /** A flag byte other than 0 and 1 is accepted and would be written back as 1. */
  lemma OddFlag()
    ensures Decode(Bool, [2]) == Done(Flag(true), []) && Encode(Bool, Flag(true)) == Some([1])
    ensures !PlainFlags(Bool, [2])
  {
  }

  /** A text of 2^32 bytes under an unchecked four-byte length is packed, and comes back as
      the empty text. */
  lemma LongText(s: seq<byte>)
    requires |s| == Pow256(4)
    ensures var enc := Encode(Str(4, false), Text(s));
            enc.Some? && Decode(Str(4, false), enc.value) == Done(Text([]), s)
  {
    SmallPowers();
    assert LittleEndian(4, |s|) == [0, 0, 0, 0] by {
      assert LittleEndian(3, 0x100_0000) == [0, 0, 0] by { assert LittleEndian(2, 0x1_0000) == [0, 0]; }
    }
    var zeros: seq<byte> := [0, 0, 0, 0];
    assert FromLittleEndian(zeros) == 0 by {
      assert zeros[1..] == [0, 0, 0] && [0, 0, 0][1..] == [0, 0] && [0, 0][1..] == [0] && [0][1..] == [];
    }
    var bs := zeros + s;
    assert bs[..4] == zeros && bs[4..4] == [] && bs[4..] == s;
  }
}
