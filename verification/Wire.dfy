/** Bytes, fixed-width machine integers and their little- and big-endian images. */
module Wire {

  datatype Option<+T> = None | Some(value: T)

  type byte = x: int | 0 <= x < 256
  type u16 = x: int | 0 <= x < 0x1_0000
  type u32 = x: int | 0 <= x < 0x1_0000_0000
  type i32 = x: int | -0x8000_0000 <= x < 0x8000_0000

  /** Go's conversion of a uint32 to an int32. */
  function ToI32(u: u32): i32 {
    if u < 0x8000_0000 then u else u - 0x1_0000_0000
  }

  /** Go's conversion of an int32 to a uint32. */
  function ToU32(i: i32): u32 {
    if i >= 0 then i else i + 0x1_0000_0000
  }

  /** int32 addition of one, wrapping. */
  function IncI32(i: i32): i32 {
    if i == 0x7fff_ffff then -0x8000_0000 else i + 1
  }

  /** The number of values that fit in n bytes. */
  function Pow256(n: nat): (r: nat)
    ensures r > 0
  {
    if n == 0 then 1 else 256 * Pow256(n - 1)
  }

  lemma SmallPowers()
    ensures Pow256(1) == 0x100 && Pow256(2) == 0x1_0000 && Pow256(4) == 0x1_0000_0000
  {
    assert Pow256(3) == 0x100_0000;
  }

  /** The low `width` bytes of n, least significant first. */
  function LittleEndian(width: nat, n: nat): (r: seq<byte>)
    ensures |r| == width
  {
    if width == 0 then [] else [n % 256] + LittleEndian(width - 1, n / 256)
  }

  function FromLittleEndian(bs: seq<byte>): nat {
    if bs == [] then 0 else bs[0] + 256 * FromLittleEndian(bs[1..])
  }

  lemma {:induction false} LittleEndianRoundTrip(width: nat, n: nat)
    requires n < Pow256(width)
    ensures FromLittleEndian(LittleEndian(width, n)) == n
  {
    if width > 0 {
      LittleEndianRoundTrip(width - 1, n / 256);
      assert LittleEndian(width, n)[1..] == LittleEndian(width - 1, n / 256);
    }
  }

  lemma {:induction false} FromLittleEndianRoundTrip(bs: seq<byte>)
    ensures FromLittleEndian(bs) < Pow256(|bs|)
    ensures LittleEndian(|bs|, FromLittleEndian(bs)) == bs
  {
    if bs != [] {
      FromLittleEndianRoundTrip(bs[1..]);
      var n := FromLittleEndian(bs);
      assert n % 256 == bs[0] && n / 256 == FromLittleEndian(bs[1..]);
      assert bs == [bs[0]] + bs[1..];
    }
  }

  lemma DivideTwice(n: nat, a: nat, b: nat)
    requires a > 0 && b > 0
    ensures a * b > 0 && n / a / b == n / (a * b)
  {
    var q, r := n / a / b, (n / a) % b;
    assert n / a == q * b + r;
    assert n == (n / a) * a + n % a;
    assert (q * b + r) * a == q * (a * b) + r * a by { Distribute(q, b, r, a); }
    assert r * a + n % a < a * b by { BelowProduct(r, n % a, a, b); }
    Quotient(n, a * b, q, r * a + n % a);
  }

  lemma Distribute(q: nat, b: nat, r: nat, a: nat)
    ensures (q * b + r) * a == q * (a * b) + r * a
  {
  }

  lemma BelowProduct(r: nat, m: nat, a: nat, b: nat)
    requires r < b && m < a
    ensures r * a + m < a * b
  {
    assert (r + 1) * a <= b * a;
  }

  lemma Quotient(n: nat, d: nat, q: nat, r: nat)
    requires d > 0 && n == q * d + r && r < d
    ensures n / d == q
  {
    var p := n / d;
    assert n == p * d + n % d;
    Monotone(p + 1, q, d);
    Monotone(q + 1, p, d);
  }

  lemma Monotone(a: nat, b: nat, d: nat)
    ensures a <= b ==> a * d <= b * d
  {
  }

  /** Byte i has the weight 256^i. */
  lemma {:induction false} LittleEndianAt(width: nat, n: nat, i: nat)
    requires i < width
    ensures LittleEndian(width, n)[i] == n / Pow256(i) % 256
  {
    if i > 0 {
      LittleEndianAt(width - 1, n / 256, i - 1);
      DivideTwice(n, 256, Pow256(i - 1));
    }
  }

  lemma {:induction false} FromLittleEndianSnoc(bs: seq<byte>, b: byte)
    ensures FromLittleEndian(bs + [b]) == FromLittleEndian(bs) + Pow256(|bs|) * b
  {
    if bs == [] {
      assert (bs + [b])[1..] == [];
    } else {
      FromLittleEndianSnoc(bs[1..], b);
      assert (bs + [b])[1..] == bs[1..] + [b];
      assert 256 * (Pow256(|bs| - 1) * b) == Pow256(|bs|) * b by { Associate(256, Pow256(|bs| - 1), b); }
    }
  }

  lemma Associate(a: nat, b: nat, c: nat)
    ensures a * (b * c) == (a * b) * c
  {
  }

  lemma FromLittleEndianAt(bs: seq<byte>, i: nat)
    requires i < |bs|
    ensures bs[i] == FromLittleEndian(bs) / Pow256(i) % 256
  {
    FromLittleEndianRoundTrip(bs);
    LittleEndianAt(|bs|, FromLittleEndian(bs), i);
  }

  lemma PowersOf256()
    ensures Pow256(0) == 1 && forall n: nat {:trigger Pow256(n)} :: n > 0 ==> Pow256(n) == 256 * Pow256(n - 1)
  {
  }

  /** The conversions keep the bits: they change a value by a multiple of 2^32. */
  lemma ConversionsKeepBits(u: u32, i: i32)
    ensures (ToI32(u) - u) % 0x1_0000_0000 == 0 && (ToU32(i) - i) % 0x1_0000_0000 == 0
    ensures ToU32(ToI32(u)) == u && ToI32(ToU32(i)) == i
    ensures (IncI32(i) - i - 1) % 0x1_0000_0000 == 0
    ensures ToI32(0xFFFF_FFFF) == -1
  {
  }

  /** Two bytes, most significant first. */
  function BigEndian16(hi: byte, lo: byte): (r: u16)
    ensures r / 256 == hi && r % 256 == lo
  {
    256 * hi + lo
  }

  /** All the elements of a sequence of sequences, in order. */
  function Concat<T>(parts: seq<seq<T>>): seq<T> {
    if parts == [] then [] else Concat(parts[..|parts| - 1]) + parts[|parts| - 1]
  }

  lemma ConcatSnoc<T>(parts: seq<seq<T>>, last: seq<T>)
    ensures Concat(parts + [last]) == Concat(parts) + last
  {
    assert (parts + [last])[..|parts + [last]| - 1] == parts;
  }

  lemma {:induction false} ConcatAppend<T>(a: seq<seq<T>>, b: seq<seq<T>>)
    ensures Concat(a + b) == Concat(a) + Concat(b)
  {
    if b == [] {
      assert a + b == a;
    } else {
      ConcatAppend(a, b[..|b| - 1]);
      assert (a + b)[..|a + b| - 1] == a + b[..|b| - 1];
    }
  }
}
