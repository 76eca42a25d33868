/** Self-delimiting byte records: varints as encoding/binary writes them and byte-aligned XOR differences.
    A float64 stands as its bit pattern, and a pattern as its eight bytes, most significant first, so that
    the program's shifts by whole bytes are moves within the sequence. */
module ByteCodec {
  import opened Ordering

  type byte = x: int | 0 <= x < 256
  type Bytes = seq<byte>
  type Pattern = bs: Bytes | |bs| == 8 witness [0, 0, 0, 0, 0, 0, 0, 0]

  const TWO63: int := 0x8000_0000_0000_0000
  const TWO64: int := 0x1_0000_0000_0000_0000

  type int64 = x: int | -TWO63 <= x < TWO63
  type uint64 = x: int | 0 <= x < TWO64

  /** What a reader takes off the front of a buffer, and what it leaves. */
  datatype Parsed<+T> = Parsed(value: T, rest: Bytes)

  /** The same read with a cursor into the data: the cursor is where the rest starts. */
  ghost predicate AtCursor<T>(data: Bytes, r: Option<(T, nat)>, p: Option<Parsed<T>>)
  {
    match r
    case None => p.None?
    case Some((v, pos)) => p.Some? && v == p.value.value && pos <= |data| && data[pos..] == p.value.rest
  }

  // ---------- varints, as encoding/binary writes them ----------

  function Uvarint(v: uint64): (r: Bytes)
    ensures |r| > 0
    decreases v
  {
    if v < 128 then [v] else [v % 128 + 128] + Uvarint(v / 128)
  }

  /** The value read and the number of bytes it took, not positive on failure. */
  datatype Varint = Varint(value: nat, n: int)

  /** Reads from byte `i` on; `x` holds the groups before it and `m` is 128 to the power `i`. */
  function ReadGroups(buf: Bytes, i: nat, x: nat, m: nat): Varint
    decreases |buf| - i
  {
    if i >= |buf| then Varint(0, 0)
    else
      var b := buf[i];
      if i == 10 then Varint(0, -(i + 1))
      else if b < 128 then
        if i == 9 && b > 1 then Varint(0, -(i + 1)) else Varint(x + b * m, i + 1)
      else ReadGroups(buf, i + 1, x + (b - 128) * m, m * 128)
  }

  function ReadUvarint(buf: Bytes): Varint { ReadGroups(buf, 0, 0, 1) }

  function Pow128(i: nat): nat
  {
    if i == 0 then 1 else Pow128(i - 1) * 128
  }

  lemma {:induction false} NinthGroup(i: nat)
    ensures Pow128(9) == TWO63
    ensures Pow128(i) > 0 && (i >= 9 ==> Pow128(i) >= TWO63)
  {
    assert Pow128(3) == 2097152;
    assert Pow128(6) == 2097152 * 2097152;
    if i > 9 { NinthGroup(i - 1); }
    if 0 < i < 9 { NinthGroup(i - 1); }
  }

  lemma NextGroup(v: uint64, i: nat, x: nat, g: nat)
    requires v == x + g * Pow128(i) && i <= 9
    ensures i == 9 ==> g <= 1
    ensures g % 128 * Pow128(i) >= 0
    ensures g >= 128 ==> i < 9 && v == (x + g % 128 * Pow128(i)) + g / 128 * Pow128(i + 1)
  {
    NinthGroup(i);
    var m := Pow128(i);
    assert i == 9 ==> m == TWO63;
    Distribute(g / 128, g % 128, m);
    assert g == 128 * (g / 128) + g % 128;
    assert Pow128(i + 1) == m * 128;
  }

  lemma Distribute(q: nat, r: nat, m: nat)
    ensures (128 * q + r) * m == r * m + q * (m * 128)
    ensures r * m >= 0
  {
  }

  lemma {:induction false} ReadLast(v: uint64, i: nat, x: nat, m: nat, g: nat, buf: Bytes)
    requires i <= 9 && i < |buf| && buf[i] == g && g < 128 && (i == 9 ==> g <= 1) && v == x + g * m
    ensures ReadGroups(buf, i, x, m) == Varint(v, i + 1)
  {
  }

  lemma {:induction false} FirstByte(buf: Bytes, i: nat, g: uint64, rest: Bytes)
    requires i <= |buf| && buf[i..] == Uvarint(g) + rest
    ensures i < |buf| && buf[i] == if g < 128 then g else g % 128 + 128
    ensures g >= 128 ==> buf[i + 1..] == Uvarint(g / 128) + rest && |Uvarint(g)| == 1 + |Uvarint(g / 128)|
  {
    assert buf[i] == buf[i..][0];
    if g >= 128 { assert buf[i + 1..] == buf[i..][1..] == Uvarint(g / 128) + rest; }
  }

  /** A varint is read back whole, whatever follows it. */
  lemma {:induction false} GroupsRoundTrip(v: uint64, i: nat, x: nat, g: uint64, buf: Bytes, rest: Bytes)
    requires i <= 9 && i <= |buf| && v == x + g * Pow128(i)
    requires buf[i..] == Uvarint(g) + rest
    ensures ReadGroups(buf, i, x, Pow128(i)) == Varint(v, i + |Uvarint(g)|)
    decreases 10 - i
  {
    NextGroup(v, i, x, g);
    FirstByte(buf, i, g, rest);
    if g < 128 {
      ReadLast(v, i, x, Pow128(i), g, buf);
    } else {
      GroupsRoundTrip(v, i + 1, x + g % 128 * Pow128(i), g / 128, buf, rest);
    }
  }

  lemma {:induction false} UvarintRoundTrip(v: uint64, rest: Bytes)
    ensures ReadUvarint(Uvarint(v) + rest) == Varint(v, |Uvarint(v)|)
  {
    var buf := Uvarint(v) + rest;
    assert buf[0..] == buf;
    GroupsRoundTrip(v, 0, 0, v, buf, rest);
  }

  function TakeUvarint(buf: Bytes): Option<Parsed<nat>>
  {
    var u := ReadUvarint(buf);
    if u.n <= 0 then None
    else
      ReadStaysInside(buf, 0, 0, 1);
      Some(Parsed(u.value, buf[u.n..]))
  }

  lemma {:induction false} ReadStaysInside(buf: Bytes, i: nat, x: nat, m: nat)
    ensures ReadGroups(buf, i, x, m).n <= |buf|
    decreases |buf| - i
  {
    if i >= |buf| || i == 10 || buf[i] < 128 {
    } else {
      ReadStaysInside(buf, i + 1, x + (buf[i] - 128) * m, m * 128);
    }
  }

  lemma {:induction false} TakeUvarintRoundTrip(v: uint64, rest: Bytes)
    ensures TakeUvarint(Uvarint(v) + rest) == Some(Parsed(v as nat, rest))
  {
    UvarintRoundTrip(v, rest);
  }

  // ---------- patterns ----------

  /** a ^ b on the low `k` bits. */
  function XorBits(a: nat, b: nat, k: nat): nat
  {
    if k == 0 then 0 else (if a % 2 == b % 2 then 0 else 1) + 2 * XorBits(a / 2, b / 2, k - 1)
  }

  function Pow2(k: nat): nat
  {
    if k == 0 then 1 else 2 * Pow2(k - 1)
  }

  lemma {:induction false} XorBitsCancel(a: nat, b: nat, k: nat)
    requires a < Pow2(k) && b < Pow2(k)
    ensures XorBits(a, b, k) < Pow2(k) && XorBits(XorBits(a, b, k), b, k) == a
    ensures XorBits(a, b, k) == 0 <==> a == b
  {
    if k == 0 {
    } else {
      var r := XorBits(a / 2, b / 2, k - 1);
      XorBitsCancel(a / 2, b / 2, k - 1);
      var bit := if a % 2 == b % 2 then 0 else 1;
      assert (bit + 2 * r) / 2 == r && (bit + 2 * r) % 2 == bit;
    }
  }

  lemma EightBits()
    ensures Pow2(8) == 256
  {
  }

  function XorByte(a: byte, b: byte): byte
  {
    EightBits();
    XorBitsCancel(a, b, 8);
    XorBits(a, b, 8)
  }

  lemma XorByteCancels(a: byte, b: byte)
    ensures XorByte(XorByte(a, b), b) == a && (XorByte(a, b) == 0 <==> a == b)
  {
    EightBits();
    XorBitsCancel(a, b, 8);
  }

  function XorBytes(a: Bytes, b: Bytes): (r: Bytes)
    requires |a| == |b|
    ensures |r| == |a| && forall i :: 0 <= i < |a| ==> r[i] == XorByte(a[i], b[i])
  {
    if a == [] then [] else [XorByte(a[0], b[0])] + XorBytes(a[1..], b[1..])
  }

  function Xor(a: Pattern, b: Pattern): Pattern { XorBytes(a, b) }

  lemma XorCancels(a: Pattern, b: Pattern)
    ensures Xor(Xor(a, b), b) == a
    ensures IsZero(Xor(a, b)) <==> a == b
  {
    forall i | 0 <= i < 8 ensures Xor(Xor(a, b), b)[i] == a[i] && (Xor(a, b)[i] == 0 <==> a[i] == b[i]) {
      XorByteCancels(a[i], b[i]);
    }
  }

  predicate IsZero(x: Pattern)
  {
    forall i :: 0 <= i < 8 ==> x[i] == 0
  }

  function Zeros(k: nat): (r: Bytes)
    ensures |r| == k && forall i :: 0 <= i < k ==> r[i] == 0
  {
    seq(k, _ => 0)
  }

  /** x<<8 | b */
  function PushByte(x: Pattern, b: byte): Pattern { x[1..] + [b] }

  /** x<<(8*k) */
  function ShiftBytes(x: Pattern, k: nat): Pattern
    requires k <= 8
  {
    x[k..] + Zeros(k)
  }

  function Reversed(bs: Bytes): (r: Bytes)
    ensures |r| == |bs| && forall i :: 0 <= i < |bs| ==> r[i] == bs[|bs| - 1 - i]
  {
    if bs == [] then [] else Reversed(bs[1..]) + [bs[0]]
  }

  /** Stored low byte first. */
  function LittleEndian(x: Pattern): Bytes { Reversed(x) }

  // ---------- one XOR record ----------

  /** The number of zero bytes at the front of `x`, from byte `i` on. */
  function LeadFrom(x: Pattern, i: nat): nat
    requires i <= 8
    decreases 8 - i
  {
    if i < 8 && x[i] == 0 then 1 + LeadFrom(x, i + 1) else 0
  }

  function TrailFrom(x: Pattern, i: nat): nat
    requires i <= 8
    decreases 8 - i
  {
    if i < 8 && x[7 - i] == 0 then 1 + TrailFrom(x, i + 1) else 0
  }

  lemma {:induction false} LeadZeros(x: Pattern, i: nat)
    requires i <= 8
    ensures i + LeadFrom(x, i) <= 8
    ensures forall j :: i <= j < i + LeadFrom(x, i) ==> x[j] == 0
    ensures i + LeadFrom(x, i) < 8 ==> x[i + LeadFrom(x, i)] != 0
    decreases 8 - i
  {
    if i >= 8 || x[i] != 0 {
    } else {
      LeadZeros(x, i + 1);
    }
  }

  lemma {:induction false} TrailZeros(x: Pattern, i: nat)
    requires i <= 8
    ensures i + TrailFrom(x, i) <= 8
    ensures forall j :: 8 - i - TrailFrom(x, i) <= j < 8 - i ==> x[j] == 0
    ensures i + TrailFrom(x, i) < 8 ==> x[7 - (i + TrailFrom(x, i))] != 0
    decreases 8 - i
  {
    if i >= 8 || x[7 - i] != 0 {
    } else {
      TrailZeros(x, i + 1);
    }
  }

  /** A non-zero pattern has a significant byte between its leading and trailing zeros. */
  lemma {:induction false} SignificantBytes(x: Pattern)
    requires !IsZero(x)
    ensures LeadFrom(x, 0) + TrailFrom(x, 0) < 8
    ensures x == Zeros(LeadFrom(x, 0)) + x[LeadFrom(x, 0)..8 - TrailFrom(x, 0)] + Zeros(TrailFrom(x, 0))
  {
    LeadZeros(x, 0);
    TrailZeros(x, 0);
    var l, t := LeadFrom(x, 0), TrailFrom(x, 0);
    assert l == 8 ==> IsZero(x);
    assert x[l] != 0 && x[7 - t] != 0;
  }

  /** What is left of a non-zero pattern between its leading and trailing zeros. */
  function Significant(x: Pattern): Bytes
    requires !IsZero(x)
  {
    SignificantBytes(x);
    x[LeadFrom(x, 0)..8 - TrailFrom(x, 0)]
  }

  /** The count of leading zero bytes, the count of significant bytes, and those bytes. */
  function ShapeBytes(lead: nat, mid: Bytes): Bytes
    requires lead + |mid| <= 8
  {
    Uvarint(lead) + (Uvarint(|mid|) + mid)
  }

  function DiffRecord(x: Pattern): (r: Bytes)
    ensures |r| > 0
  {
    if IsZero(x) then [0]
    else
      SignificantBytes(x);
      [1] + ShapeBytes(LeadFrom(x, 0), Significant(x))
  }

  /** One value after its predecessor. */
  function XorRecord(v: Pattern, prev: Pattern): (r: Bytes)
    ensures |r| > 0
  {
    DiffRecord(Xor(v, prev))
  }

  lemma OneMore(head: Bytes, s: Bytes, from: nat, i: nat)
    requires from + i < |s|
    ensures head + s[from..from + i] + [s[from + i]] == head + s[from..from + i + 1]
  {
  }

  /** Appends one record and leaves `v` as the next predecessor. */
  method AppendXor(out: Bytes, v: Pattern, prev: Pattern) returns (out': Bytes, prev': Pattern)
    ensures out' == out + XorRecord(v, prev) && prev' == v
  {
    var x := Xor(v, prev);
    prev' := v;
    if IsZero(x) { return out + [0], prev'; }
    var lead := LeadingZeros(x);
    var trail := TrailingZeros(x);
    SignificantBytes(x);
    out' := AppendSignificant(out, x, lead, 8 - lead - trail);
  }

  method LeadingZeros(x: Pattern) returns (lead: nat)
    ensures lead == LeadFrom(x, 0)
  {
    lead := 0;
    for i := 0 to 8
      invariant lead == i && LeadFrom(x, 0) == lead + LeadFrom(x, i)
    {
      if x[i] != 0 { break; }
      lead := lead + 1;
    }
  }

  method TrailingZeros(x: Pattern) returns (trail: nat)
    ensures trail == TrailFrom(x, 0)
  {
    trail := 0;
    for i := 0 to 8
      invariant trail == i && TrailFrom(x, 0) == trail + TrailFrom(x, i)
    {
      if x[7 - i] != 0 { break; }
      trail := trail + 1;
    }
  }

  method AppendSignificant(out: Bytes, x: Bytes, lead: nat, sig: nat) returns (out': Bytes)
    requires lead + sig <= |x| == 8
    ensures out' == out + ([1] + ShapeBytes(lead, x[lead..lead + sig]))
  {
    out' := out + [1];
    out' := out' + Uvarint(lead);
    out' := out' + Uvarint(sig);
    ghost var head := out';
    for i := 0 to sig
      invariant out' == head + x[lead..lead + i]
    {
      OneMore(head, x, lead, i);
      out' := out' + [x[lead + i]];
    }
    assert |x[lead..lead + sig]| == sig;
  }

  // ---------- reading a record ----------

  datatype Shape = Shape(lead: nat, mid: Bytes)

  function TakeShape(buf: Bytes): (r: Option<Parsed<Shape>>)
    ensures r.Some? ==> r.value.value.lead + |r.value.value.mid| <= 8
  {
    var lead := TakeUvarint(buf);
    if lead.None? then None
    else
      var sig := TakeUvarint(lead.value.rest);
      if sig.None? || lead.value.value + sig.value.value > 8 || sig.value.value > |sig.value.rest| then None
      else Some(Parsed(Shape(lead.value.value, sig.value.rest[..sig.value.value]), sig.value.rest[sig.value.value..]))
  }

  /** Bytes shifted into a zero pattern. */
  function Packed(bs: Bytes): Pattern
  {
    if bs == [] then Zeros(8) else PushByte(Packed(bs[..|bs| - 1]), bs[|bs| - 1])
  }

  /** The difference with the significant bytes `mid` after `lead` zero bytes. */
  function Expand(h: Shape): Pattern
    requires h.lead + |h.mid| <= 8
  {
    ShiftBytes(Packed(h.mid), 8 - h.lead - |h.mid|)
  }

  function TakeDiff(buf: Bytes): Option<Parsed<Pattern>>
  {
    if buf == [] then None
    else if buf[0] == 0 then Some(Parsed(Zeros(8), buf[1..]))
    else
      var h := TakeShape(buf[1..]);
      if h.None? then None else Some(Parsed(Expand(h.value.value), h.value.rest))
  }

  function TakeXor(buf: Bytes, prev: Pattern): Option<Parsed<Pattern>>
  {
    var x := TakeDiff(buf);
    if x.None? then None else Some(Parsed(Xor(x.value.value, prev), x.value.rest))
  }

  /** Reads one record at the cursor. */
  method ReadXor(data: Bytes, pos: nat, prev: Pattern) returns (r: Option<(Pattern, nat)>)
    requires pos <= |data|
    ensures AtCursor(data, r, TakeXor(data[pos..], prev))
  {
    if pos >= |data| { return None; }
    if data[pos] == 0 {
      XorZero(prev);
      return Some((prev, pos + 1));
    }
    Deeper(data, pos, 1);
    var shape := ReadShape(data, pos + 1);
    if shape.None? { return None; }
    var (Shape(lead, mid), p) := shape.value;
    var x := PackBytes(mid);
    return Some((Xor(ShiftBytes(x, 8 - lead - |mid|), prev), p));
  }

  method ReadShape(data: Bytes, pos: nat) returns (r: Option<(Shape, nat)>)
    requires pos <= |data|
    ensures AtCursor(data, r, TakeShape(data[pos..]))
  {
    var lead := ReadUvarint(data[pos..]);
    if lead.n <= 0 { return None; }
    ReadStaysInside(data[pos..], 0, 0, 1);
    Deeper(data, pos, lead.n);
    var p: nat := pos + lead.n;
    var sig := ReadUvarint(data[p..]);
    if sig.n <= 0 || lead.value + sig.value > 8 { return None; }
    ReadStaysInside(data[p..], 0, 0, 1);
    Deeper(data, p, sig.n);
    p := p + sig.n;
    if p + sig.value > |data| { return None; }
    Deeper(data, p, sig.value);
    assert data[p..p + sig.value] == data[p..][..sig.value];
    return Some((Shape(lead.value, data[p..p + sig.value]), p + sig.value));
  }

  lemma Deeper(data: Bytes, pos: nat, n: nat)
    requires pos + n <= |data|
    ensures data[pos..][n..] == data[pos + n..]
  {
  }

  lemma XorZero(prev: Pattern)
    ensures Xor(Zeros(8), prev) == prev
  {
    forall i | 0 <= i < 8 ensures Xor(Zeros(8), prev)[i] == prev[i] { XorByteCancels(prev[i], prev[i]); }
  }

  method PackBytes(bs: Bytes) returns (x: Pattern)
    ensures x == Packed(bs)
  {
    x := Zeros(8);
    for i := 0 to |bs|
      invariant x == Packed(bs[..i])
    {
      assert bs[..i + 1][..i] == bs[..i];
      x := PushByte(x, bs[i]);
    }
    assert bs[..|bs|] == bs;
  }

  lemma {:induction false} PackedIs(bs: Bytes)
    requires |bs| <= 8
    ensures Packed(bs) == Zeros(8 - |bs|) + bs
    decreases |bs|
  {
    if bs == [] {
    } else {
      PackedIs(bs[..|bs| - 1]);
    }
  }

  lemma ShapeRoundTrip(lead: nat, mid: Bytes, rest: Bytes)
    requires lead + |mid| <= 8
    ensures TakeShape(ShapeBytes(lead, mid) + rest) == Some(Parsed(Shape(lead, mid), rest))
  {
    assert ShapeBytes(lead, mid) + rest == Uvarint(lead) + (Uvarint(|mid|) + (mid + rest));
    TakeUvarintRoundTrip(lead, Uvarint(|mid|) + (mid + rest));
    TakeUvarintRoundTrip(|mid|, mid + rest);
  }

  lemma ExpandIs(lead: nat, mid: Bytes, trail: nat)
    requires lead + |mid| + trail == 8
    ensures Expand(Shape(lead, mid)) == Zeros(lead) + mid + Zeros(trail)
  {
    PackedIs(mid);
    assert Zeros(8 - |mid|)[trail..] == Zeros(lead);
  }

  lemma {:induction false} ExpandRoundTrip(x: Pattern)
    requires !IsZero(x)
    ensures LeadFrom(x, 0) + |Significant(x)| <= 8 && Expand(Shape(LeadFrom(x, 0), Significant(x))) == x
  {
    SignificantBytes(x);
    ExpandIs(LeadFrom(x, 0), Significant(x), TrailFrom(x, 0));
  }

  lemma DiffRoundTrip(x: Pattern, rest: Bytes)
    ensures TakeDiff(DiffRecord(x) + rest) == Some(Parsed(x, rest))
  {
    if IsZero(x) {
      assert x == Zeros(8);
    } else {
      SignificantBytes(x);
      MarkedRoundTrip(LeadFrom(x, 0), Significant(x), rest);
      ExpandRoundTrip(x);
    }
  }

  lemma MarkedRoundTrip(lead: nat, mid: Bytes, rest: Bytes)
    requires lead + |mid| <= 8
    ensures TakeDiff([1] + ShapeBytes(lead, mid) + rest) == Some(Parsed(Expand(Shape(lead, mid)), rest))
  {
    var s := ShapeBytes(lead, mid);
    assert ([1] + s + rest)[1..] == s + rest;
    ShapeRoundTrip(lead, mid, rest);
  }

  /** A record is self-delimiting and gives back the value it was made from. */
  lemma XorRoundTrip(v: Pattern, prev: Pattern, rest: Bytes)
    ensures TakeXor(XorRecord(v, prev) + rest, prev) == Some(Parsed(v, rest))
  {
    DiffRoundTrip(Xor(v, prev), rest);
    XorCancels(v, prev);
  }
}
