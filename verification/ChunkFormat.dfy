/** The bytes of a chunk, told without the encoder: version, varints, zigzag differences, raw first values and
    byte-aligned XOR records. */
module ChunkFormat {
  import opened Ordering
  import opened ByteCodec
  import opened StreamCodec
  import opened ChunkCodec

  // ---------- varints ----------

  /** Groups of seven bits, lowest first; every byte but the last has its high bit set. */
  ghost predicate IsVarint(bs: Bytes)
  {
    bs != [] && bs[|bs| - 1] < 128 && forall i :: 0 <= i < |bs| - 1 ==> bs[i] >= 128
  }

  function VarintValue(bs: Bytes): nat
  {
    if bs == [] then 0 else bs[0] % 128 + 128 * VarintValue(bs[1..])
  }

  lemma {:induction false} UvarintTells(v: uint64)
    ensures IsVarint(Uvarint(v)) && VarintValue(Uvarint(v)) == v
    ensures |Uvarint(v)| > 1 ==> Uvarint(v)[|Uvarint(v)| - 1] != 0
    decreases v
  {
    if v < 128 {
    } else {
      UvarintTells(v / 128);
      assert Uvarint(v)[1..] == Uvarint(v / 128);
    }
  }

  lemma GroupsSum(x: nat, b: nat, m: nat, v: nat)
    requires b < 128
    ensures x + m * (b + 128 * v) == (x + b * m) + (m * 128) * v
    ensures x < m ==> x + b * m < m * 128
  {
    assert m * (b + 128 * v) == b * m + (m * 128) * v;
    assert b * m <= 127 * m;
  }

  /** The last group fits into 64 bits in one of the first nine places, or as a single bit in the tenth. */
  lemma {:induction false} LastFits(i: nat, x: nat, b: nat)
    requires i < 10 && x < Pow128(i) && b < 128
    ensures x + b * Pow128(i) < 0x1_0000_0000_0000_0000 <==> i < 9 || b <= 1
  {
    NinthGroup(i);
    if i < 9 {
      GroupsSum(x, b, Pow128(i), 0);
      EarlierGroup(i + 1);
    } else if b >= 2 {
      GroupsSum(x, b - 2, TWO63, 0);
    }
  }

  lemma {:induction false} EarlierGroup(i: nat)
    requires i <= 9
    ensures 0 < Pow128(i) <= TWO63
    decreases 9 - i
  {
    NinthGroup(i);
    if i < 9 {
      EarlierGroup(i + 1);
      assert Pow128(i + 1) == Pow128(i) * 128;
    }
  }

  lemma {:induction false} GroupTaken(i: nat, x: nat, b: nat, more: nat, v: nat) returns (y: nat)
    requires b < 128 && x < Pow128(i) && v == x + Pow128(i) * (b + 128 * more)
    ensures y == x + b * Pow128(i) < Pow128(i + 1) && v == y + Pow128(i + 1) * more && (more == 0 ==> v == y)
  {
    GroupsSum(x, b, Pow128(i), more);
    y := x + b * Pow128(i);
  }

  lemma GroupSplits(bs: Bytes)
    requires IsVarint(bs)
    ensures VarintValue(bs) == bs[0] % 128 + 128 * VarintValue(bs[1..])
    ensures if |bs| == 1 then bs[0] < 128 && VarintValue(bs[1..]) == 0 else bs[0] >= 128 && IsVarint(bs[1..])
  {
    if |bs| > 1 { assert bs[1..][|bs| - 2] == bs[|bs| - 1]; }
  }

  /** What reading the groups of a varint that ends before `p` comes to. */
  predicate Comes(r: Varint, v: nat, p: nat)
  {
    if p <= 10 && v < 0x1_0000_0000_0000_0000 then r == Varint(v, p) else r.n <= 0
  }

  lemma {:induction false} LastGroup(buf: Bytes, i: nat, x: nat, y: nat)
    requires i < |buf| && i < 10 && x < Pow128(i) && buf[i] < 128 && y == x + buf[i] % 128 * Pow128(i)
    ensures Comes(ReadGroups(buf, i, x, Pow128(i)), y, i + 1)
  {
    LastFits(i, x, buf[i]);
  }

  lemma {:induction false} ReadOn(buf: Bytes, i: nat, x: nat, y: nat)
    requires i < |buf| && i < 10 && buf[i] >= 128 && y == x + buf[i] % 128 * Pow128(i)
    ensures ReadGroups(buf, i, x, Pow128(i)) == ReadGroups(buf, i + 1, y, Pow128(i + 1))
  {
  }

  lemma {:induction false} GroupsTell(buf: Bytes, i: nat, x: nat, p: nat, v: nat)
    requires i < p <= |buf| && i <= 10 && x < Pow128(i)
    requires IsVarint(buf[i..p]) && v == x + Pow128(i) * VarintValue(buf[i..p])
    ensures Comes(ReadGroups(buf, i, x, Pow128(i)), v, p)
    decreases p - i
  {
    var more := buf[i + 1..p];
    assert buf[i..p][0] == buf[i] && buf[i..p][1..] == more;
    GroupSplits(buf[i..p]);
    var y := GroupTaken(i, x, buf[i] % 128, VarintValue(more), v);
    if i == 10 {
    } else if p == i + 1 {
      LastGroup(buf, i, x, y);
    } else {
      ReadOn(buf, i, x, y);
      GroupsTell(buf, i + 1, y, p, v);
    }
  }

  lemma {:induction false} NoLastGroup(buf: Bytes, i: nat, x: nat, m: nat)
    requires forall j :: i <= j < |buf| ==> buf[j] >= 128
    ensures ReadGroups(buf, i, x, m).n <= 0
    decreases |buf| - i
  {
    if i < |buf| && i != 10 { NoLastGroup(buf, i + 1, x + (buf[i] - 128) * m, m * 128); }
  }

  /** Reading takes exactly the varints of at most ten groups that fit into 64 bits, with their values. */
  lemma {:induction false} TakenIsVarint(buf: Bytes, p: nat)
    requires p <= |buf| && IsVarint(buf[..p])
    ensures var v := VarintValue(buf[..p]);
            TakeUvarint(buf) == if p <= 10 && v < 0x1_0000_0000_0000_0000 then Some(Parsed(v, buf[p..])) else None
  {
    assert buf[0..p] == buf[..p];
    GroupsTell(buf, 0, 0, p, VarintValue(buf[..p]));
  }

  lemma {:induction false} FirstEnd(buf: Bytes, j: nat) returns (n: nat)
    requires j < |buf| && buf[j] < 128
    ensures n < |buf| && buf[n] < 128 && forall k :: 0 <= k < n ==> buf[k] >= 128
    decreases j
  {
    if k: nat :| k < j && buf[k] < 128 { n := FirstEnd(buf, k); } else { n := j; }
  }

  lemma EndOrNone(buf: Bytes)
    ensures (forall j :: 0 <= j < |buf| ==> buf[j] >= 128) || exists p: nat :: p <= |buf| && IsVarint(buf[..p])
  {
    if j: nat :| j < |buf| && buf[j] < 128 {
      var n := FirstEnd(buf, j);
      assert IsVarint(buf[..n + 1]);
    }
  }

  /** Where no varint begins nothing is read. */
  lemma NothingTaken(buf: Bytes)
    requires forall p: nat :: p <= |buf| ==> !IsVarint(buf[..p])
    ensures TakeUvarint(buf) == None
  {
    EndOrNone(buf);
    NoLastGroup(buf, 0, 0, 1);
  }

  // ---------- time stamps ----------

  /** A time stamp is written as twice its difference to the one before, or, when that is negative, twice its
      complement plus one. */
  lemma DeltaTells(ts: int64, prev: int64)
    ensures var d := ts - prev;
            -0x8000_0000_0000_0000 <= d < 0x8000_0000_0000_0000 ==>
              VarintValue(DeltaRecord(ts, prev)) == (if d >= 0 then 2 * d else 2 * (-1 - d) + 1)
    ensures IsVarint(DeltaRecord(ts, prev))
  {
    UvarintTells(ZigZag(Wrap64(ts - prev)));
    if -TWO63 <= ts - prev < TWO63 { InRangeIsKept(ts - prev); }
  }

  lemma InRangeIsKept(d: int)
    requires -TWO63 <= d < TWO63
    ensures Wrap64(d) == d && ZigZag(d) == if d >= 0 then 2 * d else 2 * (-1 - d) + 1
  {
  }

  // ---------- values ----------

  /** The k-th bit of a byte. */
  function Bit(b: nat, k: nat): nat
  {
    if k == 0 then b % 2 else Bit(b / 2, k - 1)
  }

  lemma {:induction false} XorBitsTell(a: nat, b: nat, n: nat, k: nat)
    requires k < n
    ensures Bit(XorBits(a, b, n), k) == if Bit(a, k) == Bit(b, k) then 0 else 1
  {
    var r := XorBits(a / 2, b / 2, n - 1);
    var bit := if a % 2 == b % 2 then 0 else 1;
    LowestBit(bit, r);
    if k == 0 {
    } else {
      XorBitsTell(a / 2, b / 2, n - 1, k - 1);
    }
  }

  lemma LowestBit(bit: nat, r: nat)
    requires bit < 2
    ensures (bit + 2 * r) % 2 == bit && (bit + 2 * r) / 2 == r
  {
  }

  /** A pattern is a difference of two if each of its bits says whether theirs differ. */
  ghost predicate IsDifference(x: Pattern, a: Pattern, b: Pattern)
  {
    forall i, k: nat :: 0 <= i < 8 && k < 8 ==> Bit(x[i], k) == if Bit(a[i], k) == Bit(b[i], k) then 0 else 1
  }

  lemma XorTells(a: Pattern, b: Pattern)
    ensures IsDifference(Xor(a, b), a, b)
  {
    forall i, k: nat | 0 <= i < 8 && k < 8
      ensures Bit(Xor(a, b)[i], k) == if Bit(a[i], k) == Bit(b[i], k) then 0 else 1 {
      XorBitsTell(a[i], b[i], 8, k);
    }
  }

  lemma UnchangedTells(v: Pattern)
    ensures XorRecord(v, v) == [0]
  {
    XorCancels(v, v);
  }

  /** A changed value: a one, the number of leading zero bytes of the difference, the number of bytes kept, and those
      bytes, of which neither the first nor the last is zero. */
  lemma ChangeTells(v: Pattern, prev: Pattern) returns (lead: byte, mid: Bytes, x: Pattern)
    requires v != prev
    ensures lead + |mid| <= 8 && XorRecord(v, prev) == [1, lead, |mid|] + mid
    ensures mid != [] && mid[0] != 0 && mid[|mid| - 1] != 0
    ensures x == Zeros(lead) + mid + Zeros(8 - lead - |mid|) && IsDifference(x, v, prev)
  {
    x := Xor(v, prev);
    XorCancels(v, prev);
    XorTells(v, prev);
    lead, mid := Middle(x);
    ShapeTells(lead, mid);
  }

  lemma {:induction false} LeadTells(x: Pattern, l: nat)
    requires l == LeadFrom(x, 0) && l < 8
    ensures x[l] != 0
  {
    LeadZeros(x, 0);
  }

  lemma {:induction false} TrailTells(x: Pattern, t: nat)
    requires t == TrailFrom(x, 0) && t < 8
    ensures x[7 - t] != 0
  {
    TrailZeros(x, 0);
  }

  lemma {:induction false} RecordIs(x: Pattern, l: nat, t: nat)
    requires !IsZero(x) && l == LeadFrom(x, 0) && t == TrailFrom(x, 0)
    ensures l + t < 8 && DiffRecord(x) == [1] + ShapeBytes(l, x[l..8 - t]) && x == Zeros(l) + x[l..8 - t] + Zeros(t)
  {
    SignificantBytes(x);
  }

  lemma EndsAreSet(x: Pattern, l: nat, t: nat)
    requires l == LeadFrom(x, 0) && t == TrailFrom(x, 0) && l + t < 8
    ensures var mid := x[l..8 - t]; |mid| == 8 - t - l && mid[0] != 0 && mid[|mid| - 1] != 0
  {
    LeadTells(x, l);
    TrailTells(x, t);
  }

  /** The significant bytes of a pattern and where they begin. */
  lemma Middle(x: Pattern) returns (l: nat, mid: Bytes)
    requires !IsZero(x)
    ensures l + |mid| <= 8 && mid != [] && mid[0] != 0 && mid[|mid| - 1] != 0
    ensures DiffRecord(x) == [1] + ShapeBytes(l, mid) && x == Zeros(l) + mid + Zeros(8 - l - |mid|)
  {
    l := LeadFrom(x, 0);
    var t := TrailFrom(x, 0);
    RecordIs(x, l, t);
    EndsAreSet(x, l, t);
    mid := x[l..8 - t];
    assert 8 - l - |mid| == t;
  }

  lemma ShapeTells(lead: byte, mid: Bytes)
    requires lead + |mid| <= 8
    ensures [1] + ShapeBytes(lead, mid) == [1, lead, |mid|] + mid
  {
    assert Uvarint(lead) == [lead] && Uvarint(|mid|) == [|mid|];
  }

  // ---------- the layout ----------

  function Concat(parts: seq<Bytes>): Bytes
  {
    if parts == [] then [] else parts[0] + Concat(parts[1..])
  }

  /** The records of a column, each relative to the entry before. */
  function Records<T>(w: Writer<T>, vs: seq<T>): seq<Bytes>
    requires vs != []
  {
    seq(|vs| - 1, i requires 0 <= i < |vs| - 1 => w(vs[i + 1], vs[i]))
  }

  lemma {:induction false} StreamIsRecords<T>(w: Writer<T>, vs: seq<T>)
    requires vs != []
    ensures StreamBytes(w, vs[0], vs[1..]) == Concat(Records(w, vs))
    decreases |vs|
  {
    if |vs| == 1 {
    } else {
      StreamIsRecords(w, vs[1..]);
      assert vs[1..][1..] == vs[2..] && vs[1..][0] == vs[1];
      assert Records(w, vs)[1..] == Records(w, vs[1..]);
    }
  }

  /** Bytes in the reverse order: a little-endian number. */
  ghost predicate Flipped(a: Bytes, b: Bytes)
  {
    |a| == |b| && forall i :: 0 <= i < |a| ==> a[i] == b[|b| - 1 - i]
  }

  /** A chunk is its version, its first time stamp, the differences of the others, its first values in little-endian
      order and the records of the others, value by value. */
  lemma LayoutTells(tss: seq<int64>, avg: seq<Pattern>, max: seq<Pattern>, agg: bool)
      returns (start: Bytes, first: Bytes)
    requires |tss| == |avg| > 0 && |max| > 0 && (agg ==> |max| == |avg|)
    ensures var rows := Rows(avg, if agg then max else [], agg);
            Encoded(tss, avg, max, agg)
            == [1] + start + Concat(Records(DeltaRecord, tss)) + first + Concat(Records(RowRecord, rows))
    ensures IsVarint(start) && VarintValue(start) == (tss[0] as int) % 0x1_0000_0000_0000_0000
    ensures if agg then |first| == 16 && Flipped(first[..8], avg[0]) && Flipped(first[8..], max[0])
            else Flipped(first, avg[0])
  {
    assert agg ==> tss[..|tss|] == tss && avg[..|tss|] == avg && max[..|tss|] == max;
    var rows := Rows(avg, if agg then max else [], agg);
    StreamIsRecords(DeltaRecord, tss);
    StreamIsRecords(RowRecord, rows);
    start, first := Uvarint(Unsigned(tss[0])), FirstBytes(rows[0]);
    UvarintTells(Unsigned(tss[0]));
  }

  /** A row's record is that of its value, and in an aggregate chunk that of its maximum behind it. */
  lemma RowTells(a: Pattern, m: Pattern, b: Pattern, n: Pattern)
    ensures RowRecord(Row(a, None), Row(b, None)) == XorRecord(a, b)
    ensures RowRecord(Row(a, Some(m)), Row(b, Some(n))) == XorRecord(a, b) + XorRecord(m, n)
  {
  }
}
