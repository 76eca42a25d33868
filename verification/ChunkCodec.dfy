/** The chunk encoding: zigzag varint time deltas, then byte-aligned XOR values. */
module ChunkCodec {
  import opened Ordering
  import opened ByteCodec
  import opened StreamCodec

  const ENCODE_VERSION: byte := 1

  /** Two's complement truncation to 64 bits. */
  function Wrap64(x: int): int64
  {
    var m := x % TWO64;
    if m < TWO63 then m else m - TWO64
  }

  /** uint64(x) of an int64. */
  function Unsigned(x: int64): uint64 { x % TWO64 }

  /** uint64(x)<<1, complemented for negative x. */
  function ZigZag(x: int64): uint64
  {
    if x >= 0 then 2 * x else -2 * x - 1
  }

  function UnZigZag(u: nat): int
  {
    if u % 2 == 0 then u / 2 else -(u / 2) - 1
  }

  // ---------- time stamps ----------

  function DeltaRecord(ts: int64, prev: int64): Bytes
  {
    Uvarint(ZigZag(Wrap64(ts - prev)))
  }

  function TakeDelta(buf: Bytes, prev: int64): Option<Parsed<int64>>
  {
    var u := TakeUvarint(buf);
    if u.None? then None else Some(Parsed(Wrap64(prev + UnZigZag(u.value.value)), u.value.rest))
  }

  function AnyTime(ts: int64): bool { true }

  /** Subtracting and adding back modulo 2^64 is the identity on 64-bit integers, even when the difference wraps. */
  lemma DeltaCancels(ts: int64, prev: int64)
    ensures Wrap64(prev + UnZigZag(ZigZag(Wrap64(ts - prev)))) == ts
  {
    assert UnZigZag(ZigZag(Wrap64(ts - prev))) == Wrap64(ts - prev);
  }

  lemma DeltasAreSelfDelimiting()
    ensures SelfDelimiting(DeltaRecord, TakeDelta, AnyTime)
  {
    forall ts: int64, prev: int64, rest
      ensures TakeDelta(DeltaRecord(ts, prev) + rest, prev) == Some(Parsed(ts, rest)) {
      TakeUvarintRoundTrip(ZigZag(Wrap64(ts - prev)), rest);
      DeltaCancels(ts, prev);
    }
  }

  // ---------- values ----------

  /** One row of the value columns; only the aggregate encoding has a maximum. */
  datatype Row = Row(avg: Pattern, max: Option<Pattern>)

  function RowRecord(v: Row, prev: Row): Bytes
  {
    if v.max.Some? && prev.max.Some? then XorRecord(v.avg, prev.avg) + XorRecord(v.max.value, prev.max.value)
    else XorRecord(v.avg, prev.avg)
  }

  function TakeRow(buf: Bytes, prev: Row): Option<Parsed<Row>>
  {
    var a := TakeXor(buf, prev.avg);
    if a.None? then None
    else if prev.max.None? then Some(Parsed(Row(a.value.value, None), a.value.rest))
    else
      var m := TakeXor(a.value.rest, prev.max.value);
      if m.None? then None else Some(Parsed(Row(a.value.value, Some(m.value.value)), m.value.rest))
  }

  function OfKind(agg: bool): Row -> bool
  {
    (row: Row) => row.max.Some? == agg
  }

  lemma RowRoundTrip(v: Row, prev: Row, rest: Bytes)
    requires v.max.Some? == prev.max.Some?
    ensures TakeRow(RowRecord(v, prev) + rest, prev) == Some(Parsed(v, rest))
  {
    if v.max.Some? {
      var tail := XorRecord(v.max.value, prev.max.value) + rest;
      assert RowRecord(v, prev) + rest == XorRecord(v.avg, prev.avg) + tail;
      XorRoundTrip(v.avg, prev.avg, tail);
      XorRoundTrip(v.max.value, prev.max.value, rest);
    } else {
      XorRoundTrip(v.avg, prev.avg, rest);
    }
  }

  lemma RowsAreSelfDelimiting(agg: bool)
    ensures SelfDelimiting(RowRecord, TakeRow, OfKind(agg))
  {
    forall v, prev, rest | OfKind(agg)(v) && OfKind(agg)(prev)
      ensures TakeRow(RowRecord(v, prev) + rest, prev) == Some(Parsed(v, rest))
    {
      RowRoundTrip(v, prev, rest);
    }
  }

  /** The rows of the value columns. */
  function Rows(avg: seq<Pattern>, max: seq<Pattern>, agg: bool): seq<Row>
    requires agg ==> |max| == |avg|
  {
    seq(|avg|, i requires 0 <= i < |avg| => Row(avg[i], if agg then Some(max[i]) else None))
  }

  /** The first values are stored whole, low byte first. */
  function FirstBytes(row: Row): Bytes
  {
    if row.max.Some? then LittleEndian(row.avg) + LittleEndian(row.max.value) else LittleEndian(row.avg)
  }

  function TakeFirst(buf: Bytes, agg: bool): Option<Parsed<Row>>
  {
    if |buf| < 8 then None
    else if !agg then Some(Parsed(Row(Reversed(buf[..8]), None), buf[8..]))
    else if |buf| < 16 then None
    else Some(Parsed(Row(Reversed(buf[..8]), Some(Reversed(buf[8..16]))), buf[16..]))
  }

  lemma FirstRoundTrip(row: Row, rest: Bytes)
    ensures TakeFirst(FirstBytes(row) + rest, row.max.Some?) == Some(Parsed(row, rest))
  {
    assert Reversed(LittleEndian(row.avg)) == row.avg;
    var buf := FirstBytes(row) + rest;
    assert buf[..8] == LittleEndian(row.avg);
    if row.max.Some? {
      assert Reversed(LittleEndian(row.max.value)) == row.max.value;
      assert buf[8..16] == LittleEndian(row.max.value) && buf[16..] == rest;
    } else {
      assert buf[8..] == rest;
    }
  }

  // ---------- writing ----------

  function ChunkBytes(tss: seq<int64>, rows: seq<Row>): Bytes
    requires |tss| > 0 && |rows| > 0
  {
    [ENCODE_VERSION] + Uvarint(Unsigned(tss[0])) + StreamBytes(DeltaRecord, tss[0], tss[1..])
    + FirstBytes(rows[0]) + StreamBytes(RowRecord, rows[0], rows[1..])
  }

  /** The common length that the aggregate encoding cuts its three columns to. */
  function CommonLength(tss: seq<int64>, avg: seq<Pattern>, max: seq<Pattern>): nat
  {
    Min(|tss|, Min(|avg|, |max|))
  }

  function Encoded(tss: seq<int64>, avg: seq<Pattern>, max: seq<Pattern>, agg: bool): Bytes
    requires |tss| > 0 && |avg| > 0 && |max| > 0
  {
    if !agg then ChunkBytes(tss, Rows(avg, [], false))
    else
      var n := CommonLength(tss, avg, max);
      ChunkBytes(tss[..n], Rows(avg[..n], max[..n], true))
  }

  method EncodeChunk(tss0: seq<int64>, avg0: seq<Pattern>, max0: seq<Pattern>, agg: bool) returns (out: Bytes)
    requires |tss0| > 0 && |avg0| > 0 && |max0| > 0
    ensures out == Encoded(tss0, avg0, max0, agg)
  {
    var tss, avg, max := tss0, avg0, max0;
    if agg && (|max| != |avg| || |tss| != |avg|) {
      var n := CommonLength(tss, avg, max);
      tss, avg, max := tss[..n], avg[..n], max[..n];
    } else if agg {
      assert tss[..|tss|] == tss && avg[..|tss|] == avg && max[..|tss|] == max;
    }
    ghost var rows := Rows(avg, if agg then max else [], agg);
    out := [ENCODE_VERSION];
    out := out + Uvarint(Unsigned(tss[0]));
    out := AppendDeltas(out, tss);
    ghost var times := out;
    out := out + LittleEndian(avg[0]);
    if agg { out := out + LittleEndian(max[0]); }
    assert out == times + FirstBytes(rows[0]);
    out := AppendRows(out, avg, max, agg);
  }

  method AppendDeltas(out0: Bytes, tss: seq<int64>) returns (out: Bytes)
    requires |tss| > 0
    ensures out == out0 + StreamBytes(DeltaRecord, tss[0], tss[1..])
  {
    out := out0;
    var prevTS: int64 := tss[0];
    for i := 1 to |tss|
      invariant prevTS == tss[i - 1]
      invariant out + StreamBytes(DeltaRecord, prevTS, tss[i..]) == out0 + StreamBytes(DeltaRecord, tss[0], tss[1..])
    {
      NextRecord(DeltaRecord, out, prevTS, tss, i);
      out := out + Uvarint(ZigZag(Wrap64(tss[i] - prevTS)));
      prevTS := tss[i];
    }
  }

  method AppendRows(out0: Bytes, avg: seq<Pattern>, max: seq<Pattern>, agg: bool) returns (out: Bytes)
    requires |avg| > 0 && |max| > 0 && (agg ==> |max| == |avg|)
    ensures var rows := Rows(avg, if agg then max else [], agg);
            out == out0 + StreamBytes(RowRecord, rows[0], rows[1..])
  {
    ghost var rows := Rows(avg, if agg then max else [], agg);
    out := out0;
    var prevA: Pattern, prevM: Pattern := avg[0], max[0];
    for i := 1 to |avg|
      invariant Row(prevA, if agg then Some(prevM) else None) == rows[i - 1]
      invariant out + StreamBytes(RowRecord, rows[i - 1], rows[i..])
                == out0 + StreamBytes(RowRecord, rows[0], rows[1..])
    {
      NextRecord(RowRecord, out, rows[i - 1], rows, i);
      out, prevA, prevM := AppendRow(out, avg[i], if agg then max[i] else prevM, prevA, prevM, agg);
    }
  }

  method AppendRow(out: Bytes, a: Pattern, m: Pattern, prevA: Pattern, prevM: Pattern, agg: bool)
      returns (out': Bytes, prevA': Pattern, prevM': Pattern)
    ensures out' == out + RowRecord(Row(a, if agg then Some(m) else None),
            Row(prevA, if agg then Some(prevM) else None))
    ensures prevA' == a && prevM' == if agg then m else prevM
  {
    prevM' := prevM;
    out', prevA' := AppendXor(out, a, prevA);
    if agg {
      SumOfThree(out, XorRecord(a, prevA), XorRecord(m, prevM));
      out', prevM' := AppendXor(out', m, prevM);
    }
  }

  lemma SumOfThree(a: Bytes, b: Bytes, c: Bytes)
    ensures (a + b) + c == a + (b + c)
  {
  }

  // ---------- reading ----------

  datatype Chunk = Chunk(tss: seq<int64>, avg: seq<Pattern>, max: seq<Pattern>)

  function Averages(rows: seq<Row>): seq<Pattern>
  {
    if rows == [] then [] else Averages(rows[..|rows| - 1]) + [rows[|rows| - 1].avg]
  }

  function Maxima(rows: seq<Row>): seq<Pattern>
  {
    if rows == [] then []
    else Maxima(rows[..|rows| - 1]) + (if rows[|rows| - 1].max.Some? then [rows[|rows| - 1].max.value] else [])
  }

  /** The first row and the records after it. */
  function TakeRows(take: Reader<Row>, buf: Bytes, agg: bool, k: nat): Option<Parsed<seq<Row>>>
  {
    var first := TakeFirst(buf, agg);
    if first.None? then None
    else TakeStream(take, first.value.rest, first.value.value, k, [first.value.value])
  }

  function TakeTimes(buf: Bytes, k: nat): Option<Parsed<seq<int64>>>
  {
    var first := TakeUvarint(buf);
    if first.None? then None
    else
      var ts := Wrap64(first.value.value);
      TakeStream(TakeDelta, first.value.rest, ts, k, [ts])
  }

  function Decoded(data: Bytes, points: int, agg: bool): Option<Chunk>
  {
    if |data| == 0 || data[0] != ENCODE_VERSION || points <= 0 then None
    else
      var times := TakeTimes(data[1..], points - 1);
      if times.None? then None
      else
        var rows := TakeRows(TakeRow, times.value.rest, agg, points - 1);
        if rows.None? then None
        else Some(Chunk(times.value.value, Averages(rows.value.value), Maxima(rows.value.value)))
  }

  method DecodeChunk(data: Bytes, points: int, agg: bool) returns (d: Option<Chunk>)
    ensures d == Decoded(data, points, agg)
  {
    if |data| == 0 || data[0] != ENCODE_VERSION || points <= 0 { return None; }
    var times := ReadTimes(data, 1, points);
    if times.None? { return None; }
    var (tss, pos) := times.value;
    var values := ReadRows(data, pos, agg, points, TakeRow);
    if values.None? { return None; }
    return Some(Chunk(tss, values.value.0, values.value.1));
  }

  method ReadTimes(data: Bytes, pos0: nat, points: nat) returns (r: Option<(seq<int64>, nat)>)
    requires pos0 <= |data| && points > 0
    ensures AtCursor(data, r, TakeTimes(data[pos0..], points - 1))
  {
    var u := ReadUvarint(data[pos0..]);
    if u.n <= 0 { return None; }
    ReadStaysInside(data[pos0..], 0, 0, 1);
    Deeper(data, pos0, u.n);
    var pos: nat := pos0 + u.n;
    var ts: int64 := Wrap64(u.value);
    var tss: seq<int64> := [ts];
    ghost var all := TakeStream(TakeDelta, data[pos..], ts, points - 1, [ts]);
    for i := 1 to points
      invariant pos <= |data| && TakeStream(TakeDelta, data[pos..], ts, points - i, tss) == all
    {
      var delta := ReadDelta(data, pos, ts);
      if delta.None? { return None; }
      ts, pos := delta.value.0, delta.value.1;
      tss := tss + [ts];
    }
    return Some((tss, pos));
  }

  method ReadDelta(data: Bytes, pos: nat, prev: int64) returns (r: Option<(int64, nat)>)
    requires pos <= |data|
    ensures AtCursor(data, r, TakeDelta(data[pos..], prev))
  {
    var delta := ReadUvarint(data[pos..]);
    if delta.n <= 0 { return None; }
    ReadStaysInside(data[pos..], 0, 0, 1);
    Deeper(data, pos, delta.n);
    return Some((Wrap64(prev + UnZigZag(delta.value)), pos + delta.n));
  }

  /** The function takes rows. Loops use it by this name, which keeps the layout of a row out of their proofs. */
  ghost predicate TakesRows(take: Reader<Row>)
  {
    forall buf, prev {:trigger TakeRow(buf, prev)} :: take(buf, prev) == TakeRow(buf, prev)
  }

  method ReadRows(data: Bytes, pos0: nat, agg: bool, points: nat, ghost take: Reader<Row>)
      returns (r: Option<(seq<Pattern>, seq<Pattern>)>)
    requires pos0 <= |data| && points > 0 && TakesRows(take)
    ensures var rows := TakeRows(take, data[pos0..], agg, points - 1);
            r == if rows.None? then None else Some((Averages(rows.value.value), Maxima(rows.value.value)))
  {
    var first := ReadFirst(data, pos0, agg);
    if first.None? { return None; }
    r := ReadRest(data, first.value.1, first.value.0, points - 1, take);
  }

  /** The rows after the first. */
  method ReadRest(data: Bytes, pos0: nat, first: Row, more: nat, ghost take: Reader<Row>)
      returns (r: Option<(seq<Pattern>, seq<Pattern>)>)
    requires pos0 <= |data| && TakesRows(take)
    ensures var rows := TakeStream(take, data[pos0..], first, more, [first]);
            r == if rows.None? then None else Some((Averages(rows.value.value), Maxima(rows.value.value)))
  {
    var prev: Row, pos: nat := first, pos0;
    var avg, max := [prev.avg], if prev.max.Some? then [prev.max.value] else [];
    ghost var rows, left := [prev], more;
    AppendedColumns([], prev);
    ghost var all := TakeStream(take, data[pos..], prev, left, rows);
    for i := 0 to more
      invariant left == more - i && pos <= |data| && TakeStream(take, data[pos..], prev, left, rows) == all
      invariant avg == Averages(rows) && max == Maxima(rows)
    {
      var row := ReadRow(data, pos, prev, take);
      NextTaken(take, data, pos, prev, left, rows, row);
      if row.None? { return None; }
      prev, pos := row.value.0, row.value.1;
      avg := avg + [prev.avg];
      if prev.max.Some? { max := max + [prev.max.value]; }
      AppendedColumns(rows, prev);
      rows, left := rows + [prev], left - 1;
    }
    return Some((avg, max));
  }

  lemma {:induction false} AppendedColumns(rows: seq<Row>, row: Row)
    ensures Averages(rows + [row]) == Averages(rows) + [row.avg]
    ensures Maxima(rows + [row]) == if row.max.Some? then Maxima(rows) + [row.max.value] else Maxima(rows)
  {
    assert (rows + [row])[..|rows|] == rows;
  }

  method ReadRow(data: Bytes, pos: nat, prev: Row, ghost take: Reader<Row>) returns (r: Option<(Row, nat)>)
    requires pos <= |data| && TakesRows(take)
    ensures AtCursor(data, r, take(data[pos..], prev))
  {
    assert take(data[pos..], prev) == TakeRow(data[pos..], prev);
    var a := ReadXor(data, pos, prev.avg);
    if a.None? { return None; }
    if prev.max.None? { return Some((Row(a.value.0, None), a.value.1)); }
    var m := ReadXor(data, a.value.1, prev.max.value);
    if m.None? { return None; }
    return Some((Row(a.value.0, Some(m.value.0)), m.value.1));
  }

  method ReadFirst(data: Bytes, pos0: nat, agg: bool) returns (r: Option<(Row, nat)>)
    requires pos0 <= |data|
    ensures AtCursor(data, r, TakeFirst(data[pos0..], agg))
    ensures r.Some? ==> r.value.0.max.Some? == agg
  {
    var pos := pos0;
    if pos + 8 > |data| { return None; }
    var a := Reversed(data[pos..pos + 8]);
    assert data[pos..pos + 8] == data[pos0..][..8];
    Deeper(data, pos, 8);
    pos := pos + 8;
    if !agg { return Some((Row(a, None), pos)); }
    if pos + 8 > |data| { return None; }
    assert data[pos..pos + 8] == data[pos0..][8..16];
    Deeper(data, pos0, 16);
    return Some((Row(a, Some(Reversed(data[pos..pos + 8]))), pos + 8));
  }

  // ---------- the round trip ----------

  lemma TimesRoundTrip(tss: seq<int64>, rest: Bytes)
    requires |tss| > 0
    ensures TakeTimes(Uvarint(Unsigned(tss[0])) + (StreamBytes(DeltaRecord, tss[0], tss[1..]) + rest), |tss| - 1)
            == Some(Parsed(tss, rest))
  {
    var deltas := StreamBytes(DeltaRecord, tss[0], tss[1..]);
    TakeUvarintRoundTrip(Unsigned(tss[0]), deltas + rest);
    assert Wrap64(Unsigned(tss[0])) == tss[0];
    DeltasAreSelfDelimiting();
    StreamRoundTrip(DeltaRecord, TakeDelta, AnyTime, tss[0], tss[1..], [tss[0]], rest);
    assert [tss[0]] + tss[1..] == tss;
  }

  lemma RowsRoundTrip(rows: seq<Row>, agg: bool)
    requires |rows| > 0 && forall i :: 0 <= i < |rows| ==> rows[i].max.Some? == agg
    ensures TakeRows(TakeRow, FirstBytes(rows[0]) + StreamBytes(RowRecord, rows[0], rows[1..]), agg, |rows| - 1)
            == Some(Parsed(rows, []))
  {
    var records := StreamBytes(RowRecord, rows[0], rows[1..]);
    FirstRoundTrip(rows[0], records);
    RowsAreSelfDelimiting(agg);
    StreamRoundTrip(RowRecord, TakeRow, OfKind(agg), rows[0], rows[1..], [rows[0]], []);
    assert records + [] == records;
    assert [rows[0]] + rows[1..] == rows;
  }

  lemma {:induction false} ChunkBytesRoundTrip(tss: seq<int64>, rows: seq<Row>, agg: bool)
    requires |tss| == |rows| > 0 && forall i :: 0 <= i < |rows| ==> rows[i].max.Some? == agg
    ensures Decoded(ChunkBytes(tss, rows), |tss|, agg) == Some(Chunk(tss, Averages(rows), Maxima(rows)))
  {
    var times, first, records := StreamBytes(DeltaRecord, tss[0], tss[1..]), FirstBytes(rows[0]),
      StreamBytes(RowRecord, rows[0], rows[1..]);
    Layout(Uvarint(Unsigned(tss[0])), times, first, records);
    TimesRoundTrip(tss, first + records);
    RowsRoundTrip(rows, agg);
    DecodedIs(ChunkBytes(tss, rows), tss, rows, agg, first + records);
  }

  lemma Layout(a: Bytes, b: Bytes, c: Bytes, d: Bytes)
    ensures var data := [ENCODE_VERSION] + a + b + c + d;
            data[0] == ENCODE_VERSION && data[1..] == a + (b + (c + d))
  {
  }

  lemma {:induction false} DecodedIs(data: Bytes, tss: seq<int64>, rows: seq<Row>, agg: bool, columns: Bytes)
    requires |data| > 0 && data[0] == ENCODE_VERSION && |tss| > 0
    requires TakeTimes(data[1..], |tss| - 1) == Some(Parsed(tss, columns))
    requires TakeRows(TakeRow, columns, agg, |tss| - 1) == Some(Parsed(rows, []))
    ensures Decoded(data, |tss|, agg) == Some(Chunk(tss, Averages(rows), Maxima(rows)))
  {
  }

  lemma {:induction false} ColumnsOfRows(avg: seq<Pattern>, max: seq<Pattern>, agg: bool)
    requires agg ==> |max| == |avg|
    ensures Averages(Rows(avg, max, agg)) == avg
    ensures Maxima(Rows(avg, max, agg)) == if agg then max else []
    decreases |avg|
  {
    if avg == [] {
    } else {
      var n := |avg| - 1;
      var less := if agg then max[..n] else max;
      ColumnsOfRows(avg[..n], less, agg);
      assert Rows(avg, max, agg)[..n] == Rows(avg[..n], less, agg);
      assert avg == avg[..n] + [avg[n]] && (agg ==> max == max[..n] + [max[n]]);
    }
  }

  /** Decoding an encoded chunk with its point count gives back exactly its columns. */
  lemma ChunkRoundTrip(tss: seq<int64>, avg: seq<Pattern>, max: seq<Pattern>, agg: bool)
    requires |tss| == |avg| > 0 && |max| > 0 && (agg ==> |max| == |avg|)
    ensures Decoded(Encoded(tss, avg, max, agg), |tss|, agg) == Some(Chunk(tss, avg, if agg then max else []))
  {
    var cols := if agg then max else [];
    assert agg ==> tss[..|tss|] == tss && avg[..|tss|] == avg && max[..|tss|] == max;
    ColumnsOfRows(avg, cols, agg);
    ChunkBytesRoundTrip(tss, Rows(avg, cols, agg), agg);
  }
}
