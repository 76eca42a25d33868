/** The chunk table: rows that hold the points of one hour of a series, and point lists read as maps. */
module ChunkTable {
  import opened Ordering
  import opened ByteCodec
  import opened ChunkCodec
  import opened Buckets

  const HOUR_MS := 3_600_000  // rawChunkWindow
  const DAY_MS := 86_400_000
  const TIER_RAW := 0
  const TIER_AGG := 1

  /** A series is named by its metric, its label set and its tier; equal names have equal ids. */
  datatype SeriesKey = SeriesKey(metric: string, labels: map<string, string>, tier: int)
  datatype Sample = Sample(metric: string, labels: map<string, string>, value: Pattern, ts: int)

  /** A row of ts_chunk. */
  datatype ChunkRow = ChunkRow(series: SeriesKey, start: int, end: int, points: nat, data: Bytes)
  /** A row of ts_series. */
  datatype SeriesRow = SeriesRow(lastTs: int, lastValue: Pattern)

  type Points = seq<Point<Pattern>>
  /** A series and an hour. */
  type Slot = (SeriesKey, int)

  function RawKey(s: Sample): SeriesKey { SeriesKey(s.metric, s.labels, TIER_RAW) }

  function Hour(ts: int): int { ts / HOUR_MS }

  // ---------- point lists as maps ----------

  /** The points written over `m`, later ones replacing earlier ones. */
  function Overlay(m: map<int, Pattern>, pts: Points): map<int, Pattern>
  {
    if pts == [] then m else Overlay(m, pts[..|pts| - 1])[pts[|pts| - 1].ts := pts[|pts| - 1].v]
  }

  function ToMap(pts: Points): map<int, Pattern> { Overlay(map[], pts) }

  function Get(m: map<int, Pattern>, ts: int): Option<Pattern>
  {
    if ts in m then Some(m[ts]) else None
  }

  lemma {:induction false} OverlayNext(m: map<int, Pattern>, pts: Points, p: Point<Pattern>)
    ensures Overlay(m, pts + [p]) == Overlay(m, pts)[p.ts := p.v]
  {
    assert (pts + [p])[..|pts|] == pts;
  }

  lemma {:induction false} SortedMap(pts: Points)
    requires StrictlyIncreasing(TimesOf(pts))
    ensures forall i :: 0 <= i < |pts| ==> Get(ToMap(pts), pts[i].ts) == Some(pts[i].v)
    ensures forall ts :: ts in ToMap(pts) ==> ts in TimesOf(pts)
  {
    if pts == [] {
    } else {
      var n := |pts| - 1;
      assert TimesOf(pts[..n]) == TimesOf(pts)[..n];
      SortedMap(pts[..n]);
      assert TimesOf(pts)[n] == pts[n].ts;
      forall i | 0 <= i < n ensures pts[i].ts != pts[n].ts { assert TimesOf(pts)[i] < TimesOf(pts)[n]; }
      forall ts | ts in ToMap(pts) ensures ts in TimesOf(pts) {
        if ts != pts[n].ts { assert ts in TimesOf(pts[..n]); }
      }
    }
  }

  /** A point of another window does not show in the overlay of this window's members, nor do they in it. */
  lemma {:induction false} OverlayByWindow(m: map<int, Pattern>, pts: Points, key: Key, b: int, ts: int)
    ensures Get(Overlay(m, Members(pts, b, key)), ts) == if key(ts) == b then Get(Overlay(m, pts), ts) else Get(m, ts)
  {
    if pts == [] {
    } else {
      var n := |pts| - 1;
      OverlayByWindow(m, pts[..n], key, b, ts);
      assert pts == pts[..n] + [pts[n]];
      MembersNext(pts[..n], pts[n], b, key);
      OverlayNext(m, Members(pts[..n], b, key), pts[n]);
    }
  }

  lemma {:induction false} OverlayOver(m: map<int, Pattern>, n: map<int, Pattern>, pts: Points, ts: int)
    requires Get(m, ts) == Get(n, ts)
    ensures Get(Overlay(m, pts), ts) == Get(Overlay(n, pts), ts)
  {
    if pts == [] {
    } else {
      OverlayOver(m, n, pts[..|pts| - 1], ts);
    }
  }

  lemma {:induction false} OverlayKeeps(m: map<int, Pattern>, pts: Points, ts: int)
    requires forall i :: 0 <= i < |pts| ==> pts[i].ts != ts
    ensures Get(Overlay(m, pts), ts) == Get(m, ts)
  {
    if pts == [] {
    } else {
      OverlayKeeps(m, pts[..|pts| - 1], ts);
    }
  }

  lemma {:induction false} OverlayKeys(m: map<int, Pattern>, pts: Points, ts: int)
    requires ts in Overlay(m, pts)
    ensures ts in m || exists i :: 0 <= i < |pts| && pts[i].ts == ts
  {
    if pts == [] || pts[|pts| - 1].ts == ts {
    } else {
      OverlayKeys(m, pts[..|pts| - 1], ts);
    }
  }

  // ---------- chunk rows ----------

  /** The row decodes to exactly `pts`, in time order, all within one hour, and its bounds are theirs. */
  ghost predicate Holds(c: ChunkRow, pts: Points)
  {
    && |pts| > 0 && c.points == |pts| && StrictlyIncreasing(TimesOf(pts))
    && c.start == pts[0].ts && c.end == pts[|pts| - 1].ts
    && 0 <= c.start && Hour(c.start) == Hour(c.end)
    && Decodes(c, pts)
  }

  predicate Payload(c: ChunkRow, data: Bytes) { c.data == data }

  /** Stated over every payload, so that the decoder is looked into only where a payload is named. */
  ghost predicate Decodes(c: ChunkRow, pts: Points)
  {
    && (forall i :: 0 <= i < |pts| ==> 0 <= pts[i].ts < TWO63)
    && forall data {:trigger Payload(c, data)} :: Payload(c, data)
        ==> Decoded(data, c.points, false) == Some(Chunk(TimesOf(pts), ValuesOf(pts), []))
  }

  function ValuesOf(pts: Points): seq<Pattern>
  {
    seq(|pts|, i requires 0 <= i < |pts| => pts[i].v)
  }

  lemma HoldsBounds(c: ChunkRow, pts: Points)
    requires Holds(c, pts)
    ensures forall i :: 0 <= i < |pts| ==> c.start <= pts[i].ts <= c.end && Hour(pts[i].ts) == Hour(c.start)
  {
    var t := TimesOf(pts);
    forall i | 0 <= i < |pts| ensures c.start <= pts[i].ts <= c.end {
      assert t[0] <= t[i] <= t[|pts| - 1];
    }
  }

  function SlotOf(c: ChunkRow): Slot { (c.series, Hour(c.start)) }

  /** One row per slot and one slot per row. */
  ghost predicate OneRowPerHour(chunks: map<nat, ChunkRow>, idOf: map<Slot, nat>)
  {
    && (forall s {:trigger idOf[s]} :: s in idOf ==> idOf[s] in chunks && SlotOf(chunks[idOf[s]]) == s)
    && (forall id {:trigger SlotOf(chunks[id])} :: id in chunks
         ==> SlotOf(chunks[id]) in idOf && idOf[SlotOf(chunks[id])] == id)
  }

  type RowCheck = (ChunkRow, Points) -> bool

  ghost predicate RowsFit(chunks: map<nat, ChunkRow>, lists: map<Slot, Points>, idOf: map<Slot, nat>, fits: RowCheck)
  {
    && idOf.Keys == lists.Keys
    && forall s {:trigger lists[s]} :: s in idOf ==> idOf[s] in chunks && fits(chunks[idOf[s]], lists[s])
  }

  /** The chunk table: one row per slot, each holding its slot's list. */
  ghost predicate Table(chunks: map<nat, ChunkRow>, lists: map<Slot, Points>, idOf: map<Slot, nat>)
  {
    OneRowPerHour(chunks, idOf) && RowsFit(chunks, lists, idOf, Holds)
  }

  /** The points of one hour of a series, as a map. */
  ghost function Block(lists: map<Slot, Points>, s: Slot): map<int, Pattern>
  {
    if s in lists then ToMap(lists[s]) else map[]
  }

  /** What the chunks say about a time stamp of a series. */
  ghost function At(lists: map<Slot, Points>, k: SeriesKey, ts: int): Option<Pattern>
  {
    Get(Block(lists, (k, Hour(ts))), ts)
  }

  predicate Overlaps(c: ChunkRow, k: SeriesKey, from: int, to: int)
  {
    c.series == k && c.start <= to && c.end >= from
  }

  /** A row overlaps an hour only if that is its own hour. */
  lemma OverlapIsSameHour(c: ChunkRow, pts: Points, h: int)
    requires Holds(c, pts)
    ensures Overlaps(c, c.series, h * HOUR_MS, h * HOUR_MS + HOUR_MS - 1) <==> Hour(c.start) == h
  {
  }

  // ---------- storing a rewritten chunk ----------

  lemma SlotStored(chunks: map<nat, ChunkRow>, lists: map<Slot, Points>, idOf: map<Slot, nat>, id: nat, c: ChunkRow,
                   pts: Points, fits: RowCheck)
    requires OneRowPerHour(chunks, idOf) && RowsFit(chunks, lists, idOf, fits) && fits(c, pts)
    requires if SlotOf(c) in idOf then id == idOf[SlotOf(c)] else id !in chunks
    ensures OneRowPerHour(chunks[id := c], idOf[SlotOf(c) := id])
    ensures RowsFit(chunks[id := c], lists[SlotOf(c) := pts], idOf[SlotOf(c) := id], fits)
  {
    var s := SlotOf(c);
    var next, nextIds := chunks[id := c], idOf[s := id];
    forall t | t in nextIds ensures nextIds[t] in next && SlotOf(next[nextIds[t]]) == t {
      if t != s { assert idOf[t] in chunks && SlotOf(chunks[idOf[t]]) == t; }
    }
    forall j | j in next ensures SlotOf(next[j]) in nextIds && nextIds[SlotOf(next[j])] == j {
      if j != id { assert SlotOf(chunks[j]) in idOf && idOf[SlotOf(chunks[j])] == j; }
    }
    forall t | t in nextIds ensures fits(next[nextIds[t]], lists[s := pts][t]) {
      if t != s { assert fits(chunks[idOf[t]], lists[t]) && SlotOf(chunks[idOf[t]]) == t; }
    }
  }

  /** A sound chunk table of raw series with `nextId` not yet used. */
  ghost predicate GoodTable(chunks: map<nat, ChunkRow>, nextId: nat, lists: map<Slot, Points>, idOf: map<Slot, nat>)
  {
    && Table(chunks, lists, idOf)
    && (forall id :: id in chunks ==> id < nextId)
    && (forall s {:trigger lists[s]} :: s in lists ==> s.0.tier == TIER_RAW)
  }

  lemma GoodTableStored(chunks: map<nat, ChunkRow>, nextId: nat, lists: map<Slot, Points>, idOf: map<Slot, nat>,
                        c: ChunkRow, pts: Points,
                        replaced: seq<nat>)
    requires GoodTable(chunks, nextId, lists, idOf) && Holds(c, pts) && c.series.tier == TIER_RAW
    requires replaced == if SlotOf(c) in idOf then [idOf[SlotOf(c)]] else []
    ensures var id := if |replaced| > 0 then replaced[0] else nextId;
            GoodTable(chunks[id := c], if |replaced| > 0 then nextId else nextId + 1, lists[SlotOf(c) := pts],
              idOf[SlotOf(c) := id])
  {
    var id := if SlotOf(c) in idOf then idOf[SlotOf(c)] else nextId;
    SlotStored(chunks, lists, idOf, id, c, pts, Holds);
    var next := lists[SlotOf(c) := pts];
    forall s | s in next ensures s.0.tier == TIER_RAW {
      if s != SlotOf(c) { assert next[s] == lists[s]; }
    }
  }

  /** Encoding time-ordered points of one hour gives a row that holds them. */
  lemma EncodedHolds(k: SeriesKey, pts: Points, h: int)
    requires |pts| > 0 && StrictlyIncreasing(TimesOf(pts))
    requires forall i :: 0 <= i < |pts| ==> 0 <= pts[i].ts < TWO63 && Hour(pts[i].ts) == h
    ensures var c := ChunkRow(k, pts[0].ts, pts[|pts| - 1].ts, |pts|,
            Encoded(TimesOf(pts), ValuesOf(pts), ValuesOf(pts), false));
            Holds(c, pts) && SlotOf(c) == (k, h)
  {
    var data := Encoded(TimesOf(pts), ValuesOf(pts), ValuesOf(pts), false);
    ChunkRoundTrip(TimesOf(pts), ValuesOf(pts), ValuesOf(pts), false);
    PayloadDecodes(ChunkRow(k, pts[0].ts, pts[|pts| - 1].ts, |pts|, data), pts, data);
  }

  lemma PayloadDecodes(c: ChunkRow, pts: Points, data: Bytes)
    requires Payload(c, data) && forall i :: 0 <= i < |pts| ==> 0 <= pts[i].ts < TWO63
    requires Decoded(data, c.points, false) == Some(Chunk(TimesOf(pts), ValuesOf(pts), []))
    ensures Decodes(c, pts)
  {
  }

  /** The rows of a series that overlap an hour: its one row for that hour, if it has one. */
  lemma OverlapsInHour(chunks: map<nat, ChunkRow>, lists: map<Slot, Points>, idOf: map<Slot, nat>, k: SeriesKey, h: int,
                       id: nat)
    requires Table(chunks, lists, idOf) && id in chunks
    ensures Overlaps(chunks[id], k, h * HOUR_MS, h * HOUR_MS + HOUR_MS - 1) <==> (k, h) in idOf && idOf[(k, h)] == id
  {
    var s := SlotOf(chunks[id]);
    assert s in idOf && idOf[s] == id && Holds(chunks[idOf[s]], lists[s]);
    OverlapIsSameHour(chunks[id], lists[s], h);
    if (k, h) in idOf { assert SlotOf(chunks[idOf[(k, h)]]) == (k, h); }
  }

  // ---------- the store ----------

  ghost predicate ByStart(chunks: map<nat, ChunkRow>, ids: seq<nat>)
  {
    && (forall i :: 0 <= i < |ids| ==> ids[i] in chunks)
    && (forall i, j :: 0 <= i < j < |ids| ==> chunks[ids[i]].start <= chunks[ids[j]].start)
  }

  lemma LeastStart(chunks: map<nat, ChunkRow>, ids: set<nat>) returns (id: nat)
    requires ids != {} && ids <= chunks.Keys
    ensures id in ids && forall j :: j in ids ==> chunks[id].start <= chunks[j].start
    decreases |ids|
  {
    id :| id in ids;
    if ids != {id} {
      var other := LeastStart(chunks, ids - {id});
      if chunks[other].start < chunks[id].start { id := other; }
    }
  }

  // ---------- decoded and sorted point lists ----------

  function Zip(tss: seq<int64>, vals: seq<Pattern>): Points
    requires |tss| == |vals|
  {
    seq(|tss|, i requires 0 <= i < |tss| => Point(tss[i], vals[i]))
  }

  lemma DecodedPoints(c: ChunkRow, pts: Points)
    requires Decodes(c, pts)
    ensures Decoded(c.data, c.points, false).Some?
    ensures var d := Decoded(c.data, c.points, false).value; |d.tss| == |d.avg| && Zip(d.tss, d.avg) == pts
  {
    assert Payload(c, c.data);
    assert Zip(TimesOf(pts), ValuesOf(pts)) == pts;
  }

  lemma SortedListIs(m: map<int, Pattern>, pts: Points)
    requires StrictlyIncreasing(TimesOf(pts))
    requires forall i :: 0 <= i < |pts| ==> pts[i].ts in m && m[pts[i].ts] == pts[i].v
    requires forall ts :: ts in m ==> ts in TimesOf(pts)
    ensures ToMap(pts) == m
  {
    SortedMap(pts);
    var n := ToMap(pts);
    forall ts | ts in n ensures ts in m && n[ts] == m[ts] {
      var i :| 0 <= i < |pts| && TimesOf(pts)[i] == ts;
      assert pts[i].ts == ts && Get(n, ts) == Some(pts[i].v);
    }
    forall ts | ts in m ensures ts in n {
      var i :| 0 <= i < |pts| && TimesOf(pts)[i] == ts;
      assert pts[i].ts == ts && Get(n, ts) == Some(pts[i].v);
    }
  }

  lemma Singleton(ids: seq<nat>, present: bool, one: nat)
    requires Distinct(ids) && forall id :: id in ids <==> present && id == one
    ensures ids == if present then [one] else []
  {
    forall i | 0 <= i < |ids| ensures present && ids[i] == one { assert ids[i] in ids; }
    assert present ==> one in ids;
    Repeated(ids, one);
    DistinctOnce(ids, one);
  }

  lemma {:induction false} Repeated(ids: seq<nat>, one: nat)
    requires forall i :: 0 <= i < |ids| ==> ids[i] == one
    ensures multiset(ids)[one] == |ids|
  {
    if ids == [] {
    } else {
      Repeated(ids[1..], one);
      assert ids == [ids[0]] + ids[1..];
    }
  }

  /** The overlay of an hour's points with more points of that hour stays within the hour. */
  lemma {:induction false} MergedInHour(c: ChunkRow, was: Points, h: int, more: Points)
    requires was == [] || (Holds(c, was) && Hour(c.start) == h)
    requires forall i :: 0 <= i < |more| ==> 0 <= more[i].ts < TWO63 && Hour(more[i].ts) == h
    ensures forall ts :: ts in Overlay(ToMap(was), more) ==> 0 <= ts < TWO63 && Hour(ts) == h
    ensures more != [] ==> more[|more| - 1].ts in Overlay(ToMap(was), more)
  {
    if was != [] {
      SortedMap(was);
      HoldsBounds(c, was);
    }
    forall ts | ts in Overlay(ToMap(was), more) ensures 0 <= ts < TWO63 && Hour(ts) == h {
      OverlayKeys(ToMap(was), more, ts);
      if ts in ToMap(was) {
        var i :| 0 <= i < |was| && TimesOf(was)[i] == ts;
        assert was[i].ts == ts;
      }
    }
  }

  /** The hour slot rewritten, everything else as it was. */
  ghost predicate Rewritten(before: map<Slot, Points>, after: map<Slot, Points>, s: Slot, pts: Points)
  {
    && s in after && after.Keys == before.Keys + {s}
    && (forall t :: t in before && t != s ==> after[t] == before[t])
    && ToMap(after[s]) == Overlay(Block(before, s), pts)
  }
}
