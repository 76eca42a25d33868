/** The embedded time-series store: chunk and series tables rewritten window by window, reads and retention. */
module TimeSeries {
  import opened Ordering
  import opened ByteCodec
  import opened ChunkCodec
  import opened Buckets
  import opened ChunkTable
  import opened Archives

  method EncodeRow(k: SeriesKey, ghost h: int, list: Points) returns (c: ChunkRow)
    requires |list| > 0 && StrictlyIncreasing(TimesOf(list))
    requires forall i :: 0 <= i < |list| ==> 0 <= list[i].ts < TWO63 && Hour(list[i].ts) == h
    ensures Holds(c, list) && SlotOf(c) == (k, h)
  {
    EncodedHolds(k, list, h);
    var data := EncodeChunk(TimesOf(list), ValuesOf(list), ValuesOf(list), false);
    c := ChunkRow(k, list[0].ts, list[|list| - 1].ts, |list|, data);
  }

  /** The table without some rows. */
  function Without(chunks: map<nat, ChunkRow>, ids: seq<nat>): map<nat, ChunkRow>
  {
    if ids == [] then chunks else Without(chunks, ids[..|ids| - 1]) - {ids[|ids| - 1]}
  }

  lemma FewerRows<K, V>(rows: map<K, V>, ids: set<K>)
    requires ids <= rows.Keys
    ensures |rows - ids| == |rows| - |ids|
  {
    assert (rows - ids).Keys == rows.Keys - ids;
  }

  /** Exactly the rows of the tier that end before the cutoff are gone. */
  ghost predicate RowsExpired(before: map<nat, ChunkRow>, after: map<nat, ChunkRow>, tier: int, cut: int)
  {
    && (forall id :: id in after ==> id in before && after[id] == before[id])
    && forall id :: id in before ==> (id in after <==> before[id].series.tier != tier || before[id].end >= cut)
  }

  /** Exactly the series of the tier whose newest point is before the cutoff are gone. */
  ghost predicate SeriesExpired(before: map<SeriesKey, SeriesRow>, after: map<SeriesKey, SeriesRow>, tier: int,
                                cut: int)
  {
    && (forall k :: k in after ==> k in before && after[k] == before[k])
    && forall k :: k in before ==>
         (k in after <==> k.tier != tier || before[k].lastTs <= 0 || before[k].lastTs >= cut)
  }

  /** The rows of the series that are gone are gone with them, and no others. */
  ghost predicate RowsOfOthers(before: map<nat, ChunkRow>, after: map<nat, ChunkRow>,
                               had: map<SeriesKey, SeriesRow>, has: map<SeriesKey, SeriesRow>)
  {
    && (forall id :: id in after ==> id in before && after[id] == before[id])
    && forall id :: id in before ==> (id in after <==> before[id].series in had ==> before[id].series in has)
  }

  lemma DeadAreExpired(series: map<SeriesKey, SeriesRow>, chunks: map<nat, ChunkRow>, tier: int, cut: int)
    ensures var dead := DeadSeries(series, tier, cut);
            && SeriesExpired(series, series - dead, tier, cut)
            && RowsOfOthers(chunks, Kept(chunks, RowsOf(dead)), series, series - dead)
  {
  }

  class Store {
    var chunks: map<nat, ChunkRow>
    var nextId: nat
    var series: map<SeriesKey, SeriesRow>
    const rawDays: int
    const aggDays: int

    ghost var lists: map<Slot, Points>  // the points of every chunk, by series and hour
    ghost var idOf: map<Slot, nat>      // the row that holds them
    ghost var written: Archive          // everything ever written
    ghost var horizon: int              // nothing from here on has been pruned

    ghost predicate TableOk()
      reads this
    {
      GoodTable(chunks, nextId, lists, idOf)
    }

    ghost predicate Valid()
      reads this
    {
      TableOk() && SeriesCovers(series, lists) && SeriesCurrent(series, written) && Faithful(lists, written, horizon)
    }

    /** An empty store; retention defaults to a week and aggregates are kept at least as long as raw points. */
    constructor (rawDays: int, aggDays: int)
      ensures Valid() && written == map[] && horizon == 0
      ensures this.rawDays == (if rawDays < 1 then 7 else rawDays) >= 1
      ensures this.aggDays == (if aggDays < this.rawDays then this.rawDays else aggDays) >= this.rawDays
    {
      var raw := if rawDays < 1 then 7 else rawDays;
      chunks, nextId, series := map[], 0, map[];
      lists, idOf, written, horizon := map[], map[], map[], 0;
      this.rawDays, this.aggDays := raw, if aggDays < raw then raw else aggDays;
    }

    /** The SELECT with its range condition and ORDER BY start_ts. */
    method OverlappingIds(k: SeriesKey, from: int, to: int) returns (ids: seq<nat>)
      ensures ByStart(chunks, ids) && Distinct(ids)
      ensures forall id :: id in ids <==> id in chunks && Overlaps(chunks[id], k, from, to)
    {
      ids := [];
      var todo := set id | id in chunks && Overlaps(chunks[id], k, from, to);
      ghost var all := todo;
      while todo != {}
        invariant todo <= all && ByStart(chunks, ids) && Distinct(ids)
        invariant forall id :: id in ids <==> id in all && id !in todo
        invariant forall i, j :: 0 <= i < |ids| && j in todo ==> chunks[ids[i]].start <= chunks[j].start
        decreases todo
      {
        ghost var least := LeastStart(chunks, todo);
        var id :| id in todo && forall j :: j in todo ==> chunks[id].start <= chunks[j].start;
        ids := ids + [id];
        todo := todo - {id};
      }
    }

    /** Writes a decoded chunk or the new points over the merged map. */
    method MergeInto(m: map<int, Pattern>, pts: Points) returns (merged: map<int, Pattern>)
      ensures merged == Overlay(m, pts)
    {
      merged := m;
      for i := 0 to |pts|
        invariant merged == Overlay(m, pts[..i])
      {
        assert pts[..i + 1] == pts[..i] + [pts[i]];
        OverlayNext(m, pts[..i], pts[i]);
        merged := merged[pts[i].ts := pts[i].v];
      }
      assert pts[..|pts|] == pts;
    }

    /** Loads the rows overlapping an hour; a row that does not decode is passed over. */
    method LoadChunks(k: SeriesKey, h: int) returns (loaded: seq<(nat, Points)>)
      requires TableOk()
      ensures loaded == if (k, h) in idOf then [(idOf[(k, h)], lists[(k, h)])] else []
    {
      var ids := OverlappingIds(k, h * HOUR_MS, h * HOUR_MS + HOUR_MS - 1);
      OneId(ids, k, h);
      loaded := [];
      for i := 0 to |ids|
        invariant loaded == if i == 0 then [] else [(idOf[(k, h)], lists[(k, h)])]
      {
        var pts := LoadRow(ids[i], (k, h));
        if pts.None? { continue; }
        loaded := loaded + [(ids[i], pts.value)];
      }
    }

    method LoadRow(id: nat, ghost s: Slot) returns (pts: Option<Points>)
      requires TableOk() && s in idOf && idOf[s] == id
      ensures id in chunks && pts == Some(lists[s])
    {
      assert Holds(chunks[id], lists[s]);
      DecodedPoints(chunks[id], lists[s]);
      var d := DecodeChunk(chunks[id].data, chunks[id].points, false);
      if d.None? { return None; }
      return Some(Zip(d.value.tss, d.value.avg));
    }

    lemma OneId(ids: seq<nat>, k: SeriesKey, h: int)
      requires TableOk() && Distinct(ids)
      requires forall id ::
                 id in ids <==> id in chunks && Overlaps(chunks[id], k, h * HOUR_MS, h * HOUR_MS + HOUR_MS - 1)
      ensures ids == if (k, h) in idOf then [idOf[(k, h)]] else []
    {
      var one := if (k, h) in idOf then idOf[(k, h)] else 0;
      forall id ensures id in ids <==> (k, h) in idOf && id == one {
        if id in chunks { OverlapsInHour(chunks, lists, idOf, k, h, id); }
      }
      Singleton(ids, (k, h) in idOf, one);
    }

    /** The merged map as a list in time order. */
    method SortedPoints(m: map<int, Pattern>) returns (pts: Points)
      ensures StrictlyIncreasing(TimesOf(pts)) && ToMap(pts) == m
      ensures forall i :: 0 <= i < |pts| ==> pts[i].ts in m
      ensures pts == [] ==> m == map[]
    {
      var tss := ListSet(m.Keys);
      SortInts(tss);
      tss := Sort(IntLeq, tss);
      pts := [];
      for i := 0 to |tss|
        invariant TimesOf(pts) == tss[..i]
        invariant forall j :: 0 <= j < i ==> pts[j].ts in m && pts[j].v == m[pts[j].ts]
      {
        assert tss[i] in tss;
        pts := pts + [Point(tss[i], m[tss[i]])];
      }
      assert tss[..|tss|] == tss;
      SortedListIs(m, pts);
    }

    /** Updates the first replaced row and deletes the others, or inserts a row. */
    method StoreChunk(c: ChunkRow, replaced: seq<nat>) returns (id: nat)
      modifies `chunks, `nextId
      ensures id == if |replaced| > 0 then replaced[0] else old(nextId)
      ensures chunks == Without(old(chunks)[id := c], if |replaced| > 0 then replaced[1..] else [])
      ensures nextId == if |replaced| > 0 then old(nextId) else old(nextId) + 1
    {
      if |replaced| > 0 {
        id := replaced[0];
        chunks := chunks[id := c];
        var others := replaced[1..];
        for i := 0 to |others|
          invariant chunks == Without(old(chunks)[id := c], others[..i]) && nextId == old(nextId)
        {
          assert others[..i + 1][..i] == others[..i];
          chunks := chunks - {others[i]};
        }
        TakeAll(others);
        return;
      }
      id := nextId;
      chunks := chunks[id := c];
      nextId := nextId + 1;
    }

    /** Merges the new points of one hour window with its existing row and writes it back. */
    method MergeRawChunk(k: SeriesKey, h: int, pts: Points)
      requires TableOk() && k.tier == TIER_RAW && pts != []
      requires forall i :: 0 <= i < |pts| ==> 0 <= pts[i].ts < TWO63 && Hour(pts[i].ts) == h
      modifies this`chunks, this`nextId, this`lists, this`idOf
      ensures TableOk()
      ensures Rewritten(old(lists), lists, (k, h), pts)
    {
      var list, ids := MergedPoints(k, h, pts);
      WriteBack(k, h, list, ids);
    }

    /** The existing points of the hour overlaid with the new ones, in time order, and the rows they come from. */
    method MergedPoints(k: SeriesKey, h: int, pts: Points) returns (list: Points, ids: seq<nat>)
      requires TableOk() && pts != []
      requires forall i :: 0 <= i < |pts| ==> 0 <= pts[i].ts < TWO63 && Hour(pts[i].ts) == h
      ensures |list| > 0 && StrictlyIncreasing(TimesOf(list))
      ensures ToMap(list) == Overlay(Block(lists, (k, h)), pts)
      ensures forall i :: 0 <= i < |list| ==> 0 <= list[i].ts < TWO63 && Hour(list[i].ts) == h
      ensures ids == if (k, h) in idOf then [idOf[(k, h)]] else []
    {
      var existing := LoadChunks(k, h);
      var merged;
      merged, ids := MergeRows(existing);
      merged := MergeInto(merged, pts);
      HourOfMerged(k, h, pts);
      list := SortedPoints(merged);
    }

    /** The points of the loaded rows, later rows over earlier ones, and the rows' ids. */
    method MergeRows(rows: seq<(nat, Points)>) returns (merged: map<int, Pattern>, ids: seq<nat>)
      ensures rows == [] ==> merged == map[] && ids == []
      ensures forall id, pts :: rows == [(id, pts)] ==> merged == ToMap(pts) && ids == [id]
    {
      merged, ids := map[], [];
      for i := 0 to |rows|
        invariant i == 0 ==> merged == map[] && ids == []
        invariant i == 1 ==> merged == ToMap(rows[0].1) && ids == [rows[0].0]
      {
        ids := ids + [rows[i].0];
        merged := MergeInto(merged, rows[i].1);
      }
    }

    lemma {:induction false} HourOfMerged(k: SeriesKey, h: int, pts: Points)
      requires TableOk() && pts != []
      requires forall i :: 0 <= i < |pts| ==> 0 <= pts[i].ts < TWO63 && Hour(pts[i].ts) == h
      ensures var m := Overlay(Block(lists, (k, h)), pts);
              m != map[] && forall ts :: ts in m ==> 0 <= ts < TWO63 && Hour(ts) == h
    {
      if (k, h) in idOf {
        var id := idOf[(k, h)];
        assert Holds(chunks[id], lists[(k, h)]);
        MergedInHour(chunks[id], lists[(k, h)], h, pts);
      } else {
        MergedInHour(ChunkRow(k, 0, 0, 0, []), [], h, pts);
      }
    }

    /** Encodes the merged list as a row fit to take the place of the rows it replaces. */
    method EncodeMerged(k: SeriesKey, h: int, list: Points, ids: seq<nat>) returns (c: ChunkRow)
      requires TableOk() && k.tier == TIER_RAW
      requires |list| > 0 && StrictlyIncreasing(TimesOf(list))
      requires forall i :: 0 <= i < |list| ==> 0 <= list[i].ts < TWO63 && Hour(list[i].ts) == h
      requires ids == if (k, h) in idOf then [idOf[(k, h)]] else []
      ensures var id := if |ids| > 0 then ids[0] else nextId;
              GoodTable(chunks[id := c], if |ids| > 0 then nextId else nextId + 1, lists[(k, h) := list],
                idOf[(k, h) := id])
    {
      c := EncodeRow(k, h, list);
      GoodTableStored(chunks, nextId, lists, idOf, c, list, ids);
    }

    /** Stores the merged list in place of the rows it replaces. */
    method WriteBack(k: SeriesKey, h: int, list: Points, ids: seq<nat>)
      requires TableOk() && k.tier == TIER_RAW
      requires |list| > 0 && StrictlyIncreasing(TimesOf(list))
      requires forall i :: 0 <= i < |list| ==> 0 <= list[i].ts < TWO63 && Hour(list[i].ts) == h
      requires ids == if (k, h) in idOf then [idOf[(k, h)]] else []
      modifies this`chunks, this`nextId, this`lists, this`idOf
      ensures TableOk() && lists == old(lists)[(k, h) := list]
    {
      var c := EncodeMerged(k, h, list, ids);
      var id := StoreChunk(c, ids);
      assert chunks == old(chunks)[id := c];
      lists, idOf := lists[(k, h) := list], idOf[(k, h) := id];
    }

    // ---------- writing ----------

    method LastPoint(pts: Points) returns (last: SeriesRow)
      ensures last == LastOf(pts)
    {
      last := SeriesRow(0, ZERO_VALUE);
      for i := 0 to |pts|
        invariant last == LastOf(pts[..i])
      {
        assert pts[..i + 1][..i] == pts[..i];
        if pts[i].ts >= last.lastTs { last := SeriesRow(pts[i].ts, pts[i].v); }
      }
      assert pts[..|pts|] == pts;
    }

    /** Inserts the directory row of a series or moves its last point forward. */
    method UpsertSeries(k: SeriesKey, pts: Points)
      modifies this`series
      ensures series == old(series)[k := Upserted(RowAt(old(series), k), LastOf(pts))]
    {
      var last := LastPoint(pts);
      series := series[k := Upserted(RowAt(series, k), last)];
    }

    /** Writes one series: its points are grouped by hour and merged window by window. */
    method WriteWindows(k: SeriesKey, pts: Points)
      requires TableOk() && k.tier == TIER_RAW
      requires forall i :: 0 <= i < |pts| ==> 0 <= pts[i].ts < TWO63
      modifies this`chunks, this`nextId, this`lists, this`idOf
      ensures TableOk()
      ensures WroteSeries(old(lists), lists, k, pts)
    {
      var ws := GroupWindows(pts, HOUR_MS);
      for i := 0 to |ws|
        invariant TableOk()
        invariant WroteHours(old(lists), lists, k, pts, Starts(ws)[..i])
      {
        var b := ws[i].start;
        assert Starts(ws)[i] == b;
        WindowIsHour(pts, b);
        ghost var before := lists;
        MergeRawChunk(k, b / HOUR_MS, ws[i].pts);
        TakeNext(Starts(ws), i);
        NotBefore(Starts(ws), i);
        WroteNextHour(old(lists), before, lists, k, pts, Starts(ws)[..i], b);
      }
      TakeAll(Starts(ws));
      WroteAllHours(old(lists), lists, k, pts, Starts(ws));
    }

    /** Groups the samples by series, in the order the series first occur. */
    method GroupSamples(samples: seq<Sample>) returns (accs: map<SeriesKey, Points>, order: seq<SeriesKey>)
      ensures Grouped(accs, order, samples)
    {
      accs, order := map[], [];
      for n := 0 to |samples|
        invariant Grouped(accs, order, samples[..n])
      {
        GroupedNext(accs, order, samples, n);
        var k, p := RawKey(samples[n]), Point(samples[n].ts, samples[n].value);
        if k !in accs { order := order + [k]; }
        accs := accs[k := (if k in accs then accs[k] else []) + [p]];
      }
      assert samples[..|samples|] == samples;
    }

    /** Stores a batch of samples: the chunks keep agreeing with the plain record of everything written. */
    method Write(samples: seq<Sample>)
      requires Valid()
      requires forall i :: 0 <= i < |samples| ==> 0 <= samples[i].ts < TWO63
      modifies this`chunks, this`nextId, this`series, this`lists, this`idOf, this`written
      ensures Valid() && written == Recorded(old(written), samples)
      ensures WroteSamples(old(lists), lists, samples)
      ensures RecordedByName(old(written), written, samples)
    {
      EveryRecordIsByName(written, samples);
      if |samples| == 0 { return; }
      var accs, order := GroupSamples(samples);
      WriteGroups(accs, order, samples);
      WriteKeepsFaithful(old(lists), lists, written, samples, horizon);
      WriteKeepsCovers(old(series), series, old(lists), lists, samples);
      WriteKeepsCurrent(old(series), series, written, samples);
      written := Recorded(written, samples);
    }

    method WriteGroups(accs: map<SeriesKey, Points>, order: seq<SeriesKey>, ghost samples: seq<Sample>)
      requires TableOk() && Grouped(accs, order, samples)
      requires forall i :: 0 <= i < |samples| ==> 0 <= samples[i].ts < TWO63
      modifies this`chunks, this`nextId, this`lists, this`idOf, this`series
      ensures TableOk()
      ensures WroteSamples(old(lists), lists, samples)
      ensures UpsertedSamples(old(series), series, samples)
    {
      for i := 0 to |order|
        invariant TableOk()
        invariant WroteKeys(old(lists), lists, samples, order[..i])
        invariant UpsertedKeys(old(series), series, samples, order[..i])
      {
        var k := order[i];
        assert order[..i + 1] == order[..i] + [k];
        assert k in accs && PointsOf(samples, k) == accs[k];
        PointsFit(samples, k);
        ghost var before := lists;
        UpsertedNextKey(old(series), series, samples, order[..i], k);
        UpsertSeries(k, accs[k]);
        WriteWindows(k, accs[k]);
        WroteNextKey(old(lists), before, lists, samples, order[..i], k);
      }
      assert order[..|order|] == order;
      WroteAllKeys(old(lists), lists, samples, accs, order);
      UpsertedAllKeys(old(series), series, samples, accs, order);
    }

    // ---------- reading ----------

    method AppendInRange(out: Points, pts: Points, from: int, to: int) returns (r: Points)
      ensures r == out + InRange(pts, from, to)
    {
      r := out;
      for i := 0 to |pts|
        invariant r == out + InRange(pts[..i], from, to)
      {
        assert pts[..i + 1][..i] == pts[..i];
        if pts[i].ts < from || pts[i].ts > to { continue; }
        r := r + [pts[i]];
      }
      assert pts[..|pts|] == pts;
    }

    /** The points of a series within a range: what the chunks say, and so, from the horizon on, all that was
        written. */
    method ReadPoints(k: SeriesKey, from: int, to: int) returns (out: Points)
      requires Valid()
      ensures StrictlyIncreasing(TimesOf(out))
      ensures forall ts :: Get(ToMap(out), ts) == if from <= ts <= to then At(lists, k, ts) else None
      ensures Reads(out, written, horizon, k, from, to)
    {
      var ids := OverlappingIds(k, from, to);
      out := ReadRows(k, from, to, ids);
      SortKeepsOrder(out);
      ReadIsComplete(out, k, from, to, ids);
      out := Sort(ByTime, out);
      ReadsWritten(out, lists, written, horizon, k, from, to);
    }

    /** Decodes rows of a series one after the other, keeping the points in range. */
    method ReadRows(k: SeriesKey, from: int, to: int, ids: seq<nat>) returns (out: Points)
      requires TableOk() && ByStart(chunks, ids) && Distinct(ids)
      requires forall i :: 0 <= i < |ids| ==> chunks[ids[i]].series == k
      ensures ReadOut(out, lists, k, from, to, HoursOf(chunks, ids))
    {
      ghost var hours := HoursOf(chunks, ids);
      HoursIncrease(chunks, idOf, k, ids);
      out := [];
      for i := 0 to |ids|
        invariant ReadOut(out, lists, k, from, to, hours[..i])
      {
        ghost var s := (k, hours[i]);
        assert SlotOf(chunks[ids[i]]) == s;
        var pts := LoadRow(ids[i], s);
        if pts.None? { continue; }
        TakeNext(hours, i);
        assert Holds(chunks[idOf[s]], lists[s]);
        ReadNext(out, lists, k, from, to, hours[..i], hours[i], chunks[ids[i]]);
        out := AppendInRange(out, pts.value, from, to);
      }
      assert hours[..|ids|] == hours;
    }

    lemma ReadIsComplete(out: Points, k: SeriesKey, from: int, to: int, ids: seq<nat>)
      requires TableOk() && forall id :: id in ids <==> id in chunks && Overlaps(chunks[id], k, from, to)
      requires ReadOut(out, lists, k, from, to, HoursOf(chunks, ids))
      ensures forall ts :: Get(ToMap(out), ts) == if from <= ts <= to then At(lists, k, ts) else None
    {
      var hours := HoursOf(chunks, ids);
      forall ts ensures Get(ToMap(out), ts) == if from <= ts <= to then At(lists, k, ts) else None {
        assert Get(ToMap(out), ts) == if from <= ts <= to && Hour(ts) in hours then At(lists, k, ts) else None;
        if from <= ts <= to && At(lists, k, ts).Some? {
          RangeIsCovered(chunks, lists, idOf, k, from, to, ts);
          HourListed(chunks, ids, idOf[(k, Hour(ts))]);
        }
      }
    }

    // ---------- retention ----------

    /** DELETE FROM ts_chunk: the expired rows of a tier. */
    method DeleteExpiredChunks(tier: int, cut: int) returns (n: nat)
      requires Valid()
      modifies this`chunks, this`lists, this`idOf, this`horizon
      ensures Valid() && horizon == Horizon(old(horizon), tier, cut)
      ensures Pruned(old(lists), lists, tier, cut)
      ensures n == |old(chunks)| - |chunks| && RowsExpired(old(chunks), chunks, tier, cut)
    {
      ghost var gone := Gone(chunks, idOf, ExpiredRows(tier, cut));
      ExpiredGone(tier, cut);
      n := DropExpired(tier, cut);
      lists, idOf, horizon := lists - gone, idOf - gone, Horizon(horizon, tier, cut);
    }

    method DropExpired(tier: int, cut: int) returns (n: nat)
      modifies this`chunks
      ensures chunks == Kept(old(chunks), ExpiredRows(tier, cut)) && n == |old(chunks)| - |chunks|
      ensures RowsExpired(old(chunks), chunks, tier, cut)
    {
      var expired := set id | id in chunks && chunks[id].series.tier == tier && chunks[id].end < cut;
      n := |expired|;
      FewerRows(chunks, expired);
      KeptIsRest(chunks, expired, ExpiredRows(tier, cut));
      chunks := chunks - expired;
    }

    lemma ExpiredGone(tier: int, cut: int)
      requires Valid()
      ensures var doomed := ExpiredRows(tier, cut);
              var gone := Gone(chunks, idOf, doomed);
              && GoodTable(Kept(chunks, doomed), nextId, lists - gone, idOf - gone)
              && Pruned(lists, lists - gone, tier, cut) && SeriesCovers(series, lists - gone)
              && Faithful(lists - gone, written, Horizon(horizon, tier, cut))
    {
      var doomed := ExpiredRows(tier, cut);
      var gone := Gone(chunks, idOf, doomed);
      KeptTable(chunks, nextId, lists, idOf, doomed);
      PruneIsRight(chunks, lists, idOf, tier, cut);
      CoversFewer(series, lists, gone, {});
      assert series - {} == series;
      PruneKeepsFaithful(lists, lists - gone, written, horizon, tier, cut);
    }

    /** DELETE FROM ts_series: the series of a tier whose newest point has expired; their rows go with them. */
    method DeleteExpiredSeries(tier: int, cut: int) returns (n: nat)
      requires Valid()
      modifies this`chunks, this`series, this`lists, this`idOf, this`horizon
      ensures Valid() && horizon == Horizon(old(horizon), tier, cut)
      ensures TakesOnlyOld(old(lists), lists, tier, cut)
      ensures n == |old(series)| - |series| && SeriesExpired(old(series), series, tier, cut)
      ensures RowsOfOthers(old(chunks), chunks, old(series), series)
    {
      DeadAreExpired(series, chunks, tier, cut);
      n := DeleteDead(tier, cut);
    }

    method DeleteDead(tier: int, cut: int) returns (n: nat)
      requires Valid()
      modifies this`chunks, this`series, this`lists, this`idOf, this`horizon
      ensures Valid() && horizon == Horizon(old(horizon), tier, cut)
      ensures TakesOnlyOld(old(lists), lists, tier, cut) && n == |old(series)| - |series|
      ensures series == old(series) - DeadSeries(old(series), tier, cut)
      ensures chunks == Kept(old(chunks), RowsOf(DeadSeries(old(series), tier, cut)))
    {
      var dead := DeadSeries(series, tier, cut);
      ghost var gone := Gone(chunks, idOf, RowsOf(dead));
      SeriesGone(tier, cut);
      n := |dead|;
      FewerRows(series, dead);
      DropSeries(dead, lists - gone, idOf - gone, Horizon(horizon, tier, cut));
    }

    method DropSeries(dead: set<SeriesKey>, ghost left: map<Slot, Points>, ghost ids: map<Slot, nat>, ghost since: int)
      requires GoodTable(Kept(chunks, RowsOf(dead)), nextId, left, ids) && SeriesCovers(series - dead, left)
      requires SeriesCurrent(series - dead, written) && Faithful(left, written, since)
      modifies this`chunks, this`series, this`lists, this`idOf, this`horizon
      ensures Valid() && lists == left && idOf == ids && horizon == since
      ensures series == old(series) - dead && chunks == Kept(old(chunks), RowsOf(dead))
    {
      series := series - dead;
      var cascade := set id | id in chunks && chunks[id].series in dead;
      KeptIsRest(chunks, cascade, RowsOf(dead));
      chunks := chunks - cascade;
      lists, idOf, horizon := left, ids, since;
    }

    lemma SeriesGone(tier: int, cut: int)
      requires Valid()
      ensures var dead := DeadSeries(series, tier, cut);
              var gone := Gone(chunks, idOf, RowsOf(dead));
              && GoodTable(Kept(chunks, RowsOf(dead)), nextId, lists - gone, idOf - gone)
              && TakesOnlyOld(lists, lists - gone, tier, cut) && SeriesCovers(series - dead, lists - gone)
              && SeriesCurrent(series - dead, written) && Faithful(lists - gone, written, Horizon(horizon, tier, cut))
    {
      var dead := DeadSeries(series, tier, cut);
      var gone := Gone(chunks, idOf, RowsOf(dead));
      KeptTable(chunks, nextId, lists, idOf, RowsOf(dead));
      DeadIsOld(chunks, lists, idOf, series, tier, cut);
      HoursGone(lists, gone, tier, cut);
      CoversLiving(dead);
      PruneKeepsCurrent(series, written, dead);
      PruneKeepsFaithful(lists, lists - gone, written, horizon, tier, cut);
    }

    lemma CoversLiving(dead: set<SeriesKey>)
      requires TableOk() && SeriesCovers(series, lists)
      ensures SeriesCovers(series - dead, lists - Gone(chunks, idOf, RowsOf(dead)))
    {
      forall s | s in lists && s.0 in dead ensures s in Gone(chunks, idOf, RowsOf(dead)) {
        assert s in idOf && SlotOf(chunks[idOf[s]]) == s;
      }
      CoversFewer(series, lists, Gone(chunks, idOf, RowsOf(dead)), dead);
    }

    /** One tier's retention, one statement after the other. */
    method PruneTier(tier: int, cut: int) returns (total: nat)
      requires Valid()
      modifies this`chunks, this`series, this`lists, this`idOf, this`horizon
      ensures Valid() && horizon == Horizon(old(horizon), tier, cut)
      ensures Pruned(old(lists), lists, tier, cut)
    {
      var rows := DeleteExpiredChunks(tier, cut);
      ghost var between := lists;
      var dead := DeleteExpiredSeries(tier, cut);
      PrunedFurther(old(lists), between, lists, tier, cut);
      total := rows + dead;
    }

    /** Applies each tier's retention: no raw point at or after its cutoff goes, and none an hour older stays. */
    method Prune(now: int) returns (total: nat)
      requires Valid()
      modifies this`chunks, this`series, this`lists, this`idOf, this`horizon
      ensures Valid() && horizon == Later(now - rawDays * 86_400_000, old(horizon))
      ensures Pruned(old(lists), lists, TIER_RAW, now - rawDays * DAY_MS)
    {
      var raw := PruneTier(TIER_RAW, now - rawDays * DAY_MS);
      ghost var between := lists;
      var agg := PruneTier(TIER_AGG, now - aggDays * DAY_MS);
      RawOnly(between, lists, now - aggDays * DAY_MS);
      PrunedFurther(old(lists), between, lists, TIER_RAW, now - rawDays * DAY_MS);
      total := raw + agg;
    }

    lemma RawOnly(before: map<Slot, Points>, after: map<Slot, Points>, cut: int)
      requires Pruned(before, after, TIER_AGG, cut)
      requires forall s {:trigger before[s]} :: s in before ==> s.0.tier == TIER_RAW
      ensures forall k, ts {:trigger At(after, k, ts)} :: At(after, k, ts) == At(before, k, ts)
    {
    }
  }
}
