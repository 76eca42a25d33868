/** What writes, reads and retention do to the chunk and series tables, against a plain record of everything written. */
module Archives {
  import opened Ordering
  import opened ByteCodec
  import opened Buckets
  import opened ChunkTable

  // ---------- what a write does to the hours of a series ----------

  function PointsOf(samples: seq<Sample>, k: SeriesKey): Points
  {
    if samples == [] then []
    else
      var n := |samples| - 1;
      PointsOf(samples[..n], k) + (if RawKey(samples[n]) == k then [Point(samples[n].ts, samples[n].value)] else [])
  }

  lemma {:induction false} PointsOfNext(samples: seq<Sample>, n: nat, k: SeriesKey)
    requires n < |samples|
    ensures PointsOf(samples[..n + 1], k)
         == PointsOf(samples[..n], k) + (if RawKey(samples[n]) == k then [Point(samples[n].ts, samples[n].value)]
           else [])
  {
    assert samples[..n + 1][..n] == samples[..n];
  }

  /** The points that fall in hour `h`. */
  function HourPoints(pts: Points, h: int): Points { Members(pts, h * HOUR_MS, ByHour()) }

  /** The start of a time stamp's hour. */
  function ByHour(): Key { ts => Hour(ts) * HOUR_MS }

  ghost predicate FromEpochOn(pts: Points)
  {
    forall i :: 0 <= i < |pts| ==> pts[i].ts >= 0
  }

  /** From the epoch on the aligned windows are the hours. */
  lemma {:induction false} WindowsAreHours(pts: Points, b: int)
    requires FromEpochOn(pts)
    ensures Members(pts, b, Aligned(HOUR_MS)) == Members(pts, b, ByHour())
  {
    if pts == [] {
    } else {
      var n := |pts| - 1;
      WindowsAreHours(pts[..n], b);
      AlignedBounds(pts[n].ts, HOUR_MS);
    }
  }

  lemma {:induction false} MembersFit(pts: Points, b: int, key: Key)
    ensures forall i :: 0 <= i < |Members(pts, b, key)|
             ==> Members(pts, b, key)[i] in pts && key(Members(pts, b, key)[i].ts) == b
  {
    if pts == [] {
    } else {
      MembersFit(pts[..|pts| - 1], b, key);
      assert forall p :: p in pts[..|pts| - 1] ==> p in pts;
    }
  }

  /** A window that holds points starts on the hour and its points are of that hour. */
  lemma {:induction false} WindowIsHour(pts: Points, b: int)
    requires FromEpochOn(pts) && Members(pts, b, Aligned(HOUR_MS)) != []
    ensures b == b / HOUR_MS * HOUR_MS && HourPoints(pts, b / HOUR_MS) == Members(pts, b, Aligned(HOUR_MS))
    ensures forall i :: 0 <= i < |Members(pts, b, Aligned(HOUR_MS))| ==>
              Members(pts, b, Aligned(HOUR_MS))[i] in pts
                && Hour(Members(pts, b, Aligned(HOUR_MS))[i].ts) == b / HOUR_MS
  {
    var ms := Members(pts, b, Aligned(HOUR_MS));
    WindowsAreHours(pts, b);
    MembersFit(pts, b, ByHour());
    forall i | 0 <= i < |ms| ensures b == Hour(ms[i].ts) * HOUR_MS { assert ByHour()(ms[i].ts) == b; }
    assert b == Hour(ms[0].ts) * HOUR_MS;
  }

  /** Hours listed in `done` are overlaid with their points; everything else is as it was. */
  ghost predicate WroteHours(before: map<Slot, Points>, after: map<Slot, Points>, k: SeriesKey, pts: Points,
                             done: seq<int>)
  {
    forall s {:trigger Block(after, s)} :: Block(after, s)
      == if s.0 == k && s.1 * HOUR_MS in done then Overlay(Block(before, s), HourPoints(pts, s.1)) else Block(before, s)
  }

  /** Every hour of the series is overlaid with the points that fall in it. */
  ghost predicate WroteSeries(before: map<Slot, Points>, after: map<Slot, Points>, k: SeriesKey, pts: Points)
  {
    forall s {:trigger Block(after, s)} :: Block(after, s)
      == if s.0 == k then Overlay(Block(before, s), HourPoints(pts, s.1)) else Block(before, s)
  }

  lemma WroteNextHour(first: map<Slot, Points>, before: map<Slot, Points>, after: map<Slot, Points>, k: SeriesKey,
                      pts: Points,
                      done: seq<int>, b: int)
    requires WroteHours(first, before, k, pts, done) && b !in done && b == b / HOUR_MS * HOUR_MS
    requires Rewritten(before, after, (k, b / HOUR_MS), HourPoints(pts, b / HOUR_MS))
    ensures WroteHours(first, after, k, pts, done + [b])
  {
    var t := (k, b / HOUR_MS);
    forall s: Slot ensures Block(after, s)
      == if s.0 == k && s.1 * HOUR_MS in done + [b] then Overlay(Block(first, s), HourPoints(pts, s.1))
        else Block(first, s)
    {
      assert Block(before, s)
        == if s.0 == k && s.1 * HOUR_MS in done then Overlay(Block(first, s), HourPoints(pts, s.1))
          else Block(first, s);
      if s != t { assert Block(after, s) == Block(before, s); }
    }
  }

  lemma WroteAllHours(before: map<Slot, Points>, after: map<Slot, Points>, k: SeriesKey, pts: Points, starts: seq<int>)
    requires WroteHours(before, after, k, pts, starts)
    requires FromEpochOn(pts) && ListsWindows(starts, pts, Aligned(HOUR_MS))
    ensures WroteSeries(before, after, k, pts)
  {
    forall s: Slot | s.0 == k && s.1 * HOUR_MS !in starts ensures HourPoints(pts, s.1) == [] {
      NoMembers(pts, s.1 * HOUR_MS, Aligned(HOUR_MS));
      WindowsAreHours(pts, s.1 * HOUR_MS);
    }
  }

  // ---------- everything ever written ----------

  type Archive = map<SeriesKey, map<int, Pattern>>

  ghost function ArchiveOf(w: Archive, k: SeriesKey): map<int, Pattern>
  {
    if k in w then w[k] else map[]
  }

  /** The record after one more sample. */
  ghost function RecordedOne(r: Archive, s: Sample): Archive
  {
    r[RawKey(s) := ArchiveOf(r, RawKey(s))[s.ts := s.value]]
  }

  /** A plain map from time stamps to values, updated sample by sample. */
  ghost function Recorded(w: Archive, samples: seq<Sample>): Archive
  {
    if samples == [] then w
    else
      var n := |samples| - 1;
      RecordedOne(Recorded(w, samples[..n]), samples[n])
  }

  lemma {:induction false} RecordedSeries(w: Archive, samples: seq<Sample>, k: SeriesKey)
    ensures ArchiveOf(Recorded(w, samples), k) == Overlay(ArchiveOf(w, k), PointsOf(samples, k))
  {
    if samples == [] {
    } else {
      var n := |samples| - 1;
      RecordedSeries(w, samples[..n], k);
      RecordedNext(w, samples, k);
      OverlayNext(ArchiveOf(w, k), PointsOf(samples[..n], k), Point(samples[n].ts, samples[n].value));
      assert PointsOf(samples[..n], k) + [] == PointsOf(samples[..n], k);
    }
  }

  lemma {:induction false} RecordedNext(w: Archive, samples: seq<Sample>, k: SeriesKey)
    requires samples != []
    ensures var n := |samples| - 1;
            var before := ArchiveOf(Recorded(w, samples[..n]), k);
            ArchiveOf(Recorded(w, samples), k)
            == if RawKey(samples[n]) == k then before[samples[n].ts := samples[n].value] else before
  {
  }

  /** A sample of the same metric, labels and time comes after the i-th. */
  ghost predicate Replaced(samples: seq<Sample>, i: nat)
    requires i < |samples|
  {
    exists j :: i < j < |samples| && samples[j].metric == samples[i].metric && samples[j].labels == samples[i].labels
                && samples[j].ts == samples[i].ts
  }

  /** The series of a metric and a label set holds this value at this time. */
  ghost predicate HoldsValue(w: Archive, metric: string, labels: map<string, string>, ts: int, v: Pattern)
  {
    var k := SeriesKey(metric, labels, TIER_RAW);
    k in w && ts in w[k] && w[k][ts] == v
  }

  ghost predicate Names(samples: seq<Sample>, k: SeriesKey, ts: int)
  {
    exists i :: 0 <= i < |samples| && SeriesKey(samples[i].metric, samples[i].labels, TIER_RAW) == k
                && samples[i].ts == ts
  }

  ghost predicate ShowsSamples(w: Archive, samples: seq<Sample>)
  {
    forall i :: 0 <= i < |samples| && !Replaced(samples, i)
      ==> HoldsValue(w, samples[i].metric, samples[i].labels, samples[i].ts, samples[i].value)
  }

  ghost predicate LeavesOthers(before: Archive, after: Archive, samples: seq<Sample>)
  {
    forall k, ts {:trigger Names(samples, k, ts)} ::
      !Names(samples, k, ts) ==> Get(ArchiveOf(after, k), ts) == Get(ArchiveOf(before, k), ts)
  }

  ghost predicate OpensSeries(before: Archive, after: Archive, samples: seq<Sample>)
  {
    forall k :: k in after <==> k in before || exists ts :: Names(samples, k, ts)
  }

  /** Metric and labels decide the series: a sample's value stands there unless a later sample of the same metric,
      labels and time replaces it, and nothing else changes. */
  ghost predicate RecordedByName(before: Archive, after: Archive, samples: seq<Sample>)
  {
    ShowsSamples(after, samples) && LeavesOthers(before, after, samples) && OpensSeries(before, after, samples)
  }

  lemma {:induction false} EveryRecordIsByName(w: Archive, samples: seq<Sample>)
    ensures RecordedByName(w, Recorded(w, samples), samples)
  {
    if samples == [] {
    } else {
      var n := |samples| - 1;
      EveryRecordIsByName(w, samples[..n]);
      ShowsNext(Recorded(w, samples[..n]), samples);
      LeavesNext(w, Recorded(w, samples[..n]), samples);
      OpensNext(w, Recorded(w, samples[..n]), samples);
    }
  }

  lemma ShowsNext(r: Archive, samples: seq<Sample>)
    requires samples != [] && ShowsSamples(r, samples[..|samples| - 1])
    ensures ShowsSamples(RecordedOne(r, samples[|samples| - 1]), samples)
  {
    var n := |samples| - 1;
    var before, next := samples[..n], RecordedOne(r, samples[n]);
    forall i | 0 <= i < |samples| && !Replaced(samples, i)
      ensures HoldsValue(next, samples[i].metric, samples[i].labels, samples[i].ts, samples[i].value) {
      if i < n {
        ReplacedLater(samples, i);
        assert before[i] == samples[i];
        assert HoldsValue(r, before[i].metric, before[i].labels, before[i].ts, before[i].value);
      }
    }
  }

  lemma LeavesNext(w: Archive, r: Archive, samples: seq<Sample>)
    requires samples != [] && LeavesOthers(w, r, samples[..|samples| - 1])
    ensures LeavesOthers(w, RecordedOne(r, samples[|samples| - 1]), samples)
  {
    var n := |samples| - 1;
    forall k, ts | !Names(samples, k, ts)
      ensures Get(ArchiveOf(RecordedOne(r, samples[n]), k), ts) == Get(ArchiveOf(w, k), ts) {
      NamesNext(samples, k, ts);
    }
  }

  lemma OpensNext(w: Archive, r: Archive, samples: seq<Sample>)
    requires samples != [] && OpensSeries(w, r, samples[..|samples| - 1])
    ensures OpensSeries(w, RecordedOne(r, samples[|samples| - 1]), samples)
  {
    var n := |samples| - 1;
    var s, next := samples[n], RecordedOne(r, samples[n]);
    forall k ensures k in next <==> k in w || exists ts :: Names(samples, k, ts) {
      NamesNext(samples, k, s.ts);
      if ts :| Names(samples, k, ts) { NamesNext(samples, k, ts); }
      if ts :| Names(samples[..n], k, ts) { NamesNext(samples, k, ts); }
    }
  }

  lemma NamesNext(samples: seq<Sample>, k: SeriesKey, ts: int)
    requires samples != []
    ensures var n := |samples| - 1;
            var last := k == SeriesKey(samples[n].metric, samples[n].labels, TIER_RAW) && ts == samples[n].ts;
            Names(samples, k, ts) <==> Names(samples[..n], k, ts) || last
  {
    var n := |samples| - 1;
    if Names(samples, k, ts) {
      var i :| 0 <= i < |samples| && SeriesKey(samples[i].metric, samples[i].labels, TIER_RAW) == k
        && samples[i].ts == ts;
      assert i < n ==> samples[..n][i] == samples[i];
    }
    if Names(samples[..n], k, ts) {
      var i :| 0 <= i < n && SeriesKey(samples[..n][i].metric, samples[..n][i].labels, TIER_RAW) == k
        && samples[..n][i].ts == ts;
      assert samples[i] == samples[..n][i];
    }
  }

  lemma ReplacedLater(samples: seq<Sample>, i: nat)
    requires i < |samples| - 1 && !Replaced(samples, i)
    ensures var n := |samples| - 1;
            !Replaced(samples[..n], i)
            && !(samples[n].metric == samples[i].metric && samples[n].labels == samples[i].labels
                 && samples[n].ts == samples[i].ts)
  {
    var n := |samples| - 1;
    assert forall j :: 0 <= j < n ==> samples[..n][j] == samples[j];
  }

  /** Two samples go to the same series exactly when metric and labels are equal. */
  lemma SeriesByName(a: Sample, b: Sample)
    ensures |Recorded(map[], [a, b]).Keys| == 1 <==> a.metric == b.metric && a.labels == b.labels
  {
    var w := Recorded(map[], [a, b]);
    var ka, kb := SeriesKey(a.metric, a.labels, TIER_RAW), SeriesKey(b.metric, b.labels, TIER_RAW);
    forall k ensures k in w <==> k == ka || k == kb { SeriesOfTwo(a, b, k); }
    assert w.Keys == {ka, kb};
  }

  lemma SeriesOfTwo(a: Sample, b: Sample, k: SeriesKey)
    ensures k in Recorded(map[], [a, b])
       <==> k == SeriesKey(a.metric, a.labels, TIER_RAW) || k == SeriesKey(b.metric, b.labels, TIER_RAW)
  {
    var both := [a, b];
    EveryRecordIsByName(map[], both);
    assert both[0] == a && both[1] == b;
    if k == SeriesKey(a.metric, a.labels, TIER_RAW) { assert Names(both, k, a.ts); }
    if k == SeriesKey(b.metric, b.labels, TIER_RAW) { assert Names(both, k, b.ts); }
  }

  /** The chunks never say anything that was not the last value written, and from the horizon on they say all of it. */
  ghost predicate Faithful(lists: map<Slot, Points>, w: Archive, horizon: int)
  {
    forall k, ts {:trigger At(lists, k, ts)} ::
      At(lists, k, ts).Some? || ts >= horizon ==> At(lists, k, ts) == Get(ArchiveOf(w, k), ts)
  }

  /** Every hour of every series is overlaid with the points that fall in it. */
  ghost predicate WroteSamples(before: map<Slot, Points>, after: map<Slot, Points>, samples: seq<Sample>)
  {
    forall s {:trigger Block(after, s)} ::
      Block(after, s) == Overlay(Block(before, s), HourPoints(PointsOf(samples, s.0), s.1))
  }

  lemma {:induction false} OverlayAgrees(m: map<int, Pattern>, n: map<int, Pattern>, pts: Points, ts: int)
    ensures Get(Overlay(m, pts), ts) == Get(Overlay(n, pts), ts)
         || (Get(Overlay(m, pts), ts) == Get(m, ts) && Get(Overlay(n, pts), ts) == Get(n, ts))
  {
    if pts == [] {
    } else {
      OverlayAgrees(m, n, pts[..|pts| - 1], ts);
    }
  }

  lemma {:induction false} WriteKeepsFaithful(before: map<Slot, Points>, after: map<Slot, Points>, w: Archive,
                                              samples: seq<Sample>, horizon: int)
    requires Faithful(before, w, horizon) && WroteSamples(before, after, samples)
    ensures Faithful(after, Recorded(w, samples), horizon)
  {
    forall k, ts | At(after, k, ts).Some? || ts >= horizon
      ensures At(after, k, ts) == Get(ArchiveOf(Recorded(w, samples), k), ts)
    {
      var s, pts := (k, Hour(ts)), PointsOf(samples, k);
      RecordedSeries(w, samples, k);
      OverlayByWindow(Block(before, s), pts, ByHour(), s.1 * HOUR_MS, ts);
      OverlayAgrees(Block(before, s), ArchiveOf(w, k), pts, ts);
      assert Block(after, s) == Overlay(Block(before, s), HourPoints(pts, s.1));
      assert At(before, k, ts).Some? || ts >= horizon ==> At(before, k, ts) == Get(ArchiveOf(w, k), ts);
    }
  }

  // ---------- what a write does to the series table ----------

  const ZERO_VALUE: Pattern := [0, 0, 0, 0, 0, 0, 0, 0]

  /** The newest point, the later one of two with equal times; time 0 when there is none. */
  function LastOf(pts: Points): SeriesRow
  {
    if pts == [] then SeriesRow(0, ZERO_VALUE)
    else
      var last, p := LastOf(pts[..|pts| - 1]), pts[|pts| - 1];
      if p.ts >= last.lastTs then SeriesRow(p.ts, p.v) else last
  }

  function RowAt(series: map<SeriesKey, SeriesRow>, k: SeriesKey): Option<SeriesRow>
  {
    if k in series then Some(series[k]) else None
  }

  /** INSERT ... ON CONFLICT DO UPDATE: the newer time stamp wins, the new value wins a tie. */
  function Upserted(row: Option<SeriesRow>, last: SeriesRow): SeriesRow
  {
    if row.None? then last
    else SeriesRow(if row.value.lastTs >= last.lastTs then row.value.lastTs else last.lastTs,
                   if last.lastTs >= row.value.lastTs then last.lastValue else row.value.lastValue)
  }

  lemma {:induction false} LastBounds(pts: Points)
    ensures forall i :: 0 <= i < |pts| ==> pts[i].ts <= LastOf(pts).lastTs
    ensures LastOf(pts).lastTs >= 0
  {
    if pts == [] {
    } else {
      LastBounds(pts[..|pts| - 1]);
    }
  }

  /** The newest point's value is what the overlay holds at its time. */
  lemma {:induction false} LastIsWritten(m: map<int, Pattern>, pts: Points)
    requires pts != [] && forall i :: 0 <= i < |pts| ==> pts[i].ts >= 0
    ensures Get(Overlay(m, pts), LastOf(pts).lastTs) == Some(LastOf(pts).lastValue)
  {
    var n := |pts| - 1;
    if n == 0 {
    } else {
      LastIsWritten(m, pts[..n]);
    }
  }

  /** Every stored time stamp is bounded by its series' last_ts. */
  ghost predicate SeriesCovers(series: map<SeriesKey, SeriesRow>, lists: map<Slot, Points>)
  {
    forall s, ts {:trigger ts in Block(lists, s)} :: ts in Block(lists, s) ==> s.0 in series && ts <= series[s.0].lastTs
  }

  /** Every last_value is the value last written at last_ts. */
  ghost predicate SeriesCurrent(series: map<SeriesKey, SeriesRow>, w: Archive)
  {
    forall k {:trigger RowAt(series, k)} :: RowAt(series, k).Some? ==>
      Get(ArchiveOf(w, k), RowAt(series, k).value.lastTs) == Some(RowAt(series, k).value.lastValue)
  }

  /** The series that received samples are upserted with their own points. */
  ghost predicate UpsertedSamples(before: map<SeriesKey, SeriesRow>, after: map<SeriesKey, SeriesRow>,
                                  samples: seq<Sample>)
  {
    forall k {:trigger RowAt(after, k)} :: RowAt(after, k)
      == if PointsOf(samples, k) == [] then RowAt(before, k)
        else Some(Upserted(RowAt(before, k), LastOf(PointsOf(samples, k))))
  }

  lemma WriteKeepsCovers(series: map<SeriesKey, SeriesRow>, newSeries: map<SeriesKey, SeriesRow>,
                         before: map<Slot, Points>, after: map<Slot, Points>, samples: seq<Sample>)
    requires SeriesCovers(series, before) && UpsertedSamples(series, newSeries, samples)
             && WroteSamples(before, after, samples)
    ensures SeriesCovers(newSeries, after)
  {
    forall s: Slot, ts | ts in Block(after, s) ensures s.0 in newSeries && ts <= newSeries[s.0].lastTs {
      var pts := PointsOf(samples, s.0);
      LastBounds(pts);
      MembersFit(pts, s.1 * HOUR_MS, ByHour());
      assert Block(after, s) == Overlay(Block(before, s), HourPoints(pts, s.1));
      OverlayKeys(Block(before, s), HourPoints(pts, s.1), ts);
      assert RowAt(newSeries, s.0) == if pts == [] then RowAt(series, s.0)
        else Some(Upserted(RowAt(series, s.0), LastOf(pts)));
      if ts in Block(before, s) {
        assert s.0 in series && ts <= series[s.0].lastTs;
      } else {
        var i :| 0 <= i < |HourPoints(pts, s.1)| && HourPoints(pts, s.1)[i].ts == ts;
        assert HourPoints(pts, s.1)[i] in pts;
      }
    }
  }

  lemma {:induction false} PointsFit(samples: seq<Sample>, k: SeriesKey)
    requires forall i :: 0 <= i < |samples| ==> 0 <= samples[i].ts < TWO63
    ensures forall i :: 0 <= i < |PointsOf(samples, k)| ==> 0 <= PointsOf(samples, k)[i].ts < TWO63
  {
    if samples == [] {
    } else {
      PointsFit(samples[..|samples| - 1], k);
    }
  }

  lemma {:induction false} WriteKeepsCurrent(series: map<SeriesKey, SeriesRow>, newSeries: map<SeriesKey, SeriesRow>,
                                             w: Archive, samples: seq<Sample>)
    requires SeriesCurrent(series, w) && UpsertedSamples(series, newSeries, samples)
    requires forall i :: 0 <= i < |samples| ==> 0 <= samples[i].ts < TWO63
    ensures SeriesCurrent(newSeries, Recorded(w, samples))
  {
    forall k | RowAt(newSeries, k).Some?
      ensures Get(ArchiveOf(Recorded(w, samples), k), RowAt(newSeries, k).value.lastTs)
              == Some(RowAt(newSeries, k).value.lastValue)
    {
      var pts, row, m := PointsOf(samples, k), RowAt(series, k), ArchiveOf(w, k);
      RecordedSeries(w, samples, k);
      PointsFit(samples, k);
      LastBounds(pts);
      if pts != [] { LastIsWritten(m, pts); }
      if row.Some? && row.value.lastTs > LastOf(pts).lastTs { OverlayKeeps(m, pts, row.value.lastTs); }
    }
  }

  // ---------- grouping samples by series ----------

  ghost predicate Grouped(accs: map<SeriesKey, Points>, order: seq<SeriesKey>, samples: seq<Sample>)
  {
    && Distinct(order)
    && (forall k :: k in accs <==> k in order)
    && (forall k {:trigger PointsOf(samples, k)} :: PointsOf(samples, k) == if k in accs then accs[k] else [])
    && (forall k :: k in accs ==> accs[k] != [] && k.tier == TIER_RAW)
  }

  lemma GroupedNext(accs: map<SeriesKey, Points>, order: seq<SeriesKey>, samples: seq<Sample>, n: nat)
    requires n < |samples| && Grouped(accs, order, samples[..n])
    ensures var k, p := RawKey(samples[n]), Point(samples[n].ts, samples[n].value);
            Grouped(accs[k := (if k in accs then accs[k] else []) + [p]], if k in accs then order else order + [k],
              samples[..n + 1])
  {
    var key, p := RawKey(samples[n]), Point(samples[n].ts, samples[n].value);
    var next := accs[key := (if key in accs then accs[key] else []) + [p]];
    forall k ensures PointsOf(samples[..n + 1], k) == if k in next then next[k] else [] {
      PointsOfNext(samples, n, k);
      assert PointsOf(samples[..n], k) == if k in accs then accs[k] else [];
    }
  }

  /** The series in `done` are written, the others as before. */
  ghost predicate WroteKeys(before: map<Slot, Points>, after: map<Slot, Points>, samples: seq<Sample>,
                            done: seq<SeriesKey>)
  {
    forall s {:trigger Block(after, s)} :: Block(after, s)
      == if s.0 in done then Overlay(Block(before, s), HourPoints(PointsOf(samples, s.0), s.1)) else Block(before, s)
  }

  ghost predicate UpsertedKeys(before: map<SeriesKey, SeriesRow>, after: map<SeriesKey, SeriesRow>,
                               samples: seq<Sample>, done: seq<SeriesKey>)
  {
    forall k {:trigger RowAt(after, k)} :: RowAt(after, k)
      == if k in done then Some(Upserted(RowAt(before, k), LastOf(PointsOf(samples, k)))) else RowAt(before, k)
  }

  lemma {:induction false} WroteNextKey(first: map<Slot, Points>, before: map<Slot, Points>, after: map<Slot, Points>,
                                        samples: seq<Sample>, done: seq<SeriesKey>, k: SeriesKey)
    requires WroteKeys(first, before, samples, done) && k !in done
             && WroteSeries(before, after, k, PointsOf(samples, k))
    ensures WroteKeys(first, after, samples, done + [k])
  {
    forall s: Slot ensures Block(after, s)
      == if s.0 in done + [k] then Overlay(Block(first, s), HourPoints(PointsOf(samples, s.0), s.1))
        else Block(first, s)
    {
      assert Block(before, s)
        == if s.0 in done then Overlay(Block(first, s), HourPoints(PointsOf(samples, s.0), s.1)) else Block(first, s);
    }
  }

  lemma {:induction false} UpsertedNextKey(first: map<SeriesKey, SeriesRow>, before: map<SeriesKey, SeriesRow>,
                                           samples: seq<Sample>, done: seq<SeriesKey>, k: SeriesKey)
    requires UpsertedKeys(first, before, samples, done) && k !in done
    ensures UpsertedKeys(first, before[k := Upserted(RowAt(before, k), LastOf(PointsOf(samples, k)))], samples,
            done + [k])
  {
    var after := before[k := Upserted(RowAt(before, k), LastOf(PointsOf(samples, k)))];
    forall j ensures RowAt(after, j)
      == if j in done + [k] then Some(Upserted(RowAt(first, j), LastOf(PointsOf(samples, j)))) else RowAt(first, j)
    {
      assert RowAt(before, j)
        == if j in done then Some(Upserted(RowAt(first, j), LastOf(PointsOf(samples, j)))) else RowAt(first, j);
    }
  }

  lemma WroteAllKeys(before: map<Slot, Points>, after: map<Slot, Points>, samples: seq<Sample>,
                     accs: map<SeriesKey, Points>, order: seq<SeriesKey>)
    requires WroteKeys(before, after, samples, order) && Grouped(accs, order, samples)
    ensures WroteSamples(before, after, samples)
  {
    forall s: Slot ensures Block(after, s) == Overlay(Block(before, s), HourPoints(PointsOf(samples, s.0), s.1)) {
      assert PointsOf(samples, s.0) == if s.0 in accs then accs[s.0] else [];
    }
  }

  lemma UpsertedAllKeys(before: map<SeriesKey, SeriesRow>, after: map<SeriesKey, SeriesRow>, samples: seq<Sample>,
                        accs: map<SeriesKey, Points>, order: seq<SeriesKey>)
    requires UpsertedKeys(before, after, samples, order) && Grouped(accs, order, samples)
    ensures UpsertedSamples(before, after, samples)
  {
    forall k ensures RowAt(after, k)
      == if PointsOf(samples, k) == [] then RowAt(before, k)
        else Some(Upserted(RowAt(before, k), LastOf(PointsOf(samples, k))))
    {
      assert PointsOf(samples, k) == if k in accs then accs[k] else [];
    }
  }

  // ---------- reading back ----------

  /** The points within a time range. */
  function InRange(pts: Points, from: int, to: int): Points
  {
    if pts == [] then []
    else
      var n := |pts| - 1;
      InRange(pts[..n], from, to) + (if from <= pts[n].ts <= to then [pts[n]] else [])
  }

  lemma {:induction false} InRangeMembers(pts: Points, from: int, to: int)
    ensures forall p :: p in InRange(pts, from, to) ==> p in pts
  {
    if pts == [] {
    } else {
      InRangeMembers(pts[..|pts| - 1], from, to);
    }
  }

  lemma {:induction false} InRangeSorted(pts: Points, from: int, to: int)
    requires StrictlyIncreasing(TimesOf(pts))
    ensures StrictlyIncreasing(TimesOf(InRange(pts, from, to)))
  {
    if pts == [] {
    } else {
      var n := |pts| - 1;
      assert TimesOf(pts[..n]) == TimesOf(pts)[..n];
      InRangeSorted(pts[..n], from, to);
      LastIsLater(pts, from, to);
      TimesAppend(InRange(pts[..n], from, to), if from <= pts[n].ts <= to then [pts[n]] else []);
    }
  }

  lemma LastIsLater(pts: Points, from: int, to: int)
    requires pts != [] && StrictlyIncreasing(TimesOf(pts))
    ensures var n := |pts| - 1;
            forall j :: 0 <= j < |InRange(pts[..n], from, to)| ==> InRange(pts[..n], from, to)[j].ts < pts[n].ts
  {
    var n := |pts| - 1;
    var kept := InRange(pts[..n], from, to);
    InRangeMembers(pts[..n], from, to);
    forall j | 0 <= j < |kept| ensures kept[j].ts < pts[n].ts {
      assert kept[j] in pts[..n];
      var i :| 0 <= i < n && pts[i] == kept[j];
      assert TimesOf(pts)[i] < TimesOf(pts)[n];
    }
  }

  lemma {:induction false} OverlayByRange(m: map<int, Pattern>, pts: Points, from: int, to: int, ts: int)
    ensures Get(Overlay(m, InRange(pts, from, to)), ts)
            == if from <= ts <= to then Get(Overlay(m, pts), ts) else Get(m, ts)
  {
    if pts == [] {
    } else {
      var n := |pts| - 1;
      OverlayByRange(m, pts[..n], from, to, ts);
      OverlayNext(m, InRange(pts[..n], from, to), pts[n]);
      assert InRange(pts[..n], from, to) + [] == InRange(pts[..n], from, to);
    }
  }

  lemma {:induction false} OverlayAppend(m: map<int, Pattern>, a: Points, b: Points)
    ensures Overlay(m, a + b) == Overlay(Overlay(m, a), b)
  {
    if b == [] {
      assert a + b == a;
    } else {
      var n := |b| - 1;
      OverlayAppend(m, a, b[..n]);
      assert a + b == (a + b[..n]) + [b[n]];
      OverlayNext(m, a + b[..n], b[n]);
    }
  }

  lemma TimesAppend(a: Points, b: Points)
    requires StrictlyIncreasing(TimesOf(a)) && StrictlyIncreasing(TimesOf(b))
    requires forall i, j :: 0 <= i < |a| && 0 <= j < |b| ==> a[i].ts < b[j].ts
    ensures StrictlyIncreasing(TimesOf(a + b))
  {
    assert TimesOf(a + b) == TimesOf(a) + TimesOf(b);
  }

  /** `out` is, in time order, exactly what the chunks of these hours say about the range. */
  ghost predicate ReadOut(out: Points, lists: map<Slot, Points>, k: SeriesKey, from: int, to: int, hours: seq<int>)
  {
    && StrictlyIncreasing(TimesOf(out))
    && forall ts {:trigger Get(ToMap(out), ts)} ::
         Get(ToMap(out), ts) == if from <= ts <= to && Hour(ts) in hours then At(lists, k, ts) else None
  }

  /** The overlay of one row's points shows them in their hour and nothing new elsewhere. */
  lemma {:induction false} OverlayRow(m: map<int, Pattern>, lists: map<Slot, Points>, k: SeriesKey, h: int, c: ChunkRow,
                                      ts: int)
    requires (k, h) in lists && Holds(c, lists[(k, h)]) && Hour(c.start) == h
    requires Hour(ts) == h ==> Get(m, ts) == None
    ensures Get(Overlay(m, lists[(k, h)]), ts) == if Hour(ts) == h then At(lists, k, ts) else Get(m, ts)
  {
    HoldsBounds(c, lists[(k, h)]);
    if Hour(ts) == h { OverlayOver(m, map[], lists[(k, h)], ts); } else { OverlayKeeps(m, lists[(k, h)], ts); }
  }

  lemma {:induction false} ReadNext(out: Points, lists: map<Slot, Points>, k: SeriesKey, from: int, to: int,
                                    hours: seq<int>, h: int, c: ChunkRow)
    requires ReadOut(out, lists, k, from, to, hours) && forall i :: 0 <= i < |hours| ==> hours[i] < h
    requires (k, h) in lists && Holds(c, lists[(k, h)]) && Hour(c.start) == h
    ensures ReadOut(out + InRange(lists[(k, h)], from, to), lists, k, from, to, hours + [h])
  {
    var pts := lists[(k, h)];
    var more := InRange(pts, from, to);
    ReadNextSorted(out, lists, k, from, to, hours, h, c);
    OverlayAppend(map[], out, more);
    forall ts
      ensures Get(ToMap(out + more), ts)
              == if from <= ts <= to && Hour(ts) in hours + [h] then At(lists, k, ts) else None
    {
      assert Get(ToMap(out), ts) == if from <= ts <= to && Hour(ts) in hours then At(lists, k, ts) else None;
      OverlayRow(ToMap(out), lists, k, h, c, ts);
      OverlayByRange(ToMap(out), pts, from, to, ts);
    }
  }

  lemma {:induction false} ReadNextSorted(out: Points, lists: map<Slot, Points>, k: SeriesKey, from: int, to: int,
                                          hours: seq<int>, h: int, c: ChunkRow)
    requires ReadOut(out, lists, k, from, to, hours) && forall i :: 0 <= i < |hours| ==> hours[i] < h
    requires (k, h) in lists && Holds(c, lists[(k, h)]) && Hour(c.start) == h
    ensures StrictlyIncreasing(TimesOf(out + InRange(lists[(k, h)], from, to)))
  {
    var pts := lists[(k, h)];
    var more := InRange(pts, from, to);
    InRangeMembers(pts, from, to);
    InRangeSorted(pts, from, to);
    HoldsBounds(c, pts);
    SortedMap(out);
    forall i, j | 0 <= i < |out| && 0 <= j < |more| ensures out[i].ts < more[j].ts {
      assert Get(ToMap(out), out[i].ts).Some?;
      assert more[j] in pts;
    }
    TimesAppend(out, more);
  }

  /** Points read: each in range and as last written; from the horizon on, every one written there is among them. */
  ghost predicate Reads(out: Points, w: Archive, horizon: int, k: SeriesKey, from: int, to: int)
  {
    && (forall i :: 0 <= i < |out| ==>
          from <= out[i].ts <= to && k in w && out[i].ts in w[k] && w[k][out[i].ts] == out[i].v)
    && (from >= horizon && k in w ==>
          forall ts :: ts in w[k] && from <= ts <= to ==> exists i :: 0 <= i < |out| && out[i].ts == ts)
  }

  lemma ReadsWritten(out: Points, lists: map<Slot, Points>, w: Archive, horizon: int, k: SeriesKey, from: int, to: int)
    requires StrictlyIncreasing(TimesOf(out)) && Faithful(lists, w, horizon)
    requires forall ts :: Get(ToMap(out), ts) == if from <= ts <= to then At(lists, k, ts) else None
    ensures Reads(out, w, horizon, k, from, to)
  {
    SortedMap(out);
    forall i | 0 <= i < |out|
      ensures from <= out[i].ts <= to && k in w && out[i].ts in w[k] && w[k][out[i].ts] == out[i].v {
      assert Get(ToMap(out), out[i].ts) == Some(out[i].v);
      assert At(lists, k, out[i].ts) == Get(ArchiveOf(w, k), out[i].ts);
    }
    if from >= horizon && k in w {
      forall ts | ts in w[k] && from <= ts <= to ensures exists i :: 0 <= i < |out| && out[i].ts == ts {
        assert At(lists, k, ts) == Get(ArchiveOf(w, k), ts);
        assert Get(ToMap(out), ts).Some?;
        var i :| 0 <= i < |out| && TimesOf(out)[i] == ts;
      }
    }
  }

  predicate ByTime(p: Point<Pattern>, q: Point<Pattern>) { p.ts <= q.ts }

  /** Points already in time order are left as they are. */
  lemma {:induction false} SortKeepsOrder(pts: Points)
    requires StrictlyIncreasing(TimesOf(pts))
    ensures Sort(ByTime, pts) == pts
  {
    forall i, j | 0 <= i < j < |pts| ensures pts[i].ts < pts[j].ts { assert TimesOf(pts)[i] < TimesOf(pts)[j]; }
    SortPermutes(ByTime, pts);
    SortSorts(ByTime, pts);
    forall x, y | x in Sort(ByTime, pts) && y in Sort(ByTime, pts) && ByTime(x, y) && ByTime(y, x) ensures x == y {
      assert x in pts && y in pts;
    }
    SortedUnique(ByTime, Sort(ByTime, pts), pts);
  }

  /** The hours of rows of one series ordered by start. */
  function HoursOf(chunks: map<nat, ChunkRow>, ids: seq<nat>): seq<int>
    requires forall i :: 0 <= i < |ids| ==> ids[i] in chunks
  {
    seq(|ids|, i requires 0 <= i < |ids| => Hour(chunks[ids[i]].start))
  }

  lemma HoursIncrease(chunks: map<nat, ChunkRow>, idOf: map<Slot, nat>, k: SeriesKey, ids: seq<nat>)
    requires OneRowPerHour(chunks, idOf) && ByStart(chunks, ids) && Distinct(ids)
    requires forall i :: 0 <= i < |ids| ==> chunks[ids[i]].series == k
    ensures StrictlyIncreasing(HoursOf(chunks, ids))
  {
    forall i, j | 0 <= i < j < |ids| ensures Hour(chunks[ids[i]].start) < Hour(chunks[ids[j]].start) {
      assert idOf[SlotOf(chunks[ids[i]])] == ids[i] && idOf[SlotOf(chunks[ids[j]])] == ids[j];
    }
  }

  lemma HourListed(chunks: map<nat, ChunkRow>, ids: seq<nat>, id: nat)
    requires (forall i :: 0 <= i < |ids| ==> ids[i] in chunks) && id in ids
    ensures Hour(chunks[id].start) in HoursOf(chunks, ids)
  {
    var i :| 0 <= i < |ids| && ids[i] == id;
    assert HoursOf(chunks, ids)[i] == Hour(chunks[id].start);
  }

  /** Every stored time stamp of the range lies in a row that overlaps the range. */
  lemma RangeIsCovered(chunks: map<nat, ChunkRow>, lists: map<Slot, Points>, idOf: map<Slot, nat>, k: SeriesKey,
                       from: int, to: int, ts: int)
    requires Table(chunks, lists, idOf) && from <= ts <= to && At(lists, k, ts).Some?
    ensures (k, Hour(ts)) in idOf && idOf[(k, Hour(ts))] in chunks
    ensures Overlaps(chunks[idOf[(k, Hour(ts))]], k, from, to) && Hour(chunks[idOf[(k, Hour(ts))]].start) == Hour(ts)
  {
    var s := (k, Hour(ts));
    var c, pts := chunks[idOf[s]], lists[s];
    assert Holds(c, pts) && SlotOf(c) == s;
    SortedMap(pts);
    HoldsBounds(c, pts);
    var i :| 0 <= i < |pts| && TimesOf(pts)[i] == ts;
    assert pts[i].ts == ts;
  }

  // ---------- retention ----------

  /** Which rows a statement deletes. */
  type Doom = ChunkRow -> bool

  function ExpiredRows(tier: int, cut: int): Doom { (c: ChunkRow) => c.series.tier == tier && c.end < cut }

  function RowsOf(dead: set<SeriesKey>): Doom { (c: ChunkRow) => c.series in dead }

  /** Series whose newest point is older than the cutoff. */
  function DeadSeries(series: map<SeriesKey, SeriesRow>, tier: int, cut: int): set<SeriesKey>
  {
    set k | k in series && k.tier == tier && 0 < series[k].lastTs < cut
  }

  function Kept(chunks: map<nat, ChunkRow>, doomed: Doom): map<nat, ChunkRow>
  {
    map id | id in chunks && !doomed(chunks[id]) :: chunks[id]
  }

  lemma KeptIsRest(chunks: map<nat, ChunkRow>, ids: set<nat>, doomed: Doom)
    requires forall id :: id in ids <==> id in chunks && doomed(chunks[id])
    ensures chunks - ids == Kept(chunks, doomed)
  {
  }

  ghost function Gone(chunks: map<nat, ChunkRow>, idOf: map<Slot, nat>, doomed: Doom): set<Slot>
    requires OneRowPerHour(chunks, idOf)
  {
    set s | s in idOf && doomed(chunks[idOf[s]])
  }

  lemma KeptTable(chunks: map<nat, ChunkRow>, nextId: nat, lists: map<Slot, Points>, idOf: map<Slot, nat>, doomed: Doom)
    requires GoodTable(chunks, nextId, lists, idOf)
    ensures var gone := Gone(chunks, idOf, doomed); GoodTable(Kept(chunks, doomed), nextId, lists - gone, idOf - gone)
  {
    var gone := Gone(chunks, idOf, doomed);
    var next, ids := Kept(chunks, doomed), idOf - gone;
    forall s | s in ids ensures ids[s] in next && SlotOf(next[ids[s]]) == s && Holds(next[ids[s]], (lists - gone)[s]) {
      assert SlotOf(chunks[idOf[s]]) == s && Holds(chunks[idOf[s]], lists[s]);
    }
    forall id | id in next ensures SlotOf(next[id]) in ids && ids[SlotOf(next[id])] == id {
      assert SlotOf(chunks[id]) in idOf && idOf[SlotOf(chunks[id])] == id;
    }
    forall s | s in lists - gone ensures s.0.tier == TIER_RAW { assert (lists - gone)[s] == lists[s]; }
  }

  /** The points of a row lie within its bounds. */
  lemma PointsOfRow(chunks: map<nat, ChunkRow>, lists: map<Slot, Points>, idOf: map<Slot, nat>, s: Slot)
    requires Table(chunks, lists, idOf) && s in idOf
    ensures idOf[s] in chunks && SlotOf(chunks[idOf[s]]) == s
    ensures forall ts :: ts in Block(lists, s) ==> chunks[idOf[s]].start <= ts <= chunks[idOf[s]].end && Hour(ts) == s.1
    ensures chunks[idOf[s]].end in Block(lists, s)
  {
    var c, pts := chunks[idOf[s]], lists[s];
    assert Holds(c, pts) && SlotOf(c) == s;
    SortedMap(pts);
    HoldsBounds(c, pts);
    assert Get(ToMap(pts), pts[|pts| - 1].ts).Some?;
    forall ts | ts in Block(lists, s) ensures c.start <= ts <= c.end && Hour(ts) == s.1 {
      var i :| 0 <= i < |pts| && TimesOf(pts)[i] == ts;
      assert pts[i].ts == ts;
    }
  }

  /** Only hours of the tier, and only points older than the cutoff, go with the deleted rows. */
  ghost predicate OnlyOldGo(lists: map<Slot, Points>, gone: set<Slot>, tier: int, cut: int)
  {
    forall s, ts {:trigger ts in Block(lists, s)} :: s in gone && ts in Block(lists, s) ==> s.0.tier == tier && ts < cut
  }

  /** All points of an expired row are older than the cutoff. */
  lemma ExpiredIsOld(chunks: map<nat, ChunkRow>, lists: map<Slot, Points>, idOf: map<Slot, nat>, tier: int, cut: int)
    requires Table(chunks, lists, idOf)
    ensures OnlyOldGo(lists, Gone(chunks, idOf, ExpiredRows(tier, cut)), tier, cut)
  {
    forall s, ts | s in Gone(chunks, idOf, ExpiredRows(tier, cut)) && ts in Block(lists, s)
      ensures s.0.tier == tier && ts < cut {
      PointsOfRow(chunks, lists, idOf, s);
    }
  }

  /** All points of a series that is dropped are older than the cutoff. */
  lemma DeadIsOld(chunks: map<nat, ChunkRow>, lists: map<Slot, Points>, idOf: map<Slot, nat>,
                  series: map<SeriesKey, SeriesRow>,
                  tier: int, cut: int)
    requires Table(chunks, lists, idOf) && SeriesCovers(series, lists)
    ensures OnlyOldGo(lists, Gone(chunks, idOf, RowsOf(DeadSeries(series, tier, cut))), tier, cut)
  {
    var dead := DeadSeries(series, tier, cut);
    forall s, ts | s in Gone(chunks, idOf, RowsOf(dead)) && ts in Block(lists, s) ensures s.0.tier == tier && ts < cut {
      PointsOfRow(chunks, lists, idOf, s);
    }
  }

  /** All points of a row of the tier that has not expired are less than an hour older than the cutoff. */
  lemma SurvivorIsRecent(chunks: map<nat, ChunkRow>, lists: map<Slot, Points>, idOf: map<Slot, nat>, tier: int,
                         cut: int, s: Slot)
    requires Table(chunks, lists, idOf)
    requires s in idOf && s.0.tier == tier && !ExpiredRows(tier, cut)(chunks[idOf[s]])
    ensures forall ts :: ts in Block(lists, s) ==> ts > cut - HOUR_MS
  {
    PointsOfRow(chunks, lists, idOf, s);
  }

  /** Points at or after the cutoff, and other tiers, are untouched, and nothing is new. */
  ghost predicate TakesOnlyOld(before: map<Slot, Points>, after: map<Slot, Points>, tier: int, cut: int)
  {
    && (forall k: SeriesKey, ts: int {:trigger At(after, k, ts)} ::
          k.tier != tier || ts >= cut ==> At(after, k, ts) == At(before, k, ts))
    && (forall k: SeriesKey, ts: int {:trigger At(after, k, ts)} :: At(after, k, ts).Some?
         ==> At(after, k, ts) == At(before, k, ts))
  }

  /** No point of the tier is an hour older than the cutoff. */
  ghost predicate Recent(lists: map<Slot, Points>, tier: int, cut: int)
  {
    forall k: SeriesKey, ts: int {:trigger At(lists, k, ts)} :: k.tier == tier && At(lists, k, ts).Some?
      ==> ts > cut - HOUR_MS
  }

  /** Pruning a tier: only old points go and only recent ones are left. */
  ghost predicate Pruned(before: map<Slot, Points>, after: map<Slot, Points>, tier: int, cut: int)
  {
    TakesOnlyOld(before, after, tier, cut) && Recent(after, tier, cut)
  }

  lemma HoursGone(lists: map<Slot, Points>, gone: set<Slot>, tier: int, cut: int)
    requires OnlyOldGo(lists, gone, tier, cut)
    ensures TakesOnlyOld(lists, lists - gone, tier, cut)
  {
    forall k: SeriesKey, ts: int
      ensures k.tier != tier || ts >= cut ==> At(lists - gone, k, ts) == At(lists, k, ts)
      ensures At(lists - gone, k, ts).Some? ==> At(lists - gone, k, ts) == At(lists, k, ts)
    {
      var s := (k, Hour(ts));
      if s !in gone {
        assert Block(lists - gone, s) == Block(lists, s);
      } else {
        assert ts in Block(lists, s) ==> ts < cut;
      }
    }
  }

  /** Deleting the expired rows of a tier prunes it. */
  lemma PruneIsRight(chunks: map<nat, ChunkRow>, lists: map<Slot, Points>, idOf: map<Slot, nat>, tier: int, cut: int)
    requires Table(chunks, lists, idOf)
    ensures Pruned(lists, lists - Gone(chunks, idOf, ExpiredRows(tier, cut)), tier, cut)
  {
    var gone := Gone(chunks, idOf, ExpiredRows(tier, cut));
    var after := lists - gone;
    ExpiredIsOld(chunks, lists, idOf, tier, cut);
    HoursGone(lists, gone, tier, cut);
    forall k: SeriesKey, ts: int | k.tier == tier && At(after, k, ts).Some? ensures ts > cut - HOUR_MS {
      var s := (k, Hour(ts));
      assert Block(after, s) == Block(lists, s);
      SurvivorIsRecent(chunks, lists, idOf, tier, cut, s);
    }
  }

  /** Taking more old points leaves a pruned tier pruned. */
  lemma PrunedFurther(first: map<Slot, Points>, before: map<Slot, Points>, after: map<Slot, Points>, tier: int,
                      cut: int)
    requires Pruned(first, before, tier, cut) && TakesOnlyOld(before, after, tier, cut)
    ensures Pruned(first, after, tier, cut)
  {
    forall k: SeriesKey, ts: int
      ensures k.tier != tier || ts >= cut ==> At(after, k, ts) == At(first, k, ts)
      ensures At(after, k, ts).Some? ==> At(after, k, ts) == At(first, k, ts) && (k.tier == tier ==> ts > cut - HOUR_MS)
    {
      assert At(after, k, ts).Some? ==> At(after, k, ts) == At(before, k, ts);
    }
  }

  lemma CoversFewer(series: map<SeriesKey, SeriesRow>, lists: map<Slot, Points>, gone: set<Slot>, dead: set<SeriesKey>)
    requires SeriesCovers(series, lists) && forall s {:trigger lists[s]} :: s in lists && s.0 in dead ==> s in gone
    ensures SeriesCovers(series - dead, lists - gone)
  {
    forall s: Slot, ts | ts in Block(lists - gone, s)
      ensures s.0 in series - dead && ts <= (series - dead)[s.0].lastTs {
      assert ts in Block(lists, s);
      assert lists[s] == lists[s];
    }
  }

  lemma PruneKeepsCurrent(series: map<SeriesKey, SeriesRow>, w: Archive, dead: set<SeriesKey>)
    requires SeriesCurrent(series, w)
    ensures SeriesCurrent(series - dead, w)
  {
    forall k | RowAt(series - dead, k).Some?
      ensures Get(ArchiveOf(w, k), RowAt(series - dead, k).value.lastTs)
              == Some(RowAt(series - dead, k).value.lastValue)
    {
      assert RowAt(series - dead, k) == RowAt(series, k);
    }
  }

  function Later(a: int, b: int): (r: int)
    ensures r >= a && r >= b && (r == a || r == b)
  {
    if a > b then a else b
  }

  /** The time from which everything written is still there, after pruning a tier; aggregates are not written. */
  function Horizon(horizon: int, tier: int, cut: int): int { if tier == TIER_RAW then Later(cut, horizon) else horizon }

  lemma PruneKeepsFaithful(before: map<Slot, Points>, after: map<Slot, Points>, w: Archive, horizon: int, tier: int,
                           cut: int)
    requires Faithful(before, w, horizon) && TakesOnlyOld(before, after, tier, cut)
    requires forall s {:trigger before[s]} :: s in before ==> s.0.tier == TIER_RAW
    ensures Faithful(after, w, Horizon(horizon, tier, cut))
  {
    forall k, ts | At(after, k, ts).Some? || ts >= Horizon(horizon, tier, cut)
      ensures At(after, k, ts) == Get(ArchiveOf(w, k), ts)
    {
      assert At(before, k, ts).Some? || ts >= horizon ==> At(before, k, ts) == Get(ArchiveOf(w, k), ts);
      assert (k, Hour(ts)) in before ==> k.tier == TIER_RAW;
    }
  }
}
