/** Grouping points by aligned windows: write windows, downsampling and aggregate buckets. */
module Buckets {
  import opened Ordering

  datatype Point<V> = Point(ts: int, v: V)

  /** Maps a time stamp to the window it belongs to. */
  type Key = int -> int

  /** Go's integer division, which truncates toward zero. */
  function Quotient(x: int, w: int): int
    requires w > 0
  {
    if x >= 0 then x / w else -(-x / w)
  }

  /** Go's remainder, which has the sign of the dividend. */
  function Remainder(x: int, w: int): int
    requires w > 0
  {
    x - Quotient(x, w) * w
  }

  /** ts - ts % w: windows of length `w` aligned to the epoch. */
  function Aligned(w: int): Key
    requires w > 0
  {
    ts => ts - Remainder(ts, w)
  }

  /** From the epoch on a window starts at the last multiple of its length and holds its points. */
  lemma AlignedBounds(ts: int, w: int)
    requires w > 0 && ts >= 0
    ensures Aligned(w)(ts) == ts / w * w
    ensures Aligned(w)(ts) <= ts < Aligned(w)(ts) + w
  {
  }

  /** A point lies within the bounds of its window exactly from the epoch on, or at the window's start: the window of
      any other point before the epoch begins after the point. */
  lemma WindowHoldsFromEpochOn(ts: int, w: int)
    requires w > 0
    ensures Aligned(w)(ts) <= ts < Aligned(w)(ts) + w <==> ts >= 0 || Remainder(ts, w) == 0
    ensures ts < 0 && Remainder(ts, w) != 0 ==> ts < Aligned(w)(ts) < ts + w
    ensures Aligned(w)(ts) == Quotient(ts, w) * w
  {
    if ts < 0 {
      var q := -ts / w;
      assert -ts == q * w + -ts % w;
      assert Quotient(ts, w) * w == -(q * w);
    }
  }

  /** The points of window `b`, in the order they came. */
  function Members<V>(pts: seq<Point<V>>, b: int, key: Key): seq<Point<V>>
  {
    if pts == [] then []
    else
      var n := |pts| - 1;
      Members(pts[..n], b, key) + (if key(pts[n].ts) == b then [pts[n]] else [])
  }

  lemma {:induction false} MembersNext<V>(pts: seq<Point<V>>, p: Point<V>, b: int, key: Key)
    ensures Members(pts + [p], b, key) == if key(p.ts) == b then Members(pts, b, key) + [p] else Members(pts, b, key)
  {
    assert (pts + [p])[..|pts|] == pts;
  }

  lemma {:induction false} MembersCount<V>(pts: seq<Point<V>>, b: int, key: Key, x: Point<V>)
    ensures multiset(Members(pts, b, key))[x] == if key(x.ts) == b then multiset(pts)[x] else 0
  {
    if pts == [] {
    } else {
      var n := |pts| - 1;
      MembersCount(pts[..n], b, key, x);
      assert pts == pts[..n] + [pts[n]];
    }
  }

  lemma {:induction false} NoMembers<V>(pts: seq<Point<V>>, b: int, key: Key)
    requires forall i :: 0 <= i < |pts| ==> key(pts[i].ts) != b
    ensures Members(pts, b, key) == []
  {
    if pts == [] {
    } else {
      NoMembers(pts[..|pts| - 1], b, key);
    }
  }

  /** `starts` lists exactly the windows that hold points, in order. */
  ghost predicate ListsWindows<V>(starts: seq<int>, pts: seq<Point<V>>, key: Key)
  {
    && StrictlyIncreasing(starts)
    && (forall i :: 0 <= i < |starts| ==> Members(pts, starts[i], key) != [])
    && (forall i :: 0 <= i < |pts| ==> key(pts[i].ts) in starts)
  }

  /** The members of the listed windows, one window after the other. */
  ghost function Regrouped<V>(starts: seq<int>, pts: seq<Point<V>>, key: Key): seq<Point<V>>
  {
    if starts == [] then []
    else Regrouped(starts[..|starts| - 1], pts, key) + Members(pts, starts[|starts| - 1], key)
  }

  lemma {:induction false} RegroupedCount<V>(starts: seq<int>, pts: seq<Point<V>>, key: Key, x: Point<V>)
    requires StrictlyIncreasing(starts)
    ensures multiset(Regrouped(starts, pts, key))[x] == if key(x.ts) in starts then multiset(pts)[x] else 0
  {
    if starts == [] {
    } else {
      var n := |starts| - 1;
      RegroupedCount(starts[..n], pts, key, x);
      MembersCount(pts, starts[n], key, x);
      assert starts == starts[..n] + [starts[n]];
    }
  }

  /** The windows partition the points: each point is in exactly one of them. */
  lemma {:induction false} WindowsPartition<V(!new)>(starts: seq<int>, pts: seq<Point<V>>, key: Key)
    requires ListsWindows(starts, pts, key)
    ensures multiset(Regrouped(starts, pts, key)) == multiset(pts)
  {
    forall x ensures multiset(Regrouped(starts, pts, key))[x] == multiset(pts)[x] {
      RegroupedCount(starts, pts, key, x);
      if x in multiset(pts) {
        var i :| 0 <= i < |pts| && pts[i] == x;
      }
    }
  }

  // ---------- tables built point by point ----------

  /** The keys met so far, in the order they were met. */
  ghost predicate KeysOf<V>(keys: seq<int>, pts: seq<Point<V>>, key: Key)
  {
    && Distinct(keys)
    && (forall i :: 0 <= i < |keys| ==> Members(pts, keys[i], key) != [])
    && (forall i :: 0 <= i < |pts| ==> key(pts[i].ts) in keys)
  }

  /** Loop invariant of the three grouping loops: one entry per key met, each fitting its members. */
  ghost predicate Built<V, A>(m: map<int, A>, keys: seq<int>, pts: seq<Point<V>>, key: Key,
                              fits: (int, A, seq<Point<V>>) -> bool)
  {
    && KeysOf(keys, pts, key)
    && (forall b :: b in m <==> b in keys)
    && EntriesFit(m, pts, key, fits)
  }

  ghost predicate EntriesFit<V, A>(m: map<int, A>, pts: seq<Point<V>>, key: Key, fits: (int, A, seq<Point<V>>) -> bool)
  {
    forall b :: b in m ==> fits(b, m[b], Members(pts, b, key))
  }

  lemma {:induction false} EntriesFitNext<V, A>(m: map<int, A>, pts: seq<Point<V>>, p: Point<V>, a: A, key: Key,
                                                fits: (int, A, seq<Point<V>>) -> bool)
    requires EntriesFit(m, pts, key, fits) && fits(key(p.ts), a, Members(pts, key(p.ts), key) + [p])
    ensures EntriesFit(m[key(p.ts) := a], pts + [p], key, fits)
  {
    var next := m[key(p.ts) := a];
    forall c | c in next ensures fits(c, next[c], Members(pts + [p], c, key)) { MembersNext(pts, p, c, key); }
  }

  lemma KeysNext<V>(keys: seq<int>, pts: seq<Point<V>>, p: Point<V>, key: Key)
    requires KeysOf(keys, pts, key)
    ensures KeysOf(if key(p.ts) in keys then keys else keys + [key(p.ts)], pts + [p], key)
  {
    var b := key(p.ts);
    var next, more := if b in keys then keys else keys + [b], pts + [p];
    forall i | 0 <= i < |next| ensures Members(more, next[i], key) != [] {
      MembersNext(pts, p, next[i], key);
      if i < |keys| { assert next[i] == keys[i]; }
    }
    forall i | 0 <= i < |more| ensures key(more[i].ts) in next {
      if i < |pts| { assert more[i] == pts[i] && key(pts[i].ts) in keys; }
    }
  }

  lemma {:induction false} BuiltNext<V, A>(m: map<int, A>, keys: seq<int>, pts: seq<Point<V>>, p: Point<V>, a: A,
                                           key: Key, fits: (int, A, seq<Point<V>>) -> bool)
    requires Built(m, keys, pts, key, fits)
    requires fits(key(p.ts), a, Members(pts, key(p.ts), key) + [p])
    ensures Built(m[key(p.ts) := a], if key(p.ts) in m then keys else keys + [key(p.ts)], pts + [p], key, fits)
  {
    KeysNext(keys, pts, p, key);
    EntriesFitNext(m, pts, p, a, key, fits);
  }

  /** A window not met yet has no members. */
  lemma {:induction false} BuiltAt<V, A>(m: map<int, A>, keys: seq<int>, pts: seq<Point<V>>, b: int, key: Key,
                                         fits: (int, A, seq<Point<V>>) -> bool)
    requires Built(m, keys, pts, key, fits)
    ensures b in m ==> fits(b, m[b], Members(pts, b, key))
    ensures b !in m ==> Members(pts, b, key) == []
  {
    if b !in m { NoMembers(pts, b, key); }
  }

  lemma {:induction false} BuiltSorted<V, A>(m: map<int, A>, keys: seq<int>, pts: seq<Point<V>>, key: Key,
                                             fits: (int, A, seq<Point<V>>) -> bool)
    requires Built(m, keys, pts, key, fits)
    ensures var s := Sort(IntLeq, keys);
            && ListsWindows(s, pts, key)
            && forall i :: 0 <= i < |s| ==> s[i] in m && fits(s[i], m[s[i]], Members(pts, s[i], key))
  {
    SortInts(keys);
    var s := Sort(IntLeq, keys);
    forall i | 0 <= i < |s| ensures s[i] in keys && Members(pts, s[i], key) != [] { assert s[i] in s; }
    forall i | 0 <= i < |pts| ensures key(pts[i].ts) in s { assert key(pts[i].ts) in keys; }
  }

  // ---------- write windows ----------

  datatype Window<V> = Window(start: int, end: int, pts: seq<Point<V>>)

  function Starts<V>(ws: seq<Window<V>>): seq<int>
  {
    seq(|ws|, i requires 0 <= i < |ws| => ws[i].start)
  }

  /** Windows in order, each with its own points in the order they came. */
  ghost predicate GroupsOf<V>(ws: seq<Window<V>>, pts: seq<Point<V>>, w: int)
    requires w > 0
  {
    && ListsWindows(Starts(ws), pts, Aligned(w))
    && forall i :: 0 <= i < |ws| ==> ws[i].end == ws[i].start + w && ws[i].pts == Members(pts, ws[i].start, Aligned(w))
  }

  predicate WindowFits<V(==)>(w: int, b: int, a: Window<V>, ms: seq<Point<V>>) { a == Window(b, b + w, ms) }

  method GroupWindows<V(==)>(pts: seq<Point<V>>, w: int) returns (out: seq<Window<V>>)
    requires w > 0
    ensures GroupsOf(out, pts, w)
  {
    out := GroupBy(pts, w, Aligned(w));
  }

  /** The entries of a table in the order of the keys. */
  method ListEntries<A>(m: map<int, A>, keys: seq<int>) returns (out: seq<A>)
    requires forall i :: 0 <= i < |keys| ==> keys[i] in m
    ensures |out| == |keys| && forall i :: 0 <= i < |keys| ==> out[i] == m[keys[i]]
  {
    out := [];
    for n := 0 to |keys|
      invariant |out| == n && forall i :: 0 <= i < n ==> out[i] == m[keys[i]]
    {
      out := out + [m[keys[n]]];
    }
  }

  method GroupBy<V(==)>(pts: seq<Point<V>>, w: int, key: Key) returns (out: seq<Window<V>>)
    ensures ListsWindows(Starts(out), pts, key)
    ensures forall i :: 0 <= i < |out| ==>
              out[i].end == out[i].start + w && out[i].pts == Members(pts, out[i].start, key)
  {
    ghost var fits := (b, a, ms) => WindowFits<V>(w, b, a, ms);
    var m: map<int, Window<V>> := map[];
    var keys: seq<int> := [];
    for n := 0 to |pts|
      invariant Built(m, keys, pts[..n], key, fits)
    {
      var p := pts[n];
      assert pts[..n + 1] == pts[..n] + [p];
      var b := key(p.ts);
      BuiltAt(m, keys, pts[..n], b, key, fits);
      var window := if b in m then m[b] else Window(b, b + w, []);
      window := window.(pts := window.pts + [p]);
      BuiltNext(m, keys, pts[..n], p, window, key, fits);
      if b !in m { keys := keys + [b]; }
      m := m[b := window];
    }
    assert pts[..|pts|] == pts;
    BuiltSorted(m, keys, pts, key, fits);
    keys := Sort(IntLeq, keys);
    out := ListEntries(m, keys);
    assert Starts(out) == keys;
  }

  // ---------- means ----------

  function Sum(pts: seq<Point<real>>): real
  {
    if pts == [] then 0.0 else Sum(pts[..|pts| - 1]) + pts[|pts| - 1].v
  }

  function Mean(pts: seq<Point<real>>): real
    requires pts != []
  {
    Sum(pts) / (|pts| as real)
  }

  lemma {:induction false} SumNext(pts: seq<Point<real>>, p: Point<real>)
    ensures Sum(pts + [p]) == Sum(pts) + p.v
  {
    assert (pts + [p])[..|pts|] == pts;
  }

  lemma {:induction false} SumMoves(pts: seq<Point<real>>, i: nat, d: real)
    requires i < |pts|
    ensures Sum(pts[i := pts[i].(v := pts[i].v + d)]) == Sum(pts) + d
  {
    var n := |pts| - 1;
    var moved := pts[i := pts[i].(v := pts[i].v + d)];
    if i < n {
      SumMoves(pts[..n], i, d);
      assert moved[..n] == pts[..n][i := pts[i].(v := pts[i].v + d)];
    } else {
      assert moved[..n] == pts[..n];
    }
  }

  lemma {:induction false} SumOfEqual(pts: seq<Point<real>>, v: real)
    requires forall i :: 0 <= i < |pts| ==> pts[i].v == v
    ensures Sum(pts) == (|pts| as real) * v
  {
    if pts == [] {
    } else {
      SumOfEqual(pts[..|pts| - 1], v);
    }
  }

  lemma MeanShifts(a: real, d: real, v: real, n: real)
    requires n > 0.0
    ensures (a + d) / n == a / n + d / n && n * v / n == v
  {
  }

  /** Every point weighs the same in a mean, and a mean of equal values is that value. */
  lemma MeanTells(pts: seq<Point<real>>, i: nat, d: real)
    requires i < |pts|
    ensures Mean(pts[i := pts[i].(v := pts[i].v + d)]) == Mean(pts) + d / (|pts| as real)
    ensures (forall j :: 0 <= j < |pts| ==> pts[j].v == pts[i].v) ==> Mean(pts) == pts[i].v
  {
    SumMoves(pts, i, d);
    MeanShifts(Sum(pts), d, pts[i].v, |pts| as real);
    if forall j :: 0 <= j < |pts| ==> pts[j].v == pts[i].v { SumOfEqual(pts, pts[i].v); }
  }

  /** The point for a window: its start and the exact mean of its members. */
  ghost predicate IsMean(p: Point<real>, pts: seq<Point<real>>, key: Key)
  {
    var ms := Members(pts, p.ts, key);
    ms != [] && p.v == Mean(ms)
  }

  datatype Bucket = Bucket(sum: real, n: nat)

  predicate BucketFits(b: int, a: Bucket, ms: seq<Point<real>>) { a == Bucket(Sum(ms), |ms|) }

  function TimesOf<V>(ps: seq<Point<V>>): seq<int>
  {
    seq(|ps|, i requires 0 <= i < |ps| => ps[i].ts)
  }

  method Downsample(pts: seq<Point<real>>, stepMs: int) returns (out: seq<Point<real>>)
    ensures stepMs <= 0 || |pts| == 0 ==> out == pts
    ensures stepMs > 0 ==> ListsWindows(TimesOf(out), pts, Aligned(stepMs))
    ensures stepMs > 0 ==> forall i :: 0 <= i < |out| ==> IsMean(out[i], pts, Aligned(stepMs))
  {
    if stepMs <= 0 || |pts| == 0 { return pts; }
    out := MeansBy(pts, Aligned(stepMs));
  }

  method MeansBy(pts: seq<Point<real>>, key: Key) returns (out: seq<Point<real>>)
    ensures ListsWindows(TimesOf(out), pts, key)
    ensures forall i :: 0 <= i < |out| ==> IsMean(out[i], pts, key)
  {
    var buckets: map<int, Bucket> := map[];
    var keys: seq<int> := [];
    for n := 0 to |pts|
      invariant Built(buckets, keys, pts[..n], key, BucketFits)
    {
      var p := pts[n];
      assert pts[..n + 1] == pts[..n] + [p];
      var b := key(p.ts);
      BuiltAt(buckets, keys, pts[..n], b, key, BucketFits);
      var bucket := if b in buckets then buckets[b] else Bucket(0.0, 0);
      bucket := Bucket(bucket.sum + p.v, bucket.n + 1);
      SumNext(Members(pts[..n], b, key), p);
      BuiltNext(buckets, keys, pts[..n], p, bucket, key, BucketFits);
      if b !in buckets { keys := keys + [b]; }
      buckets := buckets[b := bucket];
    }
    assert pts[..|pts|] == pts;
    BuiltSorted(buckets, keys, pts, key, BucketFits);
    keys := Sort(IntLeq, keys);
    out := [];
    for n := 0 to |keys|
      invariant |out| == n && forall i :: 0 <= i < n ==> out[i].ts == keys[i] && IsMean(out[i], pts, key)
    {
      var b := buckets[keys[n]];
      assert Members(pts, keys[n], key) != [];
      out := out + [Point(keys[n], b.sum / (b.n as real))];
    }
    assert TimesOf(out) == keys;
  }

  // ---------- aggregates ----------

  datatype AggPoint = AggPoint(ts: int, avg: real, max: real)
  datatype AccB = AccB(sum: real, max: real, n: nat)

  /** `m` is the greatest value: none is above it and one attains it. */
  ghost predicate IsMax(m: real, pts: seq<Point<real>>)
  {
    && (forall i :: 0 <= i < |pts| ==> pts[i].v <= m)
    && (exists i :: 0 <= i < |pts| && pts[i].v == m)
  }

  lemma MaxNext(m: real, pts: seq<Point<real>>, p: Point<real>)
    requires if pts == [] then m == p.v else IsMax(m, pts)
    ensures IsMax(if p.v > m then p.v else m, pts + [p])
  {
    var next := pts + [p];
    if pts == [] || p.v > m {
      assert next[|pts|].v == p.v;
    } else {
      var i :| 0 <= i < |pts| && pts[i].v == m;
      assert next[i].v == m;
    }
  }

  lemma {:induction false} SumBelow(m: real, pts: seq<Point<real>>)
    requires forall i :: 0 <= i < |pts| ==> pts[i].v <= m
    ensures Sum(pts) <= m * (|pts| as real)
  {
    if pts == [] {
    } else {
      SumBelow(m, pts[..|pts| - 1]);
    }
  }

  /** An average never exceeds the greatest value. */
  lemma MeanBelowMax(m: real, pts: seq<Point<real>>)
    requires pts != [] && IsMax(m, pts)
    ensures Mean(pts) <= m
  {
    SumBelow(m, pts);
    var n := |pts| as real;
    assert Sum(pts) / n <= m * n / n;
  }

  ghost predicate IsAggregate(p: AggPoint, pts: seq<Point<real>>, key: Key)
  {
    var ms := Members(pts, p.ts, key);
    ms != [] && p.avg == Mean(ms) && IsMax(p.max, ms) && p.avg <= p.max
  }

  lemma {:induction false} AccIsAggregate(b: int, a: AccB, pts: seq<Point<real>>, key: Key)
    requires Members(pts, b, key) != [] && AccFits(b, a, Members(pts, b, key))
    ensures IsAggregate(AggPoint(b, a.sum / (a.n as real), a.max), pts, key)
  {
    MeanBelowMax(a.max, Members(pts, b, key));
  }

  function AggTimes(ps: seq<AggPoint>): seq<int>
  {
    seq(|ps|, i requires 0 <= i < |ps| => ps[i].ts)
  }

  ghost predicate AccFits(b: int, a: AccB, ms: seq<Point<real>>)
  {
    a.sum == Sum(ms) && a.n == |ms| && IsMax(a.max, ms)
  }

  lemma AccNext(b: int, a: AccB, ms: seq<Point<real>>, p: Point<real>)
    requires if ms == [] then a == AccB(0.0, p.v, 0) else AccFits(b, a, ms)
    ensures AccFits(b, AccB(a.sum + p.v, if p.v > a.max then p.v else a.max, a.n + 1), ms + [p])
  {
    SumNext(ms, p);
    MaxNext(a.max, ms, p);
  }

  method AggregateBuckets(pts: seq<Point<real>>, bucketMs: int) returns (out: seq<AggPoint>)
    requires bucketMs > 0
    ensures ListsWindows(AggTimes(out), pts, Aligned(bucketMs))
    ensures forall i :: 0 <= i < |out| ==> IsAggregate(out[i], pts, Aligned(bucketMs))
  {
    out := AggregateBy(pts, Aligned(bucketMs));
  }

  method AggregateBy(pts: seq<Point<real>>, key: Key) returns (out: seq<AggPoint>)
    ensures ListsWindows(AggTimes(out), pts, key)
    ensures forall i :: 0 <= i < |out| ==> IsAggregate(out[i], pts, key)
  {
    var m: map<int, AccB> := map[];
    var keys: seq<int> := [];
    for n := 0 to |pts|
      invariant Built(m, keys, pts[..n], key, AccFits)
    {
      var p := pts[n];
      assert pts[..n + 1] == pts[..n] + [p];
      var b := key(p.ts);
      BuiltAt(m, keys, pts[..n], b, key, AccFits);
      var a := if b in m then m[b] else AccB(0.0, p.v, 0);
      AccNext(b, a, Members(pts[..n], b, key), p);
      a := a.(sum := a.sum + p.v, n := a.n + 1);
      if p.v > a.max { a := a.(max := p.v); }
      BuiltNext(m, keys, pts[..n], p, a, key, AccFits);
      if b !in m { keys := keys + [b]; }
      m := m[b := a];
    }
    assert pts[..|pts|] == pts;
    BuiltSorted(m, keys, pts, key, AccFits);
    out := ListAggregates(m, Sort(IntLeq, keys), pts, key);
  }

  method ListAggregates(m: map<int, AccB>, keys: seq<int>, ghost pts: seq<Point<real>>, ghost key: Key)
      returns (out: seq<AggPoint>)
    requires forall i :: 0 <= i < |keys| ==> keys[i] in m && AccFits(keys[i], m[keys[i]], Members(pts, keys[i], key))
    requires forall i :: 0 <= i < |keys| ==> Members(pts, keys[i], key) != []
    ensures AggTimes(out) == keys && forall i :: 0 <= i < |out| ==> IsAggregate(out[i], pts, key)
  {
    out := [];
    for n := 0 to |keys|
      invariant |out| == n && forall i :: 0 <= i < n ==> out[i].ts == keys[i] && IsAggregate(out[i], pts, key)
    {
      var a := m[keys[n]];
      AccIsAggregate(keys[n], a, pts, key);
      out := out + [AggPoint(keys[n], a.sum / (a.n as real), a.max)];
    }
  }
}
