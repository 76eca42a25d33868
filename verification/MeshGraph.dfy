/** Link probes, the undirected graph they are folded into, and walks over it. */
module MeshGraph {
  import opened Ordering

  datatype Probe = Probe(from: string, to: string, rttMs: real, lossRate: real, direct: bool)
  datatype MeshConfig = MeshConfig(lossPenalty: real, hopFactor: real, maxHops: nat)
  datatype Edge = Edge(to: string, w: real)

  type Graph = map<string, seq<Edge>>
  type Pair = (string, string)
  /** The cheapest cost of every linked pair. */
  type Links = map<Pair, real>
  /** Reported probes; the program's slice holds pointers, so an entry may be nil. */
  type Probes = seq<Option<Probe>>

  function Cost(cfg: MeshConfig, p: Probe): real
  {
    p.rttMs + p.lossRate * 1000.0 * cfg.lossPenalty + cfg.hopFactor
  }

  function PairKey(a: string, b: string): Pair
  {
    if StrLess(a, b) then (a, b) else (b, a)
  }

  lemma PairKeySymmetric(a: string, b: string)
    ensures PairKey(a, b) == PairKey(b, a)
  {
    StrLessTotal(a, b);
    if StrLess(a, b) { StrLessAsym(a, b); }
    if StrLess(b, a) { StrLessAsym(b, a); }
  }

  predicate Usable(p: Option<Probe>)
  {
    p.Some? && p.value.from != "" && p.value.to != "" && p.value.from != p.value.to
  }

  predicate Measures(p: Option<Probe>, k: Pair)
  {
    Usable(p) && PairKey(p.value.from, p.value.to) == k
  }

  // ---------- the cheapest probe of every pair ----------

  /** Some probe of the pair costs exactly `c`. */
  ghost predicate Attained(cfg: MeshConfig, probes: Probes, k: Pair, c: real)
  {
    exists i :: 0 <= i < |probes| && Measures(probes[i], k) && Cost(cfg, probes[i].value) == c
  }

  /** `best` holds, for every measured pair, the least cost any of its probes gives. */
  ghost predicate IsBest(cfg: MeshConfig, probes: Probes, best: Links)
  {
    && (forall k :: k in best ==> Attained(cfg, probes, k, best[k]))
    && (forall i, k :: 0 <= i < |probes| && Measures(probes[i], k)
         ==> k in best && best[k] <= Cost(cfg, probes[i].value))
  }

  /** Some probe of the pair costs no more than `c`. */
  ghost predicate Undercut(cfg: MeshConfig, probes: Probes, k: Pair, c: real)
  {
    exists i :: 0 <= i < |probes| && Measures(probes[i], k) && Cost(cfg, probes[i].value) <= c
  }

  /** Each usable probe of `a` has one in `b` for the same pair that costs no more. */
  ghost predicate Covered(cfg: MeshConfig, a: Probes, b: Probes)
  {
    forall i, k :: 0 <= i < |a| && Measures(a[i], k) ==> Undercut(cfg, b, k, Cost(cfg, a[i].value))
  }

  ghost predicate Below(a: Links, b: Links)
  {
    forall k :: k in b ==> k in a && a[k] <= b[k]
  }

  /** Only the cheapest probe of each unordered pair matters. */
  lemma CheapestDecides(cfg: MeshConfig, a: Probes, b: Probes, bestA: Links, bestB: Links)
    requires IsBest(cfg, a, bestA) && IsBest(cfg, b, bestB)
    requires Covered(cfg, a, b) && Covered(cfg, b, a)
    ensures bestA == bestB
  {
    CoveredIsBelow(cfg, a, b, bestA, bestB);
    CoveredIsBelow(cfg, b, a, bestB, bestA);
    BelowBothWays(bestA, bestB);
  }

  lemma CoveredIsBelow(cfg: MeshConfig, a: Probes, b: Probes, bestA: Links, bestB: Links)
    requires IsBest(cfg, a, bestA) && IsBest(cfg, b, bestB) && Covered(cfg, a, b)
    ensures Below(bestB, bestA)
  {
    forall k | k in bestA ensures k in bestB && bestB[k] <= bestA[k] {
      var i :| 0 <= i < |a| && Measures(a[i], k) && Cost(cfg, a[i].value) == bestA[k];
      assert Undercut(cfg, b, k, Cost(cfg, a[i].value));
    }
  }

  lemma BelowBothWays(a: Links, b: Links)
    requires Below(a, b) && Below(b, a)
    ensures a == b
  {
  }

  lemma PermutationCovers(cfg: MeshConfig, a: Probes, b: Probes)
    requires multiset(a) == multiset(b)
    ensures Covered(cfg, a, b)
  {
    forall i, k | 0 <= i < |a| && Measures(a[i], k) ensures Undercut(cfg, b, k, Cost(cfg, a[i].value)) {
      assert a[i] in multiset(b);
      var j :| 0 <= j < |b| && b[j] == a[i];
    }
  }

  /** Reordering the probes keeps every best cost. */
  lemma PermutationKeepsBest(cfg: MeshConfig, a: Probes, b: Probes, bestA: Links, bestB: Links)
    requires IsBest(cfg, a, bestA) && IsBest(cfg, b, bestB) && multiset(a) == multiset(b)
    ensures bestA == bestB
  {
    PermutationCovers(cfg, a, b);
    PermutationCovers(cfg, b, a);
    CheapestDecides(cfg, a, b, bestA, bestB);
  }

  /** The probe at `i` reported from its other end. */
  function SwappedAt(a: Probes, i: nat): Probes
    requires i < |a| && a[i].Some?
  {
    a[i := Some(a[i].value.(from := a[i].value.to, to := a[i].value.from))]
  }

  lemma SwapCovers(cfg: MeshConfig, a: Probes, i: nat)
    requires i < |a| && a[i].Some?
    ensures Covered(cfg, a, SwappedAt(a, i))
  {
    PairKeySymmetric(a[i].value.from, a[i].value.to);
    var b := SwappedAt(a, i);
    forall j, k | 0 <= j < |a| && Measures(a[j], k) ensures Undercut(cfg, b, k, Cost(cfg, a[j].value)) {
      assert Measures(b[j], k);
    }
  }

  lemma SwapCoversBothWays(cfg: MeshConfig, a: Probes, i: nat)
    requires i < |a| && a[i].Some?
    ensures Covered(cfg, a, SwappedAt(a, i)) && Covered(cfg, SwappedAt(a, i), a)
  {
    SwapCovers(cfg, a, i);
    SwapCovers(cfg, SwappedAt(a, i), i);
    assert SwappedAt(SwappedAt(a, i), i) == a;
  }

  /** Reporting a link from its other end keeps every best cost. */
  lemma SwapKeepsBest(cfg: MeshConfig, a: Probes, i: nat, bestA: Links, bestB: Links)
    requires i < |a| && a[i].Some?
    requires IsBest(cfg, a, bestA) && IsBest(cfg, SwappedAt(a, i), bestB)
    ensures bestA == bestB
  {
    SwapCoversBothWays(cfg, a, i);
    CheapestDecides(cfg, a, SwappedAt(a, i), bestA, bestB);
  }

  lemma DuplicateCovers(cfg: MeshConfig, a: Probes, p: Probe)
    requires forall k :: Measures(Some(p), k) ==> Undercut(cfg, a, k, Cost(cfg, p))
    ensures Covered(cfg, a, a + [Some(p)]) && Covered(cfg, a + [Some(p)], a)
  {
    var b := a + [Some(p)];
    forall j, k | 0 <= j < |a| && Measures(a[j], k) ensures Undercut(cfg, b, k, Cost(cfg, a[j].value)) {
      assert b[j] == a[j];
    }
    forall j, k | 0 <= j < |b| && Measures(b[j], k) ensures Undercut(cfg, a, k, Cost(cfg, b[j].value)) {
      if j < |a| { assert b[j] == a[j]; }
    }
  }

  /** Another probe of a measured pair that is no cheaper keeps every best cost. */
  lemma DuplicateKeepsBest(cfg: MeshConfig, a: Probes, p: Probe, bestA: Links, bestB: Links)
    requires forall k :: Measures(Some(p), k) ==> Undercut(cfg, a, k, Cost(cfg, p))
    requires IsBest(cfg, a, bestA) && IsBest(cfg, a + [Some(p)], bestB)
    ensures bestA == bestB
  {
    DuplicateCovers(cfg, a, p);
    CheapestDecides(cfg, a, a + [Some(p)], bestA, bestB);
  }

  // ---------- the graph ----------

  ghost predicate HasEdge(g: Graph, a: string, e: Edge)
  {
    a in g && e in g[a]
  }

  /** No node is unnamed and every edge ends at a node. */
  ghost predicate Closed(g: Graph)
  {
    && "" !in g
    && forall a, e :: HasEdge(g, a, e) ==> e.to in g
  }

  ghost predicate NonNegative(g: Graph)
  {
    forall a, e :: HasEdge(g, a, e) ==> e.w >= 0.0
  }

  ghost predicate GoodPair(k: Pair)
  {
    k.0 != "" && k.1 != "" && k.0 != k.1 && PairKey(k.0, k.1) == k && PairKey(k.1, k.0) == k
  }

  ghost predicate GoodLinks(best: Links)
  {
    forall k :: k in best ==> GoodPair(k)
  }

  ghost predicate LinkOf(best: Links, a: string, e: Edge)
  {
    a != e.to && PairKey(a, e.to) in best && best[PairKey(a, e.to)] == e.w
  }

  ghost predicate OnlyLinks(g: Graph, best: Links)
  {
    forall a, e :: HasEdge(g, a, e) ==> LinkOf(best, a, e)
  }

  ghost predicate AllLinks(g: Graph, best: Links)
  {
    forall k :: k in best ==> HasEdge(g, k.0, Edge(k.1, best[k])) && HasEdge(g, k.1, Edge(k.0, best[k]))
  }

  /** Every link appears at both ends, and nothing else appears. */
  ghost predicate IsGraphOf(g: Graph, best: Links)
  {
    && OnlyLinks(g, best)
    && AllLinks(g, best)
    && (forall a :: a in g ==> g[a] != [])
  }

  lemma GraphIsClosed(g: Graph, best: Links)
    requires GoodLinks(best) && IsGraphOf(g, best)
    ensures Closed(g)
  {
    forall a | a in g ensures a != "" {
      assert HasEdge(g, a, g[a][0]) && LinkOf(best, a, g[a][0]);
      assert GoodPair(PairKey(a, g[a][0].to));
    }
    forall a, e | HasEdge(g, a, e) ensures e.to in g {
      assert LinkOf(best, a, e);
      var k := PairKey(a, e.to);
      assert HasEdge(g, k.0, Edge(k.1, best[k])) && HasEdge(g, k.1, Edge(k.0, best[k]));
    }
  }

  /** Folds the probes into the graph; self loops and unnamed ends are skipped and the cheaper duplicate wins. */
  method BuildGraph(probes: Probes, cfg: MeshConfig) returns (g: Graph, ghost links: Links)
    ensures IsBest(cfg, probes, links) && GoodLinks(links) && IsGraphOf(g, links) && Closed(g)
  {
    var best: Links := map[];
    for n := 0 to |probes|
      invariant IsBest(cfg, probes[..n], best) && GoodLinks(best)
    {
      ghost var was := best;
      var p := probes[n];
      if Usable(p) {
        var w := Cost(cfg, p.value);
        var key := PairKey(p.value.from, p.value.to);
        PairKeySymmetric(p.value.from, p.value.to);
        if !(key in best && best[key] <= w) {
          best := best[key := w];
        }
      }
      BestStep(cfg, probes, n, was, best);
    }
    assert probes[..|probes|] == probes;
    g := AddLinks(best);
    links := best;
    GraphIsClosed(g, best);
  }

  lemma BestStep(cfg: MeshConfig, probes: Probes, n: nat, was: Links, best: Links)
    requires n < |probes| && IsBest(cfg, probes[..n], was)
    requires !Usable(probes[n]) ==> best == was
    requires Usable(probes[n]) ==>
               var w, key := Cost(cfg, probes[n].value), PairKey(probes[n].value.from, probes[n].value.to);
               best == if key in was && was[key] <= w then was else was[key := w]
    ensures IsBest(cfg, probes[..n + 1], best)
  {
    var next := probes[..n + 1];
    assert forall i :: 0 <= i < n ==> next[i] == probes[..n][i];
    BestCovers(cfg, probes, n, was, best);
    forall k | k in best ensures Attained(cfg, next, k, best[k]) {
      if k in was && was[k] == best[k] {
        AttainedStill(cfg, probes, n, k, was[k]);
      } else {
        assert Measures(next[n], k);
      }
    }
  }

  lemma BestCovers(cfg: MeshConfig, probes: Probes, n: nat, was: Links, best: Links)
    requires n < |probes| && IsBest(cfg, probes[..n], was)
    requires !Usable(probes[n]) ==> best == was
    requires Usable(probes[n]) ==>
               var w, key := Cost(cfg, probes[n].value), PairKey(probes[n].value.from, probes[n].value.to);
               best == if key in was && was[key] <= w then was else was[key := w]
    ensures var next := probes[..n + 1];
            forall i, k :: 0 <= i < |next| && Measures(next[i], k) ==> k in best && best[k] <= Cost(cfg, next[i].value)
  {
    var next := probes[..n + 1];
    forall i, k | 0 <= i < |next| && Measures(next[i], k) ensures k in best && best[k] <= Cost(cfg, next[i].value) {
      if i < n { assert Measures(probes[..n][i], k) && next[i] == probes[..n][i]; }
    }
  }

  lemma AttainedStill(cfg: MeshConfig, probes: Probes, n: nat, k: Pair, c: real)
    requires n < |probes| && Attained(cfg, probes[..n], k, c)
    ensures Attained(cfg, probes[..n + 1], k, c)
  {
    var i :| 0 <= i < n && Measures(probes[..n][i], k) && Cost(cfg, probes[..n][i].value) == c;
    assert probes[..n + 1][i] == probes[..n][i];
  }

  function Adjacent(g: Graph, a: string): seq<Edge>
  {
    if a in g then g[a] else []
  }

  function AddEdge(g: Graph, a: string, e: Edge): Graph
  {
    g[a := Adjacent(g, a) + [e]]
  }

  lemma AddEdgeAdds(g: Graph, a: string, e: Edge)
    ensures forall b, f :: HasEdge(AddEdge(g, a, e), b, f) <==> HasEdge(g, b, f) || (b == a && f == e)
  {
    forall b, f | b == a && (HasEdge(g, a, f) || f == e) ensures HasEdge(AddEdge(g, a, e), b, f) {
      assert f in Adjacent(g, a) + [e];
    }
  }

  method AddLinks(best: Links) returns (g: Graph)
    requires GoodLinks(best)
    ensures IsGraphOf(g, best)
  {
    g := map[];
    var todo := best.Keys;
    ghost var done: Links := map[];
    while todo != {}
      invariant todo <= best.Keys && done.Keys == best.Keys - todo
      invariant forall k :: k in done ==> done[k] == best[k]
      invariant IsGraphOf(g, done)
      decreases |todo|
    {
      var k :| k in todo;
      todo := todo - {k};
      LinkStep(g, done, k, best[k]);
      g := AddLink(g, k.0, k.1, best[k]);
      done := done[k := best[k]];
    }
    assert done == best;
  }

  function AddLink(g: Graph, a: string, b: string, w: real): Graph
  {
    AddEdge(AddEdge(g, a, Edge(b, w)), b, Edge(a, w))
  }

  lemma AddLinkAdds(g: Graph, a: string, b: string, w: real)
    ensures forall n, e :: HasEdge(AddLink(g, a, b, w), n, e) <==>
              HasEdge(g, n, e) || (n == a && e == Edge(b, w)) || (n == b && e == Edge(a, w))
  {
    AddEdgeAdds(g, a, Edge(b, w));
    AddEdgeAdds(AddEdge(g, a, Edge(b, w)), b, Edge(a, w));
  }

  lemma LinkStep(g: Graph, done: Links, k: Pair, w: real)
    requires IsGraphOf(g, done) && k !in done && GoodPair(k)
    ensures IsGraphOf(AddLink(g, k.0, k.1, w), done[k := w])
  {
    AddLinkAdds(g, k.0, k.1, w);
    KeepsOnlyLinks(g, AddLink(g, k.0, k.1, w), done, k, w);
    KeepsAllLinks(g, AddLink(g, k.0, k.1, w), done, k, w);
  }

  lemma KeepsAllLinks(g: Graph, next: Graph, done: Links, k: Pair, w: real)
    requires AllLinks(g, done)
    requires forall n, e :: HasEdge(g, n, e) ==> HasEdge(next, n, e)
    requires HasEdge(next, k.0, Edge(k.1, w)) && HasEdge(next, k.1, Edge(k.0, w))
    ensures AllLinks(next, done[k := w])
  {
  }

  lemma KeepsOnlyLinks(g: Graph, next: Graph, done: Links, k: Pair, w: real)
    requires OnlyLinks(g, done) && k !in done && GoodPair(k)
    requires forall n, e :: HasEdge(next, n, e) ==>
               HasEdge(g, n, e) || (n == k.0 && e == Edge(k.1, w)) || (n == k.1 && e == Edge(k.0, w))
    ensures OnlyLinks(next, done[k := w])
  {
    forall a, e | HasEdge(next, a, e) ensures LinkOf(done[k := w], a, e) {
      if HasEdge(g, a, e) { assert LinkOf(done, a, e); }
    }
  }

  // ---------- walks along edges ----------

  ghost predicate IsWalk(g: Graph, u: string, es: seq<Edge>, v: string)
    decreases |es|
  {
    if es == [] then u == v
    else HasEdge(g, u, es[0]) && IsWalk(g, es[0].to, es[1..], v)
  }

  ghost function Length(es: seq<Edge>): real
  {
    if es == [] then 0.0 else es[0].w + Length(es[1..])
  }

  lemma {:induction false} ExtendWalk(g: Graph, u: string, es: seq<Edge>, m: string, e: Edge)
    requires IsWalk(g, u, es, m) && HasEdge(g, m, e)
    ensures IsWalk(g, u, es + [e], e.to) && Length(es + [e]) == Length(es) + e.w
    decreases |es|
  {
    if es == [] {
      assert es + [e] == [e] && [e][1..] == [];
      assert IsWalk(g, e.to, [e][1..], e.to);
    } else {
      ExtendWalk(g, es[0].to, es[1..], m, e);
      assert (es + [e])[1..] == es[1..] + [e];
    }
  }

  // ---------- paths along links ----------

  ghost predicate PathIn(best: Links, p: seq<string>)
  {
    |p| > 0 && forall i :: 0 < i < |p| ==> PairKey(p[i - 1], p[i]) in best && p[i - 1] != p[i]
  }

  ghost function PathCost(best: Links, p: seq<string>): real
    requires PathIn(best, p)
  {
    if |p| == 1 then 0.0
    else PathCost(best, p[..|p| - 1]) + best[PairKey(p[|p| - 2], p[|p| - 1])]
  }

  lemma {:induction false} ExtendPath(best: Links, p: seq<string>, v: string)
    requires PathIn(best, p) && p[|p| - 1] != v && PairKey(p[|p| - 1], v) in best
    ensures PathIn(best, p + [v])
    ensures PathCost(best, p + [v]) == PathCost(best, p) + best[PairKey(p[|p| - 1], v)]
  {
    assert (p + [v])[..|p|] == p;
  }

  ghost predicate Connects(best: Links, p: seq<string>, u: string, v: string)
  {
    PathIn(best, p) && p[0] == u && p[|p| - 1] == v
  }

  ghost predicate Reachable(best: Links, u: string, v: string)
  {
    exists p :: Connects(best, p, u, v)
  }
}
