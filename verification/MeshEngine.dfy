/** Route tables: rebuilding paths, filtering by hops, and the topology version. */
module MeshRoutes {
  import opened Ordering
  import opened MeshGraph
  import opened MeshFingerprints
  import opened ProbeRoutes
  import opened Dijkstra

  const UINT32 := 0x1_0000_0000

  datatype RouteEntry = RouteEntry(dst: string, nextHop: string, hopCount: nat, cost: real, path: seq<string>)
  datatype RouteTable = RouteTable(version: int, computedAt: int, entries: seq<RouteEntry>, maxHops: nat)

  // ---------- paths out of the predecessor map ----------

  /** `p` follows the predecessors: node `i` is `i` hops out. */
  ghost predicate FollowsTree(prev: map<string, string>, hops: map<string, nat>, src: string, p: seq<string>)
  {
    && |p| > 0 && p[0] == src
    && (forall i :: 0 <= i < |p| ==> HopsOf(hops, p[i]) == i)
    && (forall i :: 1 <= i < |p| ==> p[i] in prev && prev[p[i]] == p[i - 1])
  }

  /** The path from the source to `v` along the predecessors. */
  ghost function TreePath(g: Graph, src: string, dist: DistMap, prev: map<string, string>, hops: map<string, nat>,
                          v: string): (p: seq<string>)
    requires SearchTree(g, src, dist, prev, hops) && src in g && Reached(dist, v)
    ensures FollowsTree(prev, hops, src, p) && p[|p| - 1] == v
    decreases HopsOf(hops, v)
  {
    if v == src then [src]
    else
      assert TreeEdge(g, dist, prev, hops, v);
      TreePath(g, src, dist, prev, hops, prev[v]) + [v]
  }

  function PrevOf(prev: map<string, string>, v: string): string
  {
    if v in prev then prev[v] else ""
  }

  /** Walks the predecessors back from `dst`; the hop counts show that it ends. */
  method RebuildPath(prev: map<string, string>, src: string, dst: string,
                     ghost g: Graph, ghost dist: DistMap, ghost hops: map<string, nat>)
      returns (path: seq<string>)
    requires Closed(g) && src in g && SearchTree(g, src, dist, prev, hops)
    ensures dst != src && dst !in prev ==> path == []
    ensures dst == src || dst in prev ==> Reached(dist, dst) && path == TreePath(g, src, dist, prev, hops, dst)
  {
    if dst != src && dst !in prev { return []; }
    path := [];
    var cur := dst;
    assert Reached(dist, dst);
    while cur != ""
      invariant cur in g && Reached(dist, cur) && Reached(dist, dst)
      invariant TreePath(g, src, dist, prev, hops, cur) + path == TreePath(g, src, dist, prev, hops, dst)
      decreases HopsOf(hops, cur)
    {
      path := [cur] + path;
      if cur == src { break; }
      assert TreeEdge(g, dist, prev, hops, cur);
      cur := PrevOf(prev, cur);
    }
    if |path| == 0 || path[0] != src { return []; }
  }

  function PathNextHop(path: seq<string>): string
  {
    if |path| <= 1 then "" else path[1]
  }

  /** A path out of the tree visits no node twice. */
  lemma TreePathIsSimple(prev: map<string, string>, hops: map<string, nat>, src: string, p: seq<string>)
    requires FollowsTree(prev, hops, src, p)
    ensures Distinct(p)
  {
  }

  lemma TreeLink(best: Links, g: Graph, src: string, dist: DistMap, prev: map<string, string>, hops: map<string, nat>,
                 v: string)
    requires OnlyLinks(g, best) && SearchTree(g, src, dist, prev, hops) && v in prev
    ensures Reached(dist, v) && Reached(dist, prev[v]) && v != prev[v] && PairKey(prev[v], v) in best
    ensures best[PairKey(prev[v], v)] == dist[v].d - dist[prev[v]].d
  {
    assert TreeEdge(g, dist, prev, hops, v);
    assert LinkOf(best, prev[v], Edge(v, dist[v].d - dist[prev[v]].d));
  }

  /** It runs along links and its cost is the distance of its end. */
  lemma {:induction false} TreePathCost(best: Links, g: Graph, src: string, dist: DistMap, prev: map<string, string>,
                                        hops: map<string, nat>, p: seq<string>)
    requires OnlyLinks(g, best) && src in g && SearchTree(g, src, dist, prev, hops) && FollowsTree(prev, hops, src, p)
    ensures PathIn(best, p) && Reached(dist, p[|p| - 1]) && PathCost(best, p) == dist[p[|p| - 1]].d
    decreases |p|
  {
    if |p| == 1 {
    } else {
      var q, v := p[..|p| - 1], p[|p| - 1];
      TreePathCost(best, g, src, dist, prev, hops, q);
      TreeLink(best, g, src, dist, prev, hops, v);
      LinkOnPath(best, dist, q, v, prev[v]);
      assert p == q + [v];
    }
  }

  /** A path whose cost is the distance of its end stays so along a link that makes up the difference. */
  lemma {:induction false} LinkOnPath(best: Links, dist: DistMap, q: seq<string>, v: string, u: string)
    requires PathIn(best, q) && q[|q| - 1] == u && Reached(dist, u) && Reached(dist, v)
    requires PathCost(best, q) == dist[u].d && u != v && PairKey(u, v) in best
    requires best[PairKey(u, v)] == dist[v].d - dist[u].d
    ensures PathIn(best, q + [v]) && PathCost(best, q + [v]) == dist[v].d
  {
    ExtendPath(best, q, v);
  }

  /** Along any path of links the distance grows by no more than the path costs. */
  lemma {:induction false} PathIsNoCheaper(best: Links, g: Graph, dist: DistMap, p: seq<string>)
    requires GoodLinks(best) && AllLinks(g, best) && PathIn(best, p) && Reached(dist, p[0])
    requires NeighboursReached(g, dist)
    ensures Reached(dist, p[|p| - 1])
    ensures AllRelaxed(g, dist) ==> dist[p[|p| - 1]].d <= dist[p[0]].d + PathCost(best, p)
    decreases |p|
  {
    if |p| == 1 {
    } else {
      PathIsNoCheaper(best, g, dist, p[..|p| - 1]);
      LastLink(best, p);
      LinkReaches(best, g, dist, p[|p| - 2], p[|p| - 1]);
    }
  }

  lemma LastLink(best: Links, p: seq<string>)
    requires PathIn(best, p) && |p| > 1
    ensures var q, k := p[..|p| - 1], PairKey(p[|p| - 2], p[|p| - 1]);
            && PathIn(best, q) && k in best && PathCost(best, p) == PathCost(best, q) + best[k]
            && q[0] == p[0] && q[|q| - 1] == p[|p| - 2]
  {
  }

  lemma LinkReaches(best: Links, g: Graph, dist: DistMap, a: string, b: string)
    requires GoodLinks(best) && AllLinks(g, best) && PairKey(a, b) in best && Reached(dist, a)
             && NeighboursReached(g, dist)
    ensures Reached(dist, b) && (AllRelaxed(g, dist) ==> dist[b].d <= dist[a].d + best[PairKey(a, b)])
  {
    LinkIsEdge(best, g, a, b);
    var e := Edge(b, best[PairKey(a, b)]);
    if AllRelaxed(g, dist) { assert Relaxed(dist, a, e); }
  }

  lemma LinkIsEdge(best: Links, g: Graph, a: string, b: string)
    requires GoodLinks(best) && AllLinks(g, best) && PairKey(a, b) in best
    ensures HasEdge(g, a, Edge(b, best[PairKey(a, b)]))
  {
    assert GoodPair(PairKey(a, b));
  }

  // ---------- what a route table promises ----------

  /** A simple path of links from the source to `dst`. */
  ghost predicate GoodPath(best: Links, source: string, dst: string, p: seq<string>)
  {
    Connects(best, p, source, dst) && Distinct(p) && |p| >= 2
  }

  ghost predicate Cheapest(best: Links, source: string, dst: string, cost: real)
  {
    forall p :: Connects(best, p, source, dst) ==> cost <= PathCost(best, p)
  }

  ghost predicate NonNegativeLinks(best: Links)
  {
    forall k :: k in best ==> best[k] >= 0.0
  }

  /** The entry a chosen path gives. */
  ghost function EntryOf(best: Links, dst: string, p: seq<string>): RouteEntry
    requires PathIn(best, p) && |p| >= 2
  {
    RouteEntry(dst, p[1], (|p| - 1) % UINT32, PathCost(best, p), p)
  }

  /** `chosen` has one simple path, a cheapest one if no link is negative, for each reachable node but the source. */
  ghost predicate Choice(best: Links, source: string, chosen: map<string, seq<string>>)
  {
    && (forall v :: v in chosen ==> v != source && GoodPath(best, source, v, chosen[v]))
    && (NonNegativeLinks(best) ==> forall v :: v in chosen ==> Cheapest(best, source, v, PathCost(best, chosen[v])))
    && (forall v :: v != source && Reachable(best, source, v) ==> v in chosen)
  }

  predicate WithinHops(maxHops: nat, p: seq<string>)
  {
    maxHops == 0 || (|p| - 1) % UINT32 <= maxHops
  }

  ghost predicate Entered(best: Links, chosen: map<string, seq<string>>, maxHops: nat, e: RouteEntry)
  {
    && e.dst in chosen && PathIn(best, chosen[e.dst]) && |chosen[e.dst]| >= 2
    && WithinHops(maxHops, chosen[e.dst])
    && e == EntryOf(best, e.dst, chosen[e.dst])
  }

  ghost predicate HasEntry(entries: seq<RouteEntry>, dst: string)
  {
    exists i :: 0 <= i < |entries| && entries[i].dst == dst
  }

  /** The entries are those of the chosen paths within the hop limit, ordered by destination. */
  ghost predicate GoodTable(best: Links, source: string, chosen: map<string, seq<string>>, maxHops: nat,
                            entries: seq<RouteEntry>)
  {
    && Choice(best, source, chosen)
    && (forall i :: 0 <= i < |entries| ==> Entered(best, chosen, maxHops, entries[i]))
    && (forall v :: v in chosen && WithinHops(maxHops, chosen[v]) ==> HasEntry(entries, v))
    && StrictlyByDst(entries)
  }

  ghost predicate StrictlyByDst(entries: seq<RouteEntry>)
  {
    forall i, j :: 0 <= i < j < |entries| ==> StrLess(entries[i].dst, entries[j].dst)
  }

  predicate EntryLeq(a: RouteEntry, b: RouteEntry) { StrLeq(a.dst, b.dst) }

  lemma EntryLeqIsLinear()
    ensures Linear(EntryLeq)
  {
    StrLeqIsLinear();
  }

  /** Sorting entries of distinct destinations orders them strictly. */
  lemma {:induction false} SortEntries(entries: seq<RouteEntry>)
    requires forall i, j :: 0 <= i < j < |entries| ==> entries[i].dst != entries[j].dst
    ensures StrictlyByDst(Sort(EntryLeq, entries))
    ensures forall e :: e in Sort(EntryLeq, entries) <==> e in entries
  {
    EntryLeqIsLinear();
    SortSorts(EntryLeq, entries);
    SortPermutes(EntryLeq, entries);
    var s := Sort(EntryLeq, entries);
    DistinctPermutation(entries, s);
    forall i, j | 0 <= i < j < |s| ensures StrLess(s[i].dst, s[j].dst) {
      assert s[i] in entries && s[j] in entries && s[i] != s[j];
      assert EntryLeq(s[i], s[j]);
    }
  }

  // ---------- tables told from the probes ----------

  /** A route of probes from one agent to another. */
  ghost predicate Leads(probes: Probes, route: seq<nat>, path: seq<string>, a: string, b: string)
  {
    Along(probes, route, path) && path[0] == a && path[|path| - 1] == b
  }

  /** The entry is a simple path from the source, its cost is the price of probes along it, and it keeps to the hop
      limit. */
  ghost predicate EntryTold(cfg: MeshConfig, probes: Probes, source: string, e: RouteEntry)
  {
    && (exists route :: Leads(probes, route, e.path, source, e.dst) && Priced(cfg, probes, route, e.cost))
    && |e.path| >= 2 && Distinct(e.path) && e.nextHop == e.path[1]
    && e.hopCount == (|e.path| - 1) % 0x1_0000_0000 && (cfg.maxHops > 0 ==> e.hopCount <= cfg.maxHops)
  }

  ghost predicate NonNegativeProbes(cfg: MeshConfig, probes: Probes)
  {
    forall i: nat, c :: Priced(cfg, probes, [i], c) ==> c >= 0.0
  }

  /** No route of probes to the destination is cheaper. */
  ghost predicate NoneCheaper(cfg: MeshConfig, probes: Probes, source: string, dst: string, cost: real)
  {
    forall route, path, c :: Leads(probes, route, path, source, dst) && Priced(cfg, probes, route, c) ==> cost <= c
  }

  /** A simple route that exceeds the hop limit, and a cheapest one unless some probe is negative. */
  ghost predicate TooFar(cfg: MeshConfig, probes: Probes, source: string, dst: string)
  {
    exists route, path, c :: Exceeds(cfg, probes, source, dst, route, path, c)
  }

  ghost predicate Exceeds(cfg: MeshConfig, probes: Probes, source: string, dst: string, route: seq<nat>,
                          path: seq<string>, c: real)
  {
    && Leads(probes, route, path, source, dst) && Distinct(path) && Priced(cfg, probes, route, c)
    && cfg.maxHops > 0 && |route| % 0x1_0000_0000 > cfg.maxHops
    && (NonNegativeProbes(cfg, probes) ==> NoneCheaper(cfg, probes, source, dst, c))
  }

  ghost predicate AllLed(cfg: MeshConfig, probes: Probes, source: string, entries: seq<RouteEntry>)
  {
    forall route, path, v :: v != source && Leads(probes, route, path, source, v)
      ==> HasEntry(entries, v) || TooFar(cfg, probes, source, v)
  }

  /** What a route table says of the probes: one entry, the cheapest route, for every agent that probes lead to, unless
      the hop limit forbids it. */
  ghost predicate RoutesTold(cfg: MeshConfig, probes: Probes, source: string, entries: seq<RouteEntry>)
  {
    && (forall e :: e in entries ==> EntryTold(cfg, probes, source, e) && e.dst != source)
    && (NonNegativeProbes(cfg, probes) ==>
          forall e :: e in entries ==> NoneCheaper(cfg, probes, source, e.dst, e.cost))
    && AllLed(cfg, probes, source, entries)
    && StrictlyByDst(entries)
  }

  lemma ProbesAreNonNegative(cfg: MeshConfig, probes: Probes, best: Links)
    requires IsBest(cfg, probes, best) && NonNegativeProbes(cfg, probes)
    ensures NonNegativeLinks(best)
  {
    forall k | k in best ensures best[k] >= 0.0 {
      assert Attained(cfg, probes, k, best[k]);
      var i: nat :| i < |probes| && Measures(probes[i], k) && Cost(cfg, probes[i].value) == best[k];
      PricedMore(cfg, probes, [], i, 0.0, best[k]);
      assert [] + [i] == [i];
    }
  }

  lemma {:induction false} ChosenCannotBeBeaten(cfg: MeshConfig, probes: Probes, best: Links, source: string,
                                                chosen: map<string, seq<string>>, v: string)
    requires IsBest(cfg, probes, best) && Choice(best, source, chosen) && v in chosen
    requires NonNegativeProbes(cfg, probes)
    ensures NoneCheaper(cfg, probes, source, v, PathCost(best, chosen[v]))
  {
    ProbesAreNonNegative(cfg, probes, best);
    forall route, path, c | Leads(probes, route, path, source, v) && Priced(cfg, probes, route, c)
      ensures PathCost(best, chosen[v]) <= c {
      var d := RouteIsPath(cfg, probes, best, route, path);
      assert Connects(best, path, source, v);
      assert Cheapest(best, source, v, PathCost(best, chosen[v]));
    }
  }

  lemma EntryIsTold(cfg: MeshConfig, probes: Probes, best: Links, source: string, chosen: map<string, seq<string>>,
                    e: RouteEntry)
    requires IsBest(cfg, probes, best) && GoodLinks(best) && Choice(best, source, chosen)
    requires Entered(best, chosen, cfg.maxHops, e)
    ensures EntryTold(cfg, probes, source, e) && e.dst != source
  {
    assert GoodPath(best, source, e.dst, chosen[e.dst]);
    var route := PathHasRoute(cfg, probes, best, chosen[e.dst]);
    assert Leads(probes, route, e.path, source, e.dst);
  }

  lemma ReachedIsTold(cfg: MeshConfig, probes: Probes, best: Links, source: string, chosen: map<string, seq<string>>,
                      entries: seq<RouteEntry>, route: seq<nat>, path: seq<string>, v: string)
    requires IsBest(cfg, probes, best) && GoodLinks(best)
    requires GoodTable(best, source, chosen, cfg.maxHops, entries)
    requires v != source && Leads(probes, route, path, source, v)
    ensures HasEntry(entries, v) || TooFar(cfg, probes, source, v)
  {
    var d := RouteIsPath(cfg, probes, best, route, path);
    assert Connects(best, path, source, v);
    assert Reachable(best, source, v);
    assert GoodPath(best, source, v, chosen[v]);
    if !WithinHops(cfg.maxHops, chosen[v]) { LongIsTooFar(cfg, probes, best, source, chosen, v); }
  }

  lemma LongIsTooFar(cfg: MeshConfig, probes: Probes, best: Links, source: string, chosen: map<string, seq<string>>,
                     v: string)
    requires IsBest(cfg, probes, best) && GoodLinks(best) && Choice(best, source, chosen)
    requires v in chosen && !WithinHops(cfg.maxHops, chosen[v])
    ensures TooFar(cfg, probes, source, v)
  {
    assert GoodPath(best, source, v, chosen[v]);
    var long := PathHasRoute(cfg, probes, best, chosen[v]);
    assert Leads(probes, long, chosen[v], source, v);
    if NonNegativeProbes(cfg, probes) { ChosenCannotBeBeaten(cfg, probes, best, source, chosen, v); }
    assert Exceeds(cfg, probes, source, v, long, chosen[v], PathCost(best, chosen[v]));
  }

  /** A good table for the best costs of the probes tells their routes. */
  lemma TableTellsRoutes(cfg: MeshConfig, probes: Probes, best: Links, source: string, chosen: map<string, seq<string>>,
                         entries: seq<RouteEntry>)
    requires IsBest(cfg, probes, best) && GoodLinks(best)
    requires GoodTable(best, source, chosen, cfg.maxHops, entries)
    ensures RoutesTold(cfg, probes, source, entries)
  {
    forall e | e in entries
      ensures EntryTold(cfg, probes, source, e) && e.dst != source
      ensures NonNegativeProbes(cfg, probes) ==> NoneCheaper(cfg, probes, source, e.dst, e.cost)
    {
      var i :| 0 <= i < |entries| && entries[i] == e;
      assert Entered(best, chosen, cfg.maxHops, entries[i]);
      EntryIsTold(cfg, probes, best, source, chosen, e);
      if NonNegativeProbes(cfg, probes) { ChosenCannotBeBeaten(cfg, probes, best, source, chosen, e.dst); }
    }
    forall route, path, v | v != source && Leads(probes, route, path, source, v)
      ensures HasEntry(entries, v) || TooFar(cfg, probes, source, v) {
      ReachedIsTold(cfg, probes, best, source, chosen, entries, route, path, v);
    }
  }

  // ---------- the table of a single link ----------

  ghost predicate Link(p: Probe) { p.from != "" && p.to != "" && p.from != p.to }

  lemma OneLinkPath(p: Probe, route: seq<nat>, path: seq<string>, v: string)
    requires Link(p) && Leads([Some(p)], route, path, p.from, v) && Distinct(path) && |path| >= 2
    ensures route == [0] && path == [p.from, p.to] && v == p.to
  {
    assert Spans([Some(p)][route[0]], path[0], path[1]);
    assert |path| > 2 ==> Spans([Some(p)][route[1]], path[1], path[2]);
  }

  lemma OneLinkEntry(cfg: MeshConfig, p: Probe, e: RouteEntry)
    requires Link(p) && EntryTold(cfg, [Some(p)], p.from, e)
    ensures e.dst == e.nextHop == p.to && e.hopCount == 1 && e.path == [p.from, p.to]
    ensures Priced(cfg, [Some(p)], [0], e.cost)
  {
    var route :| Leads([Some(p)], route, e.path, p.from, e.dst) && Priced(cfg, [Some(p)], route, e.cost);
    OneLinkPath(p, route, e.path, e.dst);
  }

  lemma OneLinkIsNear(cfg: MeshConfig, p: Probe)
    requires Link(p)
    ensures !TooFar(cfg, [Some(p)], p.from, p.to)
  {
    forall route, path, c ensures !Exceeds(cfg, [Some(p)], p.from, p.to, route, path, c) {
      if Exceeds(cfg, [Some(p)], p.from, p.to, route, path, c) { OneLinkPath(p, route, path, p.to); }
    }
  }

  /** A table over one link holds the link alone. */
  lemma OneLinkTable(cfg: MeshConfig, p: Probe, es: seq<RouteEntry>)
    requires Link(p) && RoutesTold(cfg, [Some(p)], p.from, es)
    ensures |es| == 1 && es[0].dst == es[0].nextHop == p.to && es[0].hopCount == 1 && es[0].path == [p.from, p.to]
    ensures p.rttMs == p.lossRate == 0.0 ==> es[0].cost == cfg.hopFactor
    ensures Priced(cfg, [Some(p)], [0], es[0].cost)
  {
    OneLinkIsNear(cfg, p);
    assert Leads([Some(p)], [0], [p.from, p.to], p.from, p.to);
    assert HasEntry(es, p.to);
    forall i | 0 <= i < |es| ensures es[i].dst == p.to {
      assert es[i] in es;
      OneLinkEntry(cfg, p, es[i]);
    }
    if |es| > 1 { StrLessAsym(es[0].dst, es[1].dst); }
    assert es[0] in es;
    OneLinkEntry(cfg, p, es[0]);
    OneHopPrice(cfg, p, es[0].cost);
  }

  lemma OneHopPrice(cfg: MeshConfig, p: Probe, c: real)
    requires Priced(cfg, [Some(p)], [0], c)
    ensures c == p.rttMs + 1000.0 * p.lossRate * cfg.lossPenalty + cfg.hopFactor
    ensures p.rttMs == p.lossRate == 0.0 ==> c == cfg.hopFactor
  {
    var probes: Probes, route: seq<nat> := [Some(p)], [0];
    assert route[..0] == [];
    assert Delay(probes, route) == p.rttMs && Loss(probes, route) == p.lossRate;
    if p.lossRate == 0.0 { assert 1000.0 * Loss(probes, route) * cfg.lossPenalty == 0.0; }
    assert (|route| as real) * cfg.hopFactor == cfg.hopFactor;
  }

  /** A table's cost over a link grows by one for a millisecond more, and by the loss penalty for a thousandth more
      loss. */
  lemma LinkCostMoves(cfg: MeshConfig, p: Probe, q: Probe, es: seq<RouteEntry>, fs: seq<RouteEntry>)
    requires Link(p) && q.from == p.from && q.to == p.to
    requires RoutesTold(cfg, [Some(p)], p.from, es) && RoutesTold(cfg, [Some(q)], p.from, fs)
    ensures |es| == |fs| == 1
    ensures fs[0].cost - es[0].cost
         == q.rttMs - p.rttMs + 1000.0 * (q.lossRate - p.lossRate) * cfg.lossPenalty
  {
    OneLinkTable(cfg, p, es);
    OneLinkTable(cfg, q, fs);
    OneHopPrice(cfg, p, es[0].cost);
    OneHopPrice(cfg, q, fs[0].cost);
    Shares(1000.0 * p.lossRate, 1000.0 * (q.lossRate - p.lossRate), cfg.lossPenalty);
  }

  // ---------- from the search to the table ----------

  lemma WeightsNonNegative(best: Links, g: Graph)
    requires OnlyLinks(g, best) && NonNegativeLinks(best)
    ensures NonNegative(g)
  {
    forall a, e | HasEdge(g, a, e) ensures e.w >= 0.0 { assert LinkOf(best, a, e); }
  }

  ghost function Chosen(g: Graph, src: string, dist: DistMap, prev: map<string, string>,
                        hops: map<string, nat>): map<string, seq<string>>
    requires SearchTree(g, src, dist, prev, hops)
  {
    map v | v in prev :: assert Reached(dist, v); TreePath(g, src, dist, prev, hops, v)
  }

  lemma {:induction false} ChosenAreGood(best: Links, g: Graph, src: string, dist: DistMap, prev: map<string, string>,
                                         hops: map<string, nat>, v: string)
    requires OnlyLinks(g, best) && SearchTree(g, src, dist, prev, hops) && v in prev
    ensures src in g && Reached(dist, v)
    ensures var p := TreePath(g, src, dist, prev, hops, v);
            GoodPath(best, src, v, p) && PathCost(best, p) == dist[v].d && |p| - 1 == HopsOf(hops, v)
  {
    assert Reached(dist, v);
    var p := TreePath(g, src, dist, prev, hops, v);
    TreePathCost(best, g, src, dist, prev, hops, p);
    TreePathIsSimple(prev, hops, src, p);
    assert TreeEdge(g, dist, prev, hops, v);
  }

  lemma ChosenAreCheapest(best: Links, g: Graph, src: string, dist: DistMap, v: string)
    requires GoodLinks(best) && AllLinks(g, best) && src in g && dist.Keys == g.Keys && dist[src] == Fin(0.0)
    requires NeighboursReached(g, dist) && AllRelaxed(g, dist) && Reached(dist, v)
    ensures Cheapest(best, src, v, dist[v].d)
  {
    forall p | Connects(best, p, src, v) ensures dist[v].d <= PathCost(best, p) {
      PathIsNoCheaper(best, g, dist, p);
    }
  }

  lemma ReachableIsReached(best: Links, g: Graph, src: string, dist: DistMap, prev: map<string, string>,
                           hops: map<string, nat>, v: string)
    requires GoodLinks(best) && AllLinks(g, best) && SearchTree(g, src, dist, prev, hops)
    requires NeighboursReached(g, dist) && v != src && Reachable(best, src, v)
    ensures v in prev
  {
    var p :| Connects(best, p, src, v);
    assert GoodPair(PairKey(p[0], p[1]));
    PathIsNoCheaper(best, g, dist, p);
  }

  lemma SearchGivesChoice(best: Links, g: Graph, src: string, dist: DistMap, prev: map<string, string>,
                          hops: map<string, nat>)
    requires GoodLinks(best) && IsGraphOf(g, best) && SearchTree(g, src, dist, prev, hops)
    requires NeighboursReached(g, dist) && (NonNegative(g) ==> AllRelaxed(g, dist))
    ensures Choice(best, src, Chosen(g, src, dist, prev, hops))
  {
    var chosen := Chosen(g, src, dist, prev, hops);
    forall v | v in chosen ensures v != src && GoodPath(best, src, v, chosen[v]) {
      ChosenAreGood(best, g, src, dist, prev, hops, v);
    }
    if NonNegativeLinks(best) {
      WeightsNonNegative(best, g);
      forall v | v in chosen ensures Cheapest(best, src, v, PathCost(best, chosen[v])) {
        ChosenAreGood(best, g, src, dist, prev, hops, v);
        ChosenAreCheapest(best, g, src, dist, v);
      }
    }
    forall v | v != src && Reachable(best, src, v) ensures v in chosen {
      ReachableIsReached(best, g, src, dist, prev, hops, v);
    }
  }

  // ---------- the engine ----------

  class MeshEngine {
    const cfg: MeshConfig
    var lastFP: Option<Fingerprint>
    var lastVersion: int
    ghost var calls: seq<Fingerprint>

    ghost predicate Valid()
      reads this
    {
      && lastVersion == Changes(calls)
      && lastFP == if calls == [] then None else Some(calls[|calls| - 1])
    }

    constructor (c: MeshConfig)
      ensures Valid() && calls == []
      ensures cfg.lossPenalty == (if c.lossPenalty == 0.0 then 1.0 else c.lossPenalty) != 0.0
      ensures cfg.hopFactor == (if c.hopFactor == 0.0 then 10.0 else c.hopFactor) != 0.0
      ensures cfg.maxHops == c.maxHops
    {
      cfg := MeshConfig(if c.lossPenalty == 0.0 then 1.0 else c.lossPenalty,
                        if c.hopFactor == 0.0 then 10.0 else c.hopFactor, c.maxHops);
      lastFP, lastVersion, calls := None, 0, [];
    }

    method Compute(probes: Probes, source: string, computedAt: int)
        returns (t: RouteTable, ghost best: Links, ghost chosen: map<string, seq<string>>)
      requires Valid()
      modifies this
      ensures Valid() && calls == old(calls) + [FingerprintOf(probes)]
      ensures t.version == lastVersion && t.computedAt == computedAt && t.maxHops == cfg.maxHops
      ensures IsBest(cfg, probes, best) && GoodLinks(best)
      ensures GoodTable(best, source, chosen, cfg.maxHops, t.entries) && IsTableFor(cfg, probes, source, t.entries)
      ensures RoutesTold(cfg, probes, source, t.entries)
    {
      var fp := ComputeFingerprint(probes);
      var g, links := BuildGraph(probes, cfg);
      best := links;
      var entries;
      entries, chosen := Routes(g, links, source);
      SortEntries(entries);
      EntriesSorted(best, source, chosen, cfg.maxHops, g.Keys, entries);
      entries := Sort(EntryLeq, entries);
      TableTellsRoutes(cfg, probes, best, source, chosen, entries);

      var version := NextVersion(fp);
      t := RouteTable(version, computedAt, entries, cfg.maxHops);
    }

    /** The version moves on when the fingerprint is not that of the call before. */
    method NextVersion(fp: Fingerprint) returns (version: int)
      requires Valid()
      modifies this
      ensures Valid() && calls == old(calls) + [fp] && version == lastVersion
    {
      version := lastVersion;
      if lastFP != Some(fp) {
        version := lastVersion + 1;
        lastVersion := version;
        lastFP := Some(fp);
      }
      NextChange(calls, fp);
      calls := calls + [fp];
    }

    method Routes(g: Graph, ghost best: Links, source: string)
        returns (entries: seq<RouteEntry>, ghost chosen: map<string, seq<string>>)
      requires Closed(g) && GoodLinks(best) && IsGraphOf(g, best)
      ensures Choice(best, source, chosen) && chosen.Keys <= g.Keys
      ensures Collected(best, chosen, cfg.maxHops, g.Keys, entries)
    {
      var dist, prev, hops, _ := Search(g, source);
      chosen := Chosen(g, source, dist, prev, hops);
      SearchGivesChoice(best, g, source, dist, prev, hops);
      entries := CollectRoutes(g, best, source, dist, prev, hops);
    }

    method CollectRoutes(g: Graph, ghost best: Links, source: string, dist: DistMap, prev: map<string, string>,
                         hops: map<string, nat>)
        returns (entries: seq<RouteEntry>)
      requires Closed(g) && OnlyLinks(g, best) && SearchTree(g, source, dist, prev, hops)
      ensures Collected(best, Chosen(g, source, dist, prev, hops), cfg.maxHops, g.Keys, entries)
    {
      ghost var chosen := Chosen(g, source, dist, prev, hops);
      entries := [];
      var todo := dist.Keys;
      ghost var done := {};
      while todo != {}
        invariant todo <= dist.Keys && done == dist.Keys - todo
        invariant Collected(best, chosen, cfg.maxHops, done, entries)
        decreases todo
      {
        var dst :| dst in todo;
        var entry := RouteTo(g, best, source, dist, prev, hops, dst);
        CollectStep(best, chosen, cfg.maxHops, done, entries, dst, entry);
        if entry.Some? { entries := entries + [entry.value]; }
        todo, done := todo - {dst}, done + {dst};
      }
    }

    /** The loop body of the table: nothing for the source, unreachable nodes and nodes past the hop limit. */
    method RouteTo(g: Graph, ghost best: Links, source: string, dist: DistMap, prev: map<string, string>,
                   hops: map<string, nat>, dst: string)
        returns (entry: Option<RouteEntry>)
      requires Closed(g) && OnlyLinks(g, best) && SearchTree(g, source, dist, prev, hops) && dst in g
      ensures IsEntryFor(best, Chosen(g, source, dist, prev, hops), cfg.maxHops, dst, entry)
    {
      if dst == source || dist[dst].Inf? { return None; }
      ChosenAreGood(best, g, source, dist, prev, hops, dst);
      var hc := HopsOf(hops, dst) % UINT32;
      if cfg.maxHops > 0 && hc > cfg.maxHops { return None; }
      var path := RebuildPath(prev, source, dst, g, dist, hops);
      return Some(RouteEntry(dst, PathNextHop(path), hc, dist[dst].d, path));
    }
  }

  ghost predicate IsEntryFor(best: Links, chosen: map<string, seq<string>>, maxHops: nat, v: string,
                             entry: Option<RouteEntry>)
  {
    match entry
    case None => v !in chosen || !WithinHops(maxHops, chosen[v])
    case Some(e) => e.dst == v && Entered(best, chosen, maxHops, e)
  }

  /** The entries so far: one for each finished destination within the hop limit. */
  ghost predicate Collected(best: Links, chosen: map<string, seq<string>>, maxHops: nat, done: set<string>,
                            entries: seq<RouteEntry>)
  {
    && (forall i :: 0 <= i < |entries| ==> Entered(best, chosen, maxHops, entries[i]) && entries[i].dst in done)
    && (forall v :: v in chosen && v in done && WithinHops(maxHops, chosen[v]) ==> HasEntry(entries, v))
    && (forall i, j :: 0 <= i < j < |entries| ==> entries[i].dst != entries[j].dst)
  }

  lemma CollectStep(best: Links, chosen: map<string, seq<string>>, maxHops: nat, done: set<string>,
                    entries: seq<RouteEntry>,
                    v: string, entry: Option<RouteEntry>)
    requires Collected(best, chosen, maxHops, done, entries) && v !in done
    requires IsEntryFor(best, chosen, maxHops, v, entry)
    ensures Collected(best, chosen, maxHops, done + {v}, if entry.Some? then entries + [entry.value] else entries)
  {
    if entry.Some? {
      var next := entries + [entry.value];
      forall w | w in chosen && w in done + {v} && WithinHops(maxHops, chosen[w]) ensures HasEntry(next, w) {
        if w == v {
          assert next[|entries|].dst == v;
        } else {
          var i :| 0 <= i < |entries| && entries[i].dst == w;
          assert next[i].dst == w;
        }
      }
    }
  }

  lemma {:induction false} EntriesSorted(best: Links, source: string, chosen: map<string, seq<string>>, maxHops: nat,
                                         nodes: set<string>, entries: seq<RouteEntry>)
    requires Choice(best, source, chosen)
    requires chosen.Keys <= nodes && Collected(best, chosen, maxHops, nodes, entries)
    ensures GoodTable(best, source, chosen, maxHops, Sort(EntryLeq, entries))
  {
    SortEntries(entries);
    var s := Sort(EntryLeq, entries);
    forall i | 0 <= i < |s| ensures Entered(best, chosen, maxHops, s[i]) { assert s[i] in entries; }
    forall v | v in chosen && WithinHops(maxHops, chosen[v]) ensures HasEntry(s, v) {
      var i :| 0 <= i < |entries| && entries[i].dst == v;
      assert entries[i] in s;
    }
  }

  // ---------- what tables of the same links share ----------

  /** Costs and, without a hop limit, destinations depend only on the cheapest links. */
  lemma CostsAreDetermined(best: Links, source: string, chosen1: map<string, seq<string>>,
                           chosen2: map<string, seq<string>>,
                           maxHops: nat, es1: seq<RouteEntry>, es2: seq<RouteEntry>, e: RouteEntry)
    requires NonNegativeLinks(best)
    requires GoodTable(best, source, chosen1, maxHops, es1) && GoodTable(best, source, chosen2, maxHops, es2)
    requires e in es1
    ensures forall f :: f in es2 && f.dst == e.dst ==> f.cost == e.cost
    ensures maxHops == 0 ==> HasEntry(es2, e.dst)
  {
    var v := e.dst;
    assert Connects(best, chosen1[v], source, v);
    assert Reachable(best, source, v);
    assert v in chosen2 && Connects(best, chosen2[v], source, v);
    assert Cheapest(best, source, v, PathCost(best, chosen1[v]))
      && Cheapest(best, source, v, PathCost(best, chosen2[v]));
    forall f | f in es2 && f.dst == v ensures f.cost == e.cost {
      var i :| 0 <= i < |es2| && es2[i] == f;
      assert Entered(best, chosen2, maxHops, es2[i]);
    }
  }

  /** A table for these probes, as a computation gives it. */
  ghost predicate IsTableFor(cfg: MeshConfig, probes: Probes, source: string, entries: seq<RouteEntry>)
  {
    exists best, chosen ::
      IsBest(cfg, probes, best) && GoodLinks(best) && GoodTable(best, source, chosen, cfg.maxHops, entries)
  }

  ghost predicate NonNegativeCosts(cfg: MeshConfig, probes: Probes)
  {
    forall i :: 0 <= i < |probes| && Usable(probes[i]) ==> Cost(cfg, probes[i].value) >= 0.0
  }

  /** The same cost wherever both tables lead and, without a hop limit, the same destinations. */
  ghost predicate SameCosts(es1: seq<RouteEntry>, es2: seq<RouteEntry>, maxHops: nat)
  {
    && (forall e, f :: e in es1 && f in es2 && e.dst == f.dst ==> e.cost == f.cost)
    && (maxHops == 0 ==> forall v :: HasEntry(es1, v) <==> HasEntry(es2, v))
  }

  lemma CostsAreNonNegative(cfg: MeshConfig, probes: Probes, best: Links)
    requires IsBest(cfg, probes, best) && NonNegativeCosts(cfg, probes)
    ensures NonNegativeLinks(best)
  {
    forall k | k in best ensures best[k] >= 0.0 { assert Attained(cfg, probes, k, best[k]); }
  }

  /** Route costs depend on nothing but the cheapest probe of each pair: probe lists of which each has, for every usable
      probe of the other, one of the same pair that is no dearer, get the same costs. */
  lemma CheapestProbesDecideRoutes(cfg: MeshConfig, a: Probes, b: Probes, source: string,
                                   es1: seq<RouteEntry>, es2: seq<RouteEntry>)
    requires IsTableFor(cfg, a, source, es1) && IsTableFor(cfg, b, source, es2)
    requires NonNegativeCosts(cfg, a) && Covered(cfg, a, b) && Covered(cfg, b, a)
    ensures SameCosts(es1, es2, cfg.maxHops)
  {
    var best1, chosen1 :| IsBest(cfg, a, best1) && GoodLinks(best1)
      && GoodTable(best1, source, chosen1, cfg.maxHops, es1);
    var best2, chosen2 :| IsBest(cfg, b, best2) && GoodLinks(best2)
      && GoodTable(best2, source, chosen2, cfg.maxHops, es2);
    CheapestDecides(cfg, a, b, best1, best2);
    CostsAreNonNegative(cfg, a, best1);
    TablesAgree(best1, source, chosen1, chosen2, cfg.maxHops, es1, es2);
  }

  lemma TablesAgree(best: Links, source: string, chosen1: map<string, seq<string>>, chosen2: map<string, seq<string>>,
                    maxHops: nat, es1: seq<RouteEntry>, es2: seq<RouteEntry>)
    requires NonNegativeLinks(best)
    requires GoodTable(best, source, chosen1, maxHops, es1) && GoodTable(best, source, chosen2, maxHops, es2)
    ensures SameCosts(es1, es2, maxHops)
  {
    forall e | e in es1
      ensures forall f :: f in es2 && f.dst == e.dst ==> f.cost == e.cost
      ensures maxHops == 0 ==> HasEntry(es2, e.dst)
    {
      CostsAreDetermined(best, source, chosen1, chosen2, maxHops, es1, es2, e);
    }
    forall f | f in es2 ensures maxHops == 0 ==> HasEntry(es1, f.dst) {
      CostsAreDetermined(best, source, chosen2, chosen1, maxHops, es2, es1, f);
    }
    EntriesBothWays(es1, es2, maxHops);
  }

  lemma EntriesBothWays(es1: seq<RouteEntry>, es2: seq<RouteEntry>, maxHops: nat)
    requires forall e :: e in es1 && maxHops == 0 ==> HasEntry(es2, e.dst)
    requires forall f :: f in es2 && maxHops == 0 ==> HasEntry(es1, f.dst)
    ensures maxHops == 0 ==> forall v :: HasEntry(es1, v) <==> HasEntry(es2, v)
  {
    if maxHops == 0 {
      forall v ensures HasEntry(es1, v) <==> HasEntry(es2, v) {
        if HasEntry(es1, v) {
          var i :| 0 <= i < |es1| && es1[i].dst == v;
          assert es1[i] in es1;
        }
        if HasEntry(es2, v) {
          var i :| 0 <= i < |es2| && es2[i].dst == v;
          assert es2[i] in es2;
        }
      }
    }
  }

  /** Reordering the probes, turning one around, or adding a duplicate that is no cheaper changes no route cost. */
  lemma SameProbesSameRoutes(cfg: MeshConfig, a: Probes, b: Probes, source: string, es1: seq<RouteEntry>,
                             es2: seq<RouteEntry>)
    requires IsTableFor(cfg, a, source, es1) && IsTableFor(cfg, b, source, es2) && NonNegativeCosts(cfg, a)
    requires multiset(a) == multiset(b)
          || (exists i: nat :: i < |a| && a[i].Some? && b == SwappedAt(a, i))
          || (exists p :: b == a + [Some(p)] && forall k :: Measures(Some(p), k) ==> Undercut(cfg, a, k, Cost(cfg, p)))
    ensures SameCosts(es1, es2, cfg.maxHops)
  {
    if multiset(a) == multiset(b) {
      PermutationCovers(cfg, a, b);
      PermutationCovers(cfg, b, a);
    } else if i: nat :| i < |a| && a[i].Some? && b == SwappedAt(a, i) {
      SwapCoversBothWays(cfg, a, i);
    } else {
      var p :| b == a + [Some(p)] && forall k :: Measures(Some(p), k) ==> Undercut(cfg, a, k, Cost(cfg, p));
      DuplicateCovers(cfg, a, p);
    }
    CheapestProbesDecideRoutes(cfg, a, b, source, es1, es2);
  }

  /** A simple path over named nodes is no longer than the node set. */
  lemma {:induction false} SimplePathLength(p: seq<string>, nodes: set<string>)
    requires Distinct(p) && forall i :: 0 <= i < |p| ==> p[i] in nodes
    ensures |p| <= |nodes|
    decreases |p|
  {
    if p == [] {
    } else {
      var v := p[|p| - 1];
      SimplePathLength(p[..|p| - 1], nodes - {v});
    }
  }

  ghost function NodesOf(best: Links): set<string>
  {
    (set k | k in best :: k.0) + (set k | k in best :: k.1)
  }

  /** In a graph of at most 2^32 nodes the 32-bit hop count of an entry is exact. */
  lemma HopCountIsExact(best: Links, source: string, dst: string, p: seq<string>)
    requires GoodPath(best, source, dst, p) && |NodesOf(best)| <= UINT32
    ensures EntryOf(best, dst, p).hopCount == |p| - 1
  {
    forall i | 0 <= i < |p| ensures p[i] in NodesOf(best) {
      var k := if i == 0 then PairKey(p[0], p[1]) else PairKey(p[i - 1], p[i]);
      assert k in best;
      assert k.0 in NodesOf(best) && k.1 in NodesOf(best);
    }
    SimplePathLength(p, NodesOf(best));
  }
}
