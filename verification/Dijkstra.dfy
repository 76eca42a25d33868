/** Shortest routes from one node, and what the search leaves behind. */
module Dijkstra {
  import opened Ordering
  import opened IndexHeaps
  import opened MeshGraph

  datatype Dist = Inf | Fin(d: real)

  predicate Closer(nd: real, d: Dist)
  {
    d.Inf? || nd < d.d
  }

  type DistMap = map<string, Dist>

  /** Hop counts default to zero, as reading a missing map entry does. */
  function HopsOf(hops: map<string, nat>, v: string): nat
  {
    if v in hops then hops[v] else 0
  }

  ghost predicate Reached(dist: DistMap, v: string)
  {
    v in dist && dist[v].Fin?
  }

  // ---------- what the search leaves behind ----------

  /** `v` hangs off its predecessor by an edge that makes up the difference of their distances. */
  ghost predicate TreeEdge(g: Graph, dist: DistMap, prev: map<string, string>, hops: map<string, nat>, v: string)
  {
    && v in prev && Reached(dist, v) && Reached(dist, prev[v])
    && HasEdge(g, prev[v], Edge(v, dist[v].d - dist[prev[v]].d))
    && HopsOf(hops, v) == HopsOf(hops, prev[v]) + 1
  }

  /** The predecessors form a tree of edges over exactly the nodes of finite distance, rooted at the source. */
  ghost predicate SearchTree(g: Graph, src: string, dist: DistMap, prev: map<string, string>, hops: map<string, nat>)
  {
    && dist.Keys == g.Keys
    && src !in prev && src !in hops
    && (if src in g then dist[src] == Fin(0.0) else prev == map[])
    && (forall v :: v in g ==> (Reached(dist, v) <==> (v == src || v in prev)))
    && prev.Keys <= g.Keys
    && (forall v {:trigger TreeEdge(g, dist, prev, hops, v)} :: v in prev ==> TreeEdge(g, dist, prev, hops, v))
  }

  ghost predicate Relaxed(dist: DistMap, u: string, e: Edge)
  {
    Reached(dist, u) && Reached(dist, e.to) && dist[e.to].d <= dist[u].d + e.w
  }

  /** No edge out of a reached node could still shorten a route. */
  ghost predicate AllRelaxed(g: Graph, dist: DistMap)
  {
    forall u, e :: Reached(dist, u) && HasEdge(g, u, e) ==> Relaxed(dist, u, e)
  }

  ghost predicate NeighboursReached(g: Graph, dist: DistMap)
  {
    forall u, e :: Reached(dist, u) && HasEdge(g, u, e) ==> Reached(dist, e.to)
  }

  // ---------- shortest routes ----------

  /** Finite distances are exactly those of reachable nodes. */
  ghost predicate ExactlyReachable(g: Graph, src: string, dist: DistMap)
  {
    forall v :: v in g ==> (Reached(dist, v) <==> exists es :: IsWalk(g, src, es, v))
  }

  /** Every finite distance is the least length of a walk from the source. */
  ghost predicate LeastLengths(g: Graph, src: string, dist: DistMap)
  {
    forall v :: v in g && Reached(dist, v) ==>
      && (exists es :: IsWalk(g, src, es, v) && Length(es) == dist[v].d)
      && (forall es :: IsWalk(g, src, es, v) ==> dist[v].d <= Length(es))
  }

  lemma {:induction false} WalkReaches(g: Graph, dist: DistMap, u: string, es: seq<Edge>, v: string)
    requires NeighboursReached(g, dist) && Reached(dist, u) && IsWalk(g, u, es, v)
    ensures Reached(dist, v)
    decreases |es|
  {
    if es == [] {
    } else {
      WalkReaches(g, dist, es[0].to, es[1..], v);
    }
  }

  lemma {:induction false} WalkIsNoShorter(g: Graph, dist: DistMap, u: string, es: seq<Edge>, v: string)
    requires AllRelaxed(g, dist) && Reached(dist, u) && IsWalk(g, u, es, v)
    ensures Reached(dist, v) && dist[v].d <= dist[u].d + Length(es)
    decreases |es|
  {
    if es == [] {
    } else {
      assert Relaxed(dist, u, es[0]);
      WalkIsNoShorter(g, dist, es[0].to, es[1..], v);
    }
  }

  lemma {:induction false} TreeWalk(g: Graph, src: string, dist: DistMap, prev: map<string, string>,
                                    hops: map<string, nat>, v: string)
      returns (es: seq<Edge>)
    requires SearchTree(g, src, dist, prev, hops) && src in g && Reached(dist, v)
    ensures IsWalk(g, src, es, v) && Length(es) == dist[v].d
    decreases HopsOf(hops, v)
  {
    if v == src {
      es := [];
    } else {
      assert TreeEdge(g, dist, prev, hops, v);
      var u := prev[v];
      var e := Edge(v, dist[v].d - dist[u].d);
      es := TreeWalk(g, src, dist, prev, hops, u);
      ExtendWalk(g, src, es, u, e);
      es := es + [e];
    }
  }

  lemma TreeIsExact(g: Graph, src: string, dist: DistMap, prev: map<string, string>, hops: map<string, nat>)
    requires SearchTree(g, src, dist, prev, hops) && src in g
    requires NeighboursReached(g, dist)
    ensures ExactlyReachable(g, src, dist)
  {
    forall v | v in g ensures Reached(dist, v) ==> exists es :: IsWalk(g, src, es, v) {
      if Reached(dist, v) {
        var es := TreeWalk(g, src, dist, prev, hops, v);
      }
    }
    forall v, es | IsWalk(g, src, es, v) ensures Reached(dist, v) {
      WalkReaches(g, dist, src, es, v);
    }
  }

  lemma TreeIsShortest(g: Graph, src: string, dist: DistMap, prev: map<string, string>, hops: map<string, nat>)
    requires SearchTree(g, src, dist, prev, hops) && src in g
    requires AllRelaxed(g, dist)
    ensures LeastLengths(g, src, dist)
  {
    forall v | v in g && Reached(dist, v)
      ensures exists es :: IsWalk(g, src, es, v) && Length(es) == dist[v].d
      ensures forall es :: IsWalk(g, src, es, v) ==> dist[v].d <= Length(es)
    {
      var es := TreeWalk(g, src, dist, prev, hops, v);
      forall ws | IsWalk(g, src, ws, v) ensures dist[v].d <= Length(ws) {
        WalkIsNoShorter(g, dist, src, ws, v);
      }
    }
  }

  // ---------- the search ----------

  /** Nodes with a finite distance that are not finished: what the heap must hold. */
  ghost function Pending(dist: DistMap, visited: set<string>): map<string, real>
  {
    map v | v in dist && dist[v].Fin? && v !in visited :: dist[v].d
  }

  /** The tree so far; predecessors are finished nodes, so their distances no longer move. */
  ghost predicate Growing(g: Graph, src: string, dist: DistMap, prev: map<string, string>, hops: map<string, nat>,
                          visited: set<string>)
  {
    && src in g && SearchTree(g, src, dist, prev, hops)
    && (forall v :: v in visited ==> Reached(dist, v))
    && (forall v :: v in prev ==> prev[v] in visited)
    && (visited != {} ==> src in visited)
  }

  /** Edges out of finished nodes lead to reached nodes. */
  ghost predicate DoneReach(g: Graph, dist: DistMap, done: set<string>)
  {
    forall u, e :: u in done && HasEdge(g, u, e) ==> Reached(dist, e.to)
  }

  /** With non-negative weights: edges out of finished nodes are relaxed. */
  ghost predicate DoneRelaxed(g: Graph, dist: DistMap, done: set<string>)
  {
    forall u, e :: u in done && HasEdge(g, u, e) ==> Relaxed(dist, u, e)
  }

  /** With non-negative weights: no finished node is farther than `limit`, no pending one nearer. */
  ghost predicate Frontier(dist: DistMap, visited: set<string>, limit: real)
  {
    forall v :: Reached(dist, v) ==> if v in visited then dist[v].d <= limit else limit <= dist[v].d
  }

  /** Edges out of finished nodes, and the first `k` out of `u`, lead to reached nodes. */
  ghost predicate ScanReached(g: Graph, dist: DistMap, before: set<string>, u: string, k: nat)
  {
    && DoneReach(g, dist, before)
    && u in g && k <= |g[u]| && forall i :: 0 <= i < k ==> Reached(dist, g[u][i].to)
  }

  /** With non-negative weights they are relaxed as well, and `u` is the farthest finished node. */
  ghost predicate ScanRelaxed(g: Graph, dist: DistMap, before: set<string>, u: string, k: nat)
  {
    NonNegative(g) ==>
      && DoneRelaxed(g, dist, before)
      && Reached(dist, u) && Frontier(dist, before + {u}, dist[u].d)
      && u in g && k <= |g[u]| && forall i :: 0 <= i < k ==> Relaxed(dist, u, g[u][i])
  }

  ghost predicate Lists(s: seq<string>, members: set<string>)
  {
    (forall i :: 0 <= i < |s| ==> s[i] in members) && (forall v :: v in members ==> v in s)
  }

  lemma ListsMore(s: seq<string>, members: set<string>, v: string)
    requires Distinct(s) && Lists(s, members) && v !in members
    ensures Distinct(s + [v]) && Lists(s + [v], members + {v})
  {
  }

  method Search(g: Graph, src: string)
      returns (dist: DistMap, prev: map<string, string>, hops: map<string, nat>, ghost popped: seq<string>)
    requires Closed(g)
    ensures SearchTree(g, src, dist, prev, hops)
    ensures NeighboursReached(g, dist) && ExactlyReachable(g, src, dist)
    ensures NonNegative(g) ==> AllRelaxed(g, dist) && LeastLengths(g, src, dist)
    // each node leaves the heap at most once: exactly the reached ones, never twice
    ensures Distinct(popped) && Lists(popped, set v | v in dist && dist[v].Fin?)
  {
    dist := map n | n in g :: Inf;
    prev, hops, popped := map[], map[], [];
    if src !in g {
      NothingReachable(g, src, dist);
      return;
    }
    dist := dist[src := Fin(0.0)];
    Started(g, src, dist);

    var h := new IndexHeap();
    h.Push(PqItem(src, 0.0));
    var visited: set<string> := {};

    ghost var limit := 0.0;
    while |h.items| > 0
      invariant fresh(h) && h.Valid() && h.queue == Pending(dist, visited)
      invariant Growing(g, src, dist, prev, hops, visited)
      invariant DoneReach(g, dist, visited)
      invariant NonNegative(g) ==> DoneRelaxed(g, dist, visited) && Frontier(dist, visited, limit)
      invariant Distinct(popped) && Lists(popped, visited)
      decreases g.Keys - visited
    {
      QueueNotEmpty(h.items, h.pos);
      var u := h.Pop();
      if u.node in visited {
        assert false;
      }
      NextIsNearest(g, src, dist, prev, hops, visited, limit, u.node);
      limit := u.dist;
      ghost var before := visited;
      visited := visited + {u.node};
      ListsMore(popped, before, u.node);
      popped := popped + [u.node];
      dist, prev, hops := RelaxEdges(g, src, u.node, dist, prev, hops, before, visited, h);
    }
    assert |h.queue| == 0 by { EmptyQueue(h.items, h.pos); }
    Finished(g, dist, visited);
    ListsReached(popped, visited, dist);
    TreeIsExact(g, src, dist, prev, hops);
    if NonNegative(g) { TreeIsShortest(g, src, dist, prev, hops); }
  }

  /** The inner loop: looks along every edge out of `u`, the node just finished. */
  method RelaxEdges(g: Graph, src: string, u: string, dist0: DistMap, prev0: map<string, string>,
                    hops0: map<string, nat>,
                    ghost before: set<string>, visited: set<string>, h: IndexHeap)
      returns (dist: DistMap, prev: map<string, string>, hops: map<string, nat>)
    requires Closed(g) && u in g && u !in before && visited == before + {u}
    requires h.Valid() && h.queue == Pending(dist0, visited)
    requires Growing(g, src, dist0, prev0, hops0, visited)
    requires ScanReached(g, dist0, before, u, 0) && ScanRelaxed(g, dist0, before, u, 0)
    modifies h
    ensures h.Valid() && h.queue == Pending(dist, visited)
    ensures Growing(g, src, dist, prev, hops, visited) && dist[u] == dist0[u]
    ensures DoneReach(g, dist, visited)
    ensures NonNegative(g) ==> DoneRelaxed(g, dist, visited) && Frontier(dist, visited, dist[u].d)
  {
    dist, prev, hops := dist0, prev0, hops0;
    for k := 0 to |g[u]|
      invariant h.Valid() && h.queue == Pending(dist, visited)
      invariant Growing(g, src, dist, prev, hops, visited) && dist[u] == dist0[u]
      invariant ScanReached(g, dist, before, u, k) && ScanRelaxed(g, dist, before, u, k)
    {
      dist, prev, hops := RelaxEdge(g, src, u, k, dist, prev, hops, before, visited, h);
    }
    EdgesDone(g, dist, u, before, visited);
  }

  /** One turn of the inner loop: the edge at `k`. */
  method RelaxEdge(g: Graph, src: string, u: string, k: nat, dist0: DistMap, prev0: map<string, string>,
                   hops0: map<string, nat>,
                   ghost before: set<string>, visited: set<string>, h: IndexHeap)
      returns (dist: DistMap, prev: map<string, string>, hops: map<string, nat>)
    requires Closed(g) && u in g && k < |g[u]| && visited == before + {u}
    requires h.Valid() && h.queue == Pending(dist0, visited)
    requires Growing(g, src, dist0, prev0, hops0, visited)
    requires ScanReached(g, dist0, before, u, k) && ScanRelaxed(g, dist0, before, u, k)
    modifies h
    ensures h.Valid() && h.queue == Pending(dist, visited)
    ensures Growing(g, src, dist, prev, hops, visited) && dist[u] == dist0[u]
    ensures ScanReached(g, dist, before, u, k + 1) && ScanRelaxed(g, dist, before, u, k + 1)
  {
    dist, prev, hops := dist0, prev0, hops0;
    var e := g[u][k];
    assert HasEdge(g, u, e);
    if e.to in visited {
      SkipFinished(g, dist, before, u, k);
      return;
    }
    var nd := dist[u].d + e.w;
    if !Closer(nd, dist[e.to]) {
      SkipFarther(g, dist, before, u, k);
      return;
    }
    GrowTree(g, src, dist, prev, hops, visited, u, k);
    ImproveReach(g, dist, before, u, k);
    ImproveRelaxed(g, dist, before, u, k);
    PendingImproved(dist, visited, u, e, h.queue, nd);
    dist, prev, hops := Nearer(dist, u, e), prev[e.to := u], hops[e.to := HopsOf(hops, u) + 1];
    Requeue(h, e.to, nd);
  }

  /** Lowers the node's key if it is queued, else queues it. */
  method Requeue(h: IndexHeap, node: string, nd: real)
    requires h.Valid() && (node in h.queue ==> nd <= h.queue[node])
    modifies h
    ensures h.Valid() && h.queue == old(h.queue)[node := nd]
  {
    if h.Contains(node) {
      h.Update(node, nd);
    } else {
      h.Push(PqItem(node, nd));
    }
  }

  // ---------- steps of the search ----------

  /** The distances after taking the edge `e` out of `u`. */
  function Nearer(dist: DistMap, u: string, e: Edge): DistMap
    requires u in dist && dist[u].Fin?
  {
    dist[e.to := Fin(dist[u].d + e.w)]
  }

  lemma NothingReachable(g: Graph, src: string, dist: DistMap)
    requires src !in g && forall v :: v in dist ==> dist[v].Inf?
    ensures ExactlyReachable(g, src, dist)
  {
    forall v, es | v in g ensures !IsWalk(g, src, es, v) {
      assert v != src;
    }
  }

  lemma QueueNotEmpty(items: seq<PqItem>, pos: map<string, nat>)
    requires Indexed(items, pos) && |items| > 0
    ensures items[0].node in Contents(items, pos)
  {
  }

  lemma EmptyQueue(items: seq<PqItem>, pos: map<string, nat>)
    requires Indexed(items, pos) && items == []
    ensures Contents(items, pos) == map[]
  {
  }

  /** At first only the source is pending, and nothing is finished. */
  lemma Started(g: Graph, src: string, dist: DistMap)
    requires src in g && dist == (map n | n in g :: Inf)[src := Fin(0.0)]
    ensures Pending(dist, {}) == map[src := 0.0] && Growing(g, src, dist, map[], map[], {})
    ensures DoneReach(g, dist, {}) && DoneRelaxed(g, dist, {}) && Frontier(dist, {}, 0.0)
  {
  }

  lemma ListsReached(popped: seq<string>, visited: set<string>, dist: DistMap)
    requires Lists(popped, visited) && forall v :: v in visited <==> Reached(dist, v)
    ensures Lists(popped, set v | v in dist && dist[v].Fin?)
  {
    assert visited == set v | v in dist && dist[v].Fin?;
  }

  /** A node that is pending and nearest can be finished. */
  lemma NextIsNearest(g: Graph, src: string, dist: DistMap, prev: map<string, string>, hops: map<string, nat>,
                      visited: set<string>, limit: real, u: string)
    requires Growing(g, src, dist, prev, hops, visited)
    requires u in Pending(dist, visited) && forall v :: v in Pending(dist, visited) ==> dist[u].d <= dist[v].d
    ensures u in g && Growing(g, src, dist, prev, hops, visited + {u})
    ensures Pending(dist, visited + {u}) == Pending(dist, visited) - {u}
    ensures Frontier(dist, visited, limit) ==> Frontier(dist, visited + {u}, dist[u].d)
  {
    assert u == src || prev[u] in visited;
  }

  lemma SkipFinished(g: Graph, dist: DistMap, before: set<string>, u: string, k: nat)
    requires u in g && k < |g[u]| && g[u][k].to in before + {u} && Reached(dist, g[u][k].to) && Reached(dist, u)
    requires ScanReached(g, dist, before, u, k) && ScanRelaxed(g, dist, before, u, k)
    ensures ScanReached(g, dist, before, u, k + 1) && ScanRelaxed(g, dist, before, u, k + 1)
  {
    assert HasEdge(g, u, g[u][k]);
  }

  lemma SkipFarther(g: Graph, dist: DistMap, before: set<string>, u: string, k: nat)
    requires u in g && k < |g[u]| && Reached(dist, u)
    requires g[u][k].to in dist && !Closer(dist[u].d + g[u][k].w, dist[g[u][k].to])
    requires ScanReached(g, dist, before, u, k) && ScanRelaxed(g, dist, before, u, k)
    ensures ScanReached(g, dist, before, u, k + 1) && ScanRelaxed(g, dist, before, u, k + 1)
  {
  }

  /** Hanging an unfinished node below the finished `u` keeps the tree. */
  lemma GrowTree(g: Graph, src: string, dist: DistMap, prev: map<string, string>, hops: map<string, nat>,
                 visited: set<string>, u: string, k: nat)
    requires Growing(g, src, dist, prev, hops, visited)
    requires u in visited && u in g && k < |g[u]| && g[u][k].to in g && g[u][k].to !in visited
    ensures Growing(g, src, Nearer(dist, u, g[u][k]), prev[g[u][k].to := u], hops[g[u][k].to := HopsOf(hops, u) + 1],
            visited)
  {
    var e := g[u][k];
    var t := e.to;
    var dist' := Nearer(dist, u, e);
    var prev', hops' := prev[t := u], hops[t := HopsOf(hops, u) + 1];
    assert HasEdge(g, u, e);
    forall v | v in prev' ensures TreeEdge(g, dist', prev', hops', v) {
      if v == t {
        assert Edge(t, dist'[t].d - dist'[u].d) == e;
      } else {
        assert TreeEdge(g, dist, prev, hops, v) && prev[v] in visited;
      }
    }
  }

  lemma ImproveReach(g: Graph, dist: DistMap, before: set<string>, u: string, k: nat)
    requires u in g && k < |g[u]| && Reached(dist, u)
    requires ScanReached(g, dist, before, u, k)
    ensures ScanReached(g, Nearer(dist, u, g[u][k]), before, u, k + 1)
  {
  }

  lemma ImproveRelaxed(g: Graph, dist: DistMap, before: set<string>, u: string, k: nat)
    requires u in g && k < |g[u]| && Reached(dist, u) && g[u][k].to !in before + {u}
    requires g[u][k].to in dist && Closer(dist[u].d + g[u][k].w, dist[g[u][k].to])
    requires ScanRelaxed(g, dist, before, u, k)
    ensures ScanRelaxed(g, Nearer(dist, u, g[u][k]), before, u, k + 1)
  {
    var e := g[u][k];
    var dist' := Nearer(dist, u, e);
    if NonNegative(g) {
      assert HasEdge(g, u, e);
      forall a, f | a in before && HasEdge(g, a, f) ensures Relaxed(dist', a, f) {
        assert Relaxed(dist, a, f);
      }
      forall i | 0 <= i < k + 1 ensures Relaxed(dist', u, g[u][i]) {
        if i < k { assert Relaxed(dist, u, g[u][i]); }
      }
    }
  }

  lemma PendingImproved(dist: DistMap, visited: set<string>, u: string, e: Edge, queue: map<string, real>, nd: real)
    requires Reached(dist, u) && e.to in dist && e.to !in visited && nd == dist[u].d + e.w && Closer(nd, dist[e.to])
    requires queue == Pending(dist, visited)
    ensures queue[e.to := nd] == Pending(Nearer(dist, u, e), visited)
    ensures e.to in queue ==> nd <= queue[e.to]
  {
  }

  lemma EdgesDone(g: Graph, dist: DistMap, u: string, before: set<string>, visited: set<string>)
    requires u in g && visited == before + {u}
    requires ScanReached(g, dist, before, u, |g[u]|) && ScanRelaxed(g, dist, before, u, |g[u]|)
    ensures DoneReach(g, dist, visited)
    ensures NonNegative(g) ==> DoneRelaxed(g, dist, visited) && Reached(dist, u) && Frontier(dist, visited, dist[u].d)
  {
    forall e | HasEdge(g, u, e) ensures Reached(dist, e.to) && (NonNegative(g) ==> Relaxed(dist, u, e)) {
      var i :| 0 <= i < |g[u]| && g[u][i] == e;
      assert Reached(dist, g[u][i].to);
    }
  }

  lemma Finished(g: Graph, dist: DistMap, visited: set<string>)
    requires Pending(dist, visited) == map[] && DoneReach(g, dist, visited)
    requires NonNegative(g) ==> DoneRelaxed(g, dist, visited)
    ensures forall v :: Reached(dist, v) ==> v in visited
    ensures NeighboursReached(g, dist)
    ensures NonNegative(g) ==> AllRelaxed(g, dist)
  {
    assert forall v :: Reached(dist, v) && v !in visited ==> v in Pending(dist, visited);
  }
}
