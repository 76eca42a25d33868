/** Routes told from the probes themselves: which probes a path uses, and what their delays and losses add up to. */
module ProbeRoutes {
  import opened Ordering
  import opened MeshGraph

  // ---------- routes of probes ----------

  /** The probe measures the link between two agents, whichever of them reported it. */
  predicate Spans(p: Option<Probe>, a: string, b: string)
  {
    && p.Some? && a != "" && b != "" && a != b
    && ((p.value.from == a && p.value.to == b) || (p.value.from == b && p.value.to == a))
  }

  /** `route` names a probe for every step of the path. */
  ghost predicate Along(probes: Probes, route: seq<nat>, path: seq<string>)
  {
    && |path| == |route| + 1
    && forall k :: 0 <= k < |route| ==> route[k] < |probes| && Spans(probes[route[k]], path[k], path[k + 1])
  }

  predicate Picks(probes: Probes, route: seq<nat>)
  {
    forall k :: 0 <= k < |route| ==> route[k] < |probes| && probes[route[k]].Some?
  }

  /** The milliseconds along a route. */
  function Delay(probes: Probes, route: seq<nat>): real
    requires Picks(probes, route)
  {
    if route == [] then 0.0 else Delay(probes, route[..|route| - 1]) + probes[route[|route| - 1]].value.rttMs
  }

  /** The loss rates along a route, added up. */
  function Loss(probes: Probes, route: seq<nat>): real
    requires Picks(probes, route)
  {
    if route == [] then 0.0 else Loss(probes, route[..|route| - 1]) + probes[route[|route| - 1]].value.lossRate
  }

  /** One for each millisecond, the loss penalty for each thousandth of loss, and the hop factor for each hop. */
  function Price(cfg: MeshConfig, probes: Probes, route: seq<nat>): real
    requires Picks(probes, route)
  {
    Delay(probes, route) + 1000.0 * Loss(probes, route) * cfg.lossPenalty + (|route| as real) * cfg.hopFactor
  }

  lemma OneMoreHop(cfg: MeshConfig, probes: Probes, route: seq<nat>, i: nat)
    requires Picks(probes, route) && i < |probes| && probes[i].Some?
    ensures Picks(probes, route + [i])
    ensures Price(cfg, probes, route + [i]) == Price(cfg, probes, route) + Cost(cfg, probes[i].value)
  {
    assert (route + [i])[..|route|] == route;
    var l, m, lp := Loss(probes, route), probes[i].value.lossRate, cfg.lossPenalty;
    Shares(1000.0 * l, 1000.0 * m, lp);
    Shares(|route| as real, 1.0, cfg.hopFactor);
    assert 1000.0 * (l + m) == 1000.0 * l + 1000.0 * m;
    assert m * 1000.0 * lp == (1000.0 * m) * lp;
  }

  lemma Shares(a: real, b: real, c: real)
    ensures (a + b) * c == a * c + b * c
  {
  }

  // ---------- routes and links ----------

  lemma SpansMeasures(p: Option<Probe>, a: string, b: string)
    ensures Spans(p, a, b) <==> a != "" && b != "" && a != b && Measures(p, PairKey(a, b))
  {
    PairKeySymmetric(a, b);
    if p.Some? { PairKeySymmetric(p.value.from, p.value.to); }
  }

  /** The best cost of a link is that of one of its probes. */
  lemma LinkHasProbe(cfg: MeshConfig, probes: Probes, best: Links, a: string, b: string) returns (i: nat)
    requires IsBest(cfg, probes, best) && GoodLinks(best) && a != b && PairKey(a, b) in best
    ensures i < |probes| && Spans(probes[i], a, b) && Cost(cfg, probes[i].value) == best[PairKey(a, b)]
  {
    var key := PairKey(a, b);
    assert Attained(cfg, probes, key, best[key]) && GoodPair(key);
    i :| 0 <= i < |probes| && Measures(probes[i], key) && Cost(cfg, probes[i].value) == best[key];
    SpansMeasures(probes[i], a, b);
  }

  /** No probe of a link is cheaper than its best cost. */
  lemma ProbeHasLink(cfg: MeshConfig, probes: Probes, best: Links, a: string, b: string, i: nat)
    requires IsBest(cfg, probes, best) && i < |probes| && Spans(probes[i], a, b)
    ensures PairKey(a, b) in best && best[PairKey(a, b)] <= Cost(cfg, probes[i].value)
  {
    SpansMeasures(probes[i], a, b);
  }

  lemma AlongMore(probes: Probes, route: seq<nat>, p: seq<string>, i: nat)
    requires |p| > 1 && Along(probes, route, p[..|p| - 1])
    requires i < |probes| && Spans(probes[i], p[|p| - 2], p[|p| - 1])
    ensures Along(probes, route + [i], p)
  {
    var r, q := route + [i], p[..|p| - 1];
    forall k | 0 <= k < |r| ensures r[k] < |probes| && Spans(probes[r[k]], p[k], p[k + 1]) {
      assert k < |route| ==> r[k] == route[k] && q[k] == p[k] && q[k + 1] == p[k + 1];
    }
  }

  lemma AlongLess(probes: Probes, route: seq<nat>, p: seq<string>)
    requires Along(probes, route, p) && |p| > 1
    ensures var n := |route| - 1;
            && Along(probes, route[..n], p[..n + 1])
            && route[n] < |probes| && Spans(probes[route[n]], p[n], p[n + 1])
            && route == route[..n] + [route[n]] && p == p[..n + 1] + [p[n + 1]]
  {
    var n := |route| - 1;
    var r, q := route[..n], p[..n + 1];
    forall k | 0 <= k < n ensures r[k] < |probes| && Spans(probes[r[k]], q[k], q[k + 1]) {
      assert r[k] == route[k] && q[k] == p[k] && q[k + 1] == p[k + 1];
    }
  }

  /** The route costs this much. */
  ghost predicate Priced(cfg: MeshConfig, probes: Probes, route: seq<nat>, c: real)
  {
    Picks(probes, route) && Price(cfg, probes, route) == c
  }

  lemma PricedMore(cfg: MeshConfig, probes: Probes, route: seq<nat>, i: nat, c: real, d: real)
    requires Priced(cfg, probes, route, c) && i < |probes| && probes[i].Some? && Cost(cfg, probes[i].value) == d
    ensures Priced(cfg, probes, route + [i], c + d)
  {
    OneMoreHop(cfg, probes, route, i);
  }

  lemma LinkOfPath(best: Links, p: seq<string>) returns (key: Pair)
    requires PathIn(best, p) && |p| > 1
    ensures key == PairKey(p[|p| - 2], p[|p| - 1]) && p[|p| - 2] != p[|p| - 1] && key in best
    ensures PathIn(best, p[..|p| - 1]) && PathCost(best, p) == PathCost(best, p[..|p| - 1]) + best[key]
  {
    key := PairKey(p[|p| - 2], p[|p| - 1]);
  }

  lemma RouteGrows(cfg: MeshConfig, probes: Probes, before: seq<nat>, p: seq<string>, i: nat, c: real, d: real)
    requires |p| > 1 && Along(probes, before, p[..|p| - 1]) && Priced(cfg, probes, before, c)
    requires i < |probes| && Spans(probes[i], p[|p| - 2], p[|p| - 1]) && Cost(cfg, probes[i].value) == d
    ensures Along(probes, before + [i], p) && Priced(cfg, probes, before + [i], c + d)
  {
    AlongMore(probes, before, p, i);
    PricedMore(cfg, probes, before, i, c, d);
  }

  /** A path of links is a route over probes that cost exactly as much. */
  lemma {:induction false} PathHasRoute(cfg: MeshConfig, probes: Probes, best: Links, p: seq<string>)
      returns (route: seq<nat>)
    requires IsBest(cfg, probes, best) && GoodLinks(best) && PathIn(best, p)
    ensures Along(probes, route, p) && Priced(cfg, probes, route, PathCost(best, p))
    decreases |p|
  {
    if |p| == 1 {
      route := [];
    } else {
      var q := p[..|p| - 1];
      var key := LinkOfPath(best, p);
      var before := PathHasRoute(cfg, probes, best, q);
      var i := LinkHasProbe(cfg, probes, best, p[|p| - 2], p[|p| - 1]);
      RouteGrows(cfg, probes, before, p, i, PathCost(best, q), best[key]);
      route := before + [i];
    }
  }

  /** A route of probes is a path of links that cost no more. */
  lemma {:induction false} RouteIsPath(cfg: MeshConfig, probes: Probes, best: Links, route: seq<nat>, p: seq<string>)
      returns (c: real)
    requires IsBest(cfg, probes, best) && Along(probes, route, p)
    ensures PathIn(best, p) && PathCost(best, p) <= c && Priced(cfg, probes, route, c)
    decreases |p|
  {
    if |p| == 1 {
      c := 0.0;
    } else {
      var n := |route| - 1;
      AlongLess(probes, route, p);
      var d := RouteIsPath(cfg, probes, best, route[..n], p[..n + 1]);
      ProbeHasLink(cfg, probes, best, p[n], p[n + 1], route[n]);
      c := d + Cost(cfg, probes[route[n]].value);
      PricedMore(cfg, probes, route[..n], route[n], d, Cost(cfg, probes[route[n]].value));
      ExtendPath(best, p[..n + 1], p[n + 1]);
    }
  }

  // ---------- what a change of a probe does to a price ----------

  /** The probe at `i` with other measurements. */
  function Remeasured(probes: Probes, i: nat, rttMs: real, lossRate: real): Probes
    requires i < |probes| && probes[i].Some?
  {
    probes[i := Some(probes[i].value.(rttMs := rttMs, lossRate := lossRate))]
  }

  lemma {:induction false} SumsMove(probes: Probes, i: nat, ms: real, loss: real, route: seq<nat>)
    requires Picks(probes, route) && i < |probes| && probes[i].Some? && Distinct(route)
    ensures var p := probes[i].value;
            var changed := Remeasured(probes, i, p.rttMs + ms, p.lossRate + loss);
            && Picks(changed, route)
            && Delay(changed, route) == Delay(probes, route) + (if i in route then ms else 0.0)
            && Loss(changed, route) == Loss(probes, route) + (if i in route then loss else 0.0)
  {
    if route == [] {
    } else {
      var n := |route| - 1;
      SumsMove(probes, i, ms, loss, route[..n]);
      assert route == route[..n] + [route[n]];
    }
  }

  /** A millisecond more on a link makes every route over it dearer by one, a thousandth more loss by the loss
      penalty. */
  lemma DearerByFields(cfg: MeshConfig, probes: Probes, i: nat, ms: real, loss: real, route: seq<nat>)
    requires Picks(probes, route) && Distinct(route) && i in route
    ensures var p := probes[i].value;
            var changed := Remeasured(probes, i, p.rttMs + ms, p.lossRate + loss);
            && Picks(changed, route)
            && Price(cfg, changed, route) == Price(cfg, probes, route) + ms + 1000.0 * loss * cfg.lossPenalty
  {
    SumsMove(probes, i, ms, loss, route);
    Shares(1000.0 * Loss(probes, route), 1000.0 * loss, cfg.lossPenalty);
  }
}
