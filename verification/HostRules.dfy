/** The rules of a host, told from the templates and overrides themselves. */
module HostRules {
  import opened Ordering
  import opened AlarmEngines
  import opened AlertRules

  // ---------- the rules of one template or override ----------

  /** The comparison a template names; anything unknown means "above". */
  predicate Breached(op: string, value: real, threshold: real)
  {
    if op == "lt" then value < threshold
    else if op == "eq" then value == threshold
    else if op == "ne" then value != threshold
    else value > threshold
  }

  /** The rule breaches exactly on the values the comparison names. */
  ghost predicate Compares(r: AlarmRule, op: string)
  {
    forall v, t :: Match(r.comparator, v, t) <==> Breached(op, v, t)
  }

  /** A rule that is evaluated for every object, on the metric and for the host given. */
  ghost predicate LevelRule(r: AlarmRule, id: string, metric: string, op: string, threshold: real, seconds: int,
                            level: string, host: string, parent: string)
  {
    && r.id == id && r.metric == metric && Compares(r, op) && r.threshold == threshold
    && r.forDuration == seconds * 1_000_000_000 && r.level == level && r.host == host && r.parent == parent
    && r.activeKey == "" && r.enabled
  }

  /** The critical rule, or the warning rule, which the critical one inhibits. */
  ghost predicate RuleOf(r: AlarmRule, name: string, metric: string, op: string, warn: Option<real>, crit: Option<real>,
                         seconds: int, host: string)
  {
    || (crit.Some? && LevelRule(r, name + "-crit", metric, op, crit.value, seconds, "critical", host, ""))
    || (warn.Some? && LevelRule(r, name + "-warn", metric, op, warn.value, seconds, "major", host,
                                if crit.Some? then name + "-crit" else ""))
  }

  lemma ComparatorIs(c: Comparator, op: string)
    ensures (forall v, t :: Match(c, v, t) <==> Breached(op, v, t)) <==> c == ComparatorOf(op)
  {
    if forall v, t :: Match(c, v, t) <==> Breached(op, v, t) {
      assert Match(c, 0.0, 0.0) <==> Breached(op, 0.0, 0.0);
      assert Match(c, 1.0, 0.0) <==> Breached(op, 1.0, 0.0);
      assert Match(c, 0.0, 1.0) <==> Breached(op, 0.0, 1.0);
    }
  }

  lemma RulesOfSource(s: Source, r: AlarmRule)
    ensures r in RulesOf(s)
       <==> RuleOf(r, s.prefix + Digits(s.id), s.metric, s.op, s.warn, s.crit, s.durationSec, s.host)
  {
    ComparatorIs(r.comparator, s.op);
  }

  // ---------- templates and overrides ----------

  ghost predicate OfTemplate(r: AlarmRule, t: Template)
  {
    RuleOf(r, "tpl-" + Digits(t.id), t.metric, t.op, t.warn, t.crit, t.durationSec, "")
  }

  /** How long the condition must hold for an override: its own duration, or that of the metric's last template, or not
      at all. */
  ghost predicate LastsFor(o: Override, tpls: seq<Template>, seconds: int)
  {
    if o.durationSec != 0 then seconds == o.durationSec
    else if forall t :: t in tpls ==> t.metric != o.metric then seconds == 0
    else exists i :: 0 <= i < |tpls| && tpls[i].metric == o.metric && tpls[i].durationSec == seconds
                     && forall j :: i < j < |tpls| ==> tpls[j].metric != o.metric
  }

  ghost predicate OfOverride(r: AlarmRule, o: Override, tpls: seq<Template>)
  {
    exists seconds :: LastsFor(o, tpls, seconds)
                      && RuleOf(r, "ovr-" + Digits(o.id), o.metric, o.op, o.warn, o.crit, seconds, o.hostname)
  }

  /** The host has thresholds of its own for the metric. */
  ghost predicate Overridden(ovs: seq<Override>, host: string, metric: string)
  {
    exists o :: o in ovs && o.hostname == host && o.metric == metric && (o.warn.Some? || o.crit.Some?)
  }

  lemma {:induction false} NoDuration(tpls: seq<Template>, metric: string)
    requires forall t :: t in tpls ==> t.metric != metric
    ensures LastDuration(tpls, metric) == 0
  {
    if tpls == [] {
    } else {
      NoDuration(tpls[..|tpls| - 1], metric);
    }
  }

  lemma {:induction false} LastDurationAt(tpls: seq<Template>, metric: string) returns (i: nat)
    requires exists t :: t in tpls && t.metric == metric
    ensures i < |tpls| && tpls[i].metric == metric && tpls[i].durationSec == LastDuration(tpls, metric)
    ensures forall j :: i < j < |tpls| ==> tpls[j].metric != metric
  {
    var n := |tpls| - 1;
    if tpls[n].metric == metric {
      i := n;
    } else {
      var t :| t in tpls && t.metric == metric;
      assert t in tpls[..n];
      i := LastDurationAt(tpls[..n], metric);
      assert forall j :: 0 <= j < n ==> tpls[j] == tpls[..n][j];
    }
  }

  lemma OneDuration(o: Override, tpls: seq<Template>, seconds: int)
    ensures LastsFor(o, tpls, seconds) <==> seconds == OverrideSource(o, tpls).durationSec
  {
    if forall t :: t in tpls ==> t.metric != o.metric {
      NoDuration(tpls, o.metric);
    } else {
      var i := LastDurationAt(tpls, o.metric);
    }
  }

  lemma RulesOfTemplate(t: Template, r: AlarmRule)
    ensures r in RulesOf(TemplateSource(t)) <==> OfTemplate(r, t)
  {
    RulesOfSource(TemplateSource(t), r);
  }

  lemma RulesOfOverride(o: Override, tpls: seq<Template>, r: AlarmRule)
    ensures r in RulesOf(OverrideSource(o, tpls)) <==> OfOverride(r, o, tpls)
  {
    var s := OverrideSource(o, tpls);
    RulesOfSource(s, r);
    OneDuration(o, tpls, s.durationSec);
    forall seconds | LastsFor(o, tpls, seconds) ensures seconds == s.durationSec { OneDuration(o, tpls, seconds); }
  }

  // ---------- what applies to a host ----------

  lemma {:induction false} FiledIff(ss: seq<Source>, g: Group, r: AlarmRule)
    ensures r in Filed(ss, g) <==> exists i :: 0 <= i < |ss| && GroupOf(ss[i]) == g && r in RulesOf(ss[i])
  {
    if r in Filed(ss, g) { var i := FiledFrom(ss, g, r); }
    forall i | 0 <= i < |ss| && GroupOf(ss[i]) == g && r in RulesOf(ss[i]) ensures r in Filed(ss, g) {
      FiledHas(ss, g, i, r);
    }
  }

  lemma TemplatesFiled(tpls: seq<Template>, ovs: seq<Override>, m: string, r: AlarmRule)
    ensures r in Filed(Sources(tpls, ovs), ("tpl-", "", m))
       <==> exists t :: t in tpls && t.metric == m && OfTemplate(r, t)
  {
    var ss, g := Sources(tpls, ovs), ("tpl-", "", m);
    FiledIff(ss, g, r);
    OverrideSources(tpls, ovs);
    if r in Filed(ss, g) {
      var i :| 0 <= i < |ss| && GroupOf(ss[i]) == g && r in RulesOf(ss[i]);
      if i >= |tpls| { OverrideSourceAt(tpls, ovs, i); }
      RulesOfTemplate(tpls[i], r);
    }
    if t :| t in tpls && t.metric == m && OfTemplate(r, t) {
      var i :| 0 <= i < |tpls| && tpls[i] == t;
      RulesOfTemplate(t, r);
      assert ss[i] == TemplateSource(t);
    }
  }

  /** An override for the host and the metric that the rule is of. */
  ghost predicate OverridesWith(ovs: seq<Override>, tpls: seq<Template>, host: string, m: string, r: AlarmRule)
  {
    exists o :: o in ovs && o.hostname == host && o.metric == m && OfOverride(r, o, tpls)
  }

  lemma OverridesFiled(tpls: seq<Template>, ovs: seq<Override>, host: string, m: string, r: AlarmRule)
    ensures r in Filed(Sources(tpls, ovs), ("ovr-", host, m)) <==> OverridesWith(ovs, tpls, host, m, r)
  {
    var ss, g := Sources(tpls, ovs), ("ovr-", host, m);
    FiledIff(ss, g, r);
    if r in Filed(ss, g) {
      var i :| 0 <= i < |ss| && GroupOf(ss[i]) == g && r in RulesOf(ss[i]);
      OverrideBehind(tpls, ovs, host, m, r, i);
    }
    if OverridesWith(ovs, tpls, host, m, r) {
      var o :| o in ovs && o.hostname == host && o.metric == m && OfOverride(r, o, tpls);
      var i := OverrideFound(tpls, ovs, o, r);
      assert GroupOf(ss[i]) == g;
    }
  }

  lemma OverrideBehind(tpls: seq<Template>, ovs: seq<Override>, host: string, m: string, r: AlarmRule, i: nat)
    requires var ss := Sources(tpls, ovs); i < |ss| && GroupOf(ss[i]) == ("ovr-", host, m) && r in RulesOf(ss[i])
    ensures OverridesWith(ovs, tpls, host, m, r)
  {
    assert i >= |tpls|;
    OverrideSourceAt(tpls, ovs, i);
    RulesOfOverride(ovs[i - |tpls|], tpls, r);
  }

  lemma OverrideFound(tpls: seq<Template>, ovs: seq<Override>, o: Override, r: AlarmRule) returns (i: nat)
    requires o in ovs && OfOverride(r, o, tpls)
    ensures var ss := Sources(tpls, ovs); i < |ss| && ss[i] == OverrideSource(o, tpls) && r in RulesOf(ss[i])
  {
    var j :| 0 <= j < |ovs| && ovs[j] == o;
    i := |tpls| + j;
    OverrideSourceAt(tpls, ovs, i);
    RulesOfOverride(o, tpls, r);
  }

  lemma OverriddenIsListed(rs: RuleSet, tpls: seq<Template>, ovs: seq<Override>, host: string, m: string)
    requires Assembled(rs, Sources(tpls, ovs))
    ensures m in OverridesAt(rs, host) <==> Overridden(ovs, host, m)
  {
    var ss, g := Sources(tpls, ovs), ("ovr-", host, m);
    assert Listed(OverridesAt(rs, host), m) == Filed(ss, g);
    if m in OverridesAt(rs, host) {
      var r := Filed(ss, g)[0];
      OverridesFiled(tpls, ovs, host, m, r);
      var o :| o in ovs && o.hostname == host && o.metric == m && OfOverride(r, o, tpls);
    }
    if Overridden(ovs, host, m) {
      var o :| o in ovs && o.hostname == host && o.metric == m && (o.warn.Some? || o.crit.Some?);
      var r := RulesOf(OverrideSource(o, tpls))[0];
      RulesOfOverride(o, tpls, r);
      OverridesFiled(tpls, ovs, host, m, r);
    }
  }

  /** What a rule that applies to a host is: one of an override for the host, or one of a template whose metric the host
      does not override. */
  ghost predicate AppliesTo(r: AlarmRule, tpls: seq<Template>, ovs: seq<Override>, host: string)
  {
    || (exists o :: o in ovs && o.hostname == host && OfOverride(r, o, tpls))
    || (exists t :: t in tpls && OfTemplate(r, t) && !Overridden(ovs, host, t.metric))
  }

  lemma RulesAreTold(rs: RuleSet, tpls: seq<Template>, ovs: seq<Override>, host: string, r: AlarmRule)
    requires Assembled(rs, Sources(tpls, ovs))
    ensures RuleFor(rs, host, r) <==> AppliesTo(r, tpls, ovs, host)
  {
    forall m ensures Governs(rs, host, m, r) <==>
      if Overridden(ovs, host, m) then OverridesWith(ovs, tpls, host, m, r)
      else exists t :: t in tpls && t.metric == m && OfTemplate(r, t)
    {
      OverriddenIsListed(rs, tpls, ovs, host, m);
      GovernsIsFiled(rs, Sources(tpls, ovs), host, m, r);
      OverridesFiled(tpls, ovs, host, m, r);
      TemplatesFiled(tpls, ovs, m, r);
    }
    if RuleFor(rs, host, r) {
      var m :| Governs(rs, host, m, r);
    }
    if o :| o in ovs && o.hostname == host && OfOverride(r, o, tpls) {
      assert Overridden(ovs, host, o.metric);
      assert Governs(rs, host, o.metric, r);
    }
    if t :| t in tpls && OfTemplate(r, t) && !Overridden(ovs, host, t.metric) {
      assert Governs(rs, host, t.metric, r);
    }
  }

  /** What an alert will say about the rule behind it. */
  lemma MetasAreTold(rs: RuleSet, tpls: seq<Template>, ovs: seq<Override>, r: AlarmRule)
    requires MetasOk(rs.metas, Sources(tpls, ovs))
    ensures forall t :: t in tpls && OfTemplate(r, t) ==>
              r.id in rs.metas && rs.metas[r.id] == Meta(t.name, t.category, t.metric, t.op, r.threshold, 0)
    ensures forall o :: o in ovs && OfOverride(r, o, tpls) ==>
              r.id in rs.metas
              && rs.metas[r.id] == Meta("覆盖 · " + o.metric, "sensor", o.metric, o.op, r.threshold, o.hostID)
  {
    var ss := Sources(tpls, ovs);
    forall t | t in tpls && OfTemplate(r, t)
      ensures r.id in rs.metas && rs.metas[r.id] == Meta(t.name, t.category, t.metric, t.op, r.threshold, 0) {
      var i :| 0 <= i < |tpls| && tpls[i] == t;
      RulesOfTemplate(t, r);
      assert ss[i] == TemplateSource(t);
    }
    forall o | o in ovs && OfOverride(r, o, tpls)
      ensures r.id in rs.metas
              && rs.metas[r.id] == Meta("覆盖 · " + o.metric, "sensor", o.metric, o.op, r.threshold, o.hostID) {
      var i :| 0 <= i < |ovs| && ovs[i] == o;
      OverrideSourceAt(tpls, ovs, |tpls| + i);
      RulesOfOverride(o, tpls, r);
      assert ss[|tpls| + i] == OverrideSource(o, tpls);
    }
  }
}
