/** Threshold templates and per-host overrides assembled into the rules that apply to a host. */
module AlertRules {
  import opened Ordering
  import opened AlarmEngines

  datatype Template = Template(id: nat, name: string, metric: string, category: string, op: string,
                               warn: Option<real>, crit: Option<real>, durationSec: int)
  datatype Override = Override(id: nat, hostID: int, hostname: string, metric: string, op: string,
                               warn: Option<real>, crit: Option<real>, durationSec: int)
  datatype Meta = Meta(title: string, category: string, metric: string, op: string, threshold: real, hostID: int)

  const SECOND_NS := 1_000_000_000

  function ComparatorOf(op: string): Comparator
  {
    if op == "lt" then Less else if op == "eq" then Equal else if op == "ne" then Different else Greater
  }

  // ---------- rule ids ----------

  function RuleId(prefix: string, id: nat, suffix: string): string { prefix + Digits(id) + suffix }

  predicate IsPrefix(p: string) { p == "tpl-" || p == "ovr-" }

  predicate IsSuffix(s: string) { s == "-crit" || s == "-warn" }

  /** A rule's id tells what it was made from. */
  lemma RuleIdsDiffer(p: string, m: nat, s: string, q: string, n: nat, t: string)
    requires IsPrefix(p) && IsPrefix(q) && IsSuffix(s) && IsSuffix(t)
    requires RuleId(p, m, s) == RuleId(q, n, t)
    ensures p == q && m == n && s == t
  {
    var a, b := RuleId(p, m, s), RuleId(q, n, t);
    assert |p| == |q| == 4 && |s| == |t| == 5;
    assert a[..4] == p && b[..4] == q;
    assert a[|a| - 5..] == s && b[|b| - 5..] == t;
    assert a[4..|a| - 5] == Digits(m) && b[4..|b| - 5] == Digits(n);
    DigitsDiffer(m, n);
  }

  /** The critical rule of a template or override comes before its warning rule. */
  lemma CriticalFirst(prefix: string, id: nat)
    ensures StrLess(RuleId(prefix, id, "-crit"), RuleId(prefix, id, "-warn"))
  {
    StrLessAfter(prefix + Digits(id), "-crit", "-warn");
    StrLessAfter("-", "crit", "warn");
    assert "-" + "crit" == "-crit" && "-" + "warn" == "-warn";
  }

  // ---------- the rules of one template or override ----------

  /** What a template or an override contributes; a template has no host. */
  datatype Source = Source(prefix: string, id: nat, host: string, metric: string, op: string,
                           warn: Option<real>, crit: Option<real>, durationSec: int,
                           title: string, category: string, hostID: int)

  /** The critical rule, then the warning rule, which the critical one inhibits. */
  function RulesOf(s: Source): seq<AlarmRule>
  {
    var critId := if s.crit.Some? then RuleId(s.prefix, s.id, "-crit") else "";
    (if s.crit.Some? then
       [AlarmRule(critId, s.metric, ComparatorOf(s.op), s.crit.value, s.durationSec * SECOND_NS, "critical", s.host, "",
         "", true)]
     else [])
    + (if s.warn.Some? then
         [AlarmRule(RuleId(s.prefix, s.id, "-warn"), s.metric, ComparatorOf(s.op), s.warn.value,
           s.durationSec * SECOND_NS, "major",
                    s.host, critId, "", true)]
       else [])
  }

  /** What an event needs to know about the rule behind it. */
  function MetaOf(s: Source, threshold: real): Meta { Meta(s.title, s.category, s.metric, s.op, threshold, s.hostID) }

  function TemplateSource(t: Template): Source
  {
    Source("tpl-", t.id, "", t.metric, t.op, t.warn, t.crit, t.durationSec, t.name, t.category, 0)
  }

  function LastDuration(tpls: seq<Template>, metric: string): int
  {
    if tpls == [] then 0
    else if tpls[|tpls| - 1].metric == metric then tpls[|tpls| - 1].durationSec
    else LastDuration(tpls[..|tpls| - 1], metric)
  }

  /** An override without a duration takes that of the last template of its metric. */
  function OverrideSource(o: Override, tpls: seq<Template>): Source
  {
    Source("ovr-", o.id, o.hostname, o.metric, o.op, o.warn, o.crit,
           if o.durationSec != 0 then o.durationSec else LastDuration(tpls, o.metric),
           "覆盖 · " + o.metric, "sensor", o.hostID)
  }

  function Sources(tpls: seq<Template>, ovs: seq<Override>): seq<Source>
  {
    seq(|tpls|, i requires 0 <= i < |tpls| => TemplateSource(tpls[i]))
      + seq(|ovs|, i requires 0 <= i < |ovs| => OverrideSource(ovs[i], tpls))
  }

  /** Where a source's rules are filed: templates by metric, overrides by host and metric. */
  type Group = (string, string, string)

  function GroupOf(s: Source): Group { (s.prefix, s.host, s.metric) }

  /** The rules filed in a group, in the order of their sources. */
  function Filed(ss: seq<Source>, g: Group): seq<AlarmRule>
  {
    if ss == [] then []
    else Filed(ss[..|ss| - 1], g) + (if GroupOf(ss[|ss| - 1]) == g then RulesOf(ss[|ss| - 1]) else [])
  }

  ghost predicate UniqueSources(ss: seq<Source>)
  {
    && (forall i :: 0 <= i < |ss| ==> IsPrefix(ss[i].prefix))
    && (forall i, j :: 0 <= i < j < |ss| ==> ss[i].prefix != ss[j].prefix || ss[i].id != ss[j].id)
  }

  // ---------- ids of assembled rules ----------

  predicate HasIdOf(r: AlarmRule, s: Source)
  {
    r.id == RuleId(s.prefix, s.id, "-crit") || r.id == RuleId(s.prefix, s.id, "-warn")
  }

  lemma RuleFits(s: Source, r: AlarmRule)
    requires r in RulesOf(s)
    ensures HasIdOf(r, s) && r.metric == s.metric && r.host == s.host && r.enabled && r.activeKey == ""
  {
  }

  lemma OwnIdsDiffer(s: Source)
    requires IsPrefix(s.prefix)
    ensures DistinctIds(RulesOf(s))
  {
    if RuleId(s.prefix, s.id, "-crit") == RuleId(s.prefix, s.id, "-warn") {
      RuleIdsDiffer(s.prefix, s.id, "-crit", s.prefix, s.id, "-warn");
    }
  }

  /** Rules made from different templates or overrides have different ids. */
  lemma DifferentSources(a: Source, b: Source, x: AlarmRule, y: AlarmRule)
    requires IsPrefix(a.prefix) && IsPrefix(b.prefix) && (a.prefix != b.prefix || a.id != b.id)
    requires HasIdOf(x, a) && HasIdOf(y, b)
    ensures x.id != y.id
  {
    forall s, t | IsSuffix(s) && IsSuffix(t) ensures RuleId(a.prefix, a.id, s) != RuleId(b.prefix, b.id, t) {
      if RuleId(a.prefix, a.id, s) == RuleId(b.prefix, b.id, t) { RuleIdsDiffer(a.prefix, a.id, s, b.prefix, b.id, t); }
    }
  }

  /** Every filed rule comes from a source of its group. */
  lemma {:induction false} FiledFrom(ss: seq<Source>, g: Group, r: AlarmRule) returns (i: nat)
    requires r in Filed(ss, g)
    ensures i < |ss| && GroupOf(ss[i]) == g && r in RulesOf(ss[i]) && HasIdOf(r, ss[i])
  {
    var n := |ss| - 1;
    if r in Filed(ss[..n], g) {
      i := FiledFrom(ss[..n], g, r);
    } else {
      i := n;
      RuleFits(ss[n], r);
    }
  }

  lemma DistinctSum(a: seq<AlarmRule>, b: seq<AlarmRule>)
    requires DistinctIds(a) && DistinctIds(b) && forall x, y :: x in a && y in b ==> x.id != y.id
    ensures DistinctIds(a + b)
  {
  }

  lemma {:induction false} FiledIdsDiffer(ss: seq<Source>, g: Group)
    requires UniqueSources(ss)
    ensures DistinctIds(Filed(ss, g))
  {
    if ss == [] {
    } else {
      var n := |ss| - 1;
      FiledIdsDiffer(ss[..n], g);
      OwnIdsDiffer(ss[n]);
      forall x, y | x in Filed(ss[..n], g) && y in RulesOf(ss[n]) ensures x.id != y.id {
        var i := FiledFrom(ss[..n], g, x);
        RuleFits(ss[n], y);
        DifferentSources(ss[i], ss[n], x, y);
      }
      DistinctSum(Filed(ss[..n], g), if GroupOf(ss[n]) == g then RulesOf(ss[n]) else []);
    }
  }

  lemma SourcesDiffer(ss: seq<Source>, i: nat, j: nat)
    requires UniqueSources(ss) && i < |ss| && j < |ss| && GroupOf(ss[i]) != GroupOf(ss[j])
    ensures IsPrefix(ss[i].prefix) && IsPrefix(ss[j].prefix)
    ensures ss[i].prefix != ss[j].prefix || ss[i].id != ss[j].id
  {
    assert i != j;
  }

  /** Rules filed in different groups have different ids. */
  lemma {:induction false} GroupsDiffer(ss: seq<Source>, g: Group, h: Group, x: AlarmRule, y: AlarmRule)
    requires UniqueSources(ss) && g != h && x in Filed(ss, g) && y in Filed(ss, h)
    ensures x.id != y.id
  {
    var i := FiledFrom(ss, g, x);
    var j := FiledFrom(ss, h, y);
    SourcesDiffer(ss, i, j);
    DifferentSources(ss[i], ss[j], x, y);
  }

  // ---------- rule sets ----------

  type ByMetric = map<string, seq<AlarmRule>>

  datatype RuleSet = RuleSet(templates: ByMetric, overrides: map<string, ByMetric>, metas: map<string, Meta>)

  function Listed(m: ByMetric, k: string): seq<AlarmRule> { if k in m then m[k] else [] }

  function OverridesAt(rs: RuleSet, host: string): ByMetric
  {
    if host in rs.overrides then rs.overrides[host] else map[]
  }

  /** A metric is listed only with rules, exactly those filed for it. */
  ghost predicate Assembled(rs: RuleSet, ss: seq<Source>)
  {
    && (forall m {:trigger Listed(rs.templates, m)} :: Listed(rs.templates, m) == Filed(ss, ("tpl-", "", m)))
    && (forall h, m {:trigger Listed(OverridesAt(rs, h), m)} ::
      Listed(OverridesAt(rs, h), m) == Filed(ss, ("ovr-", h, m)))
    && (forall m {:trigger rs.templates[m]} :: m in rs.templates ==> rs.templates[m] != [])
    && (forall h, m {:trigger Listed(OverridesAt(rs, h), m)} :: m in OverridesAt(rs, h)
         ==> Listed(OverridesAt(rs, h), m) != [])
  }

  /** Every rule made from these sources has its metadata. */
  ghost predicate MetasOk(metas: map<string, Meta>, ss: seq<Source>)
  {
    forall i, r :: 0 <= i < |ss| && r in RulesOf(ss[i]) ==> r.id in metas && metas[r.id] == MetaOf(ss[i], r.threshold)
  }

  function Appended(m: ByMetric, k: string, more: seq<AlarmRule>): ByMetric
  {
    if more == [] then m else m[k := Listed(m, k) + more]
  }

  lemma AppendMore(m: ByMetric, k: string, more: seq<AlarmRule>, r: AlarmRule)
    ensures Appended(m, k, more)[k := Listed(Appended(m, k, more), k) + [r]] == Appended(m, k, more + [r])
  {
    assert Listed(m, k) + [] == Listed(m, k) && (Listed(m, k) + more) + [r] == Listed(m, k) + (more + [r]);
  }

  function MetasWith(metas: map<string, Meta>, s: Source): map<string, Meta>
  {
    var m := if s.crit.Some? then metas[RuleId(s.prefix, s.id, "-crit") := MetaOf(s, s.crit.value)] else metas;
    if s.warn.Some? then m[RuleId(s.prefix, s.id, "-warn") := MetaOf(s, s.warn.value)] else m
  }

  function WithTemplate(rs: RuleSet, s: Source): RuleSet
  {
    RuleSet(Appended(rs.templates, s.metric, RulesOf(s)), rs.overrides, MetasWith(rs.metas, s))
  }

  function WithOverride(rs: RuleSet, s: Source): RuleSet
  {
    RuleSet(rs.templates, rs.overrides[s.host := Appended(OverridesAt(rs, s.host), s.metric, RulesOf(s))],
      MetasWith(rs.metas, s))
  }

  lemma {:induction false} FiledNext(ss: seq<Source>, s: Source, g: Group)
    ensures Filed(ss + [s], g) == Filed(ss, g) + (if GroupOf(s) == g then RulesOf(s) else [])
  {
    assert (ss + [s])[..|ss|] == ss;
  }

  lemma OverridesAfter(rs: RuleSet, s: Source, h: string)
    ensures OverridesAt(WithOverride(rs, s), h)
         == if h == s.host then Appended(OverridesAt(rs, h), s.metric, RulesOf(s)) else OverridesAt(rs, h)
  {
  }

  lemma ListedAfter(m: ByMetric, k: string, more: seq<AlarmRule>, j: string)
    ensures Listed(Appended(m, k, more), j) == if j == k then Listed(m, j) + more else Listed(m, j)
    ensures j in Appended(m, k, more) ==> j in m || (j == k && more != [])
  {
    assert Listed(m, k) + [] == Listed(m, k);
  }

  lemma TemplateFiled(rs: RuleSet, ss: seq<Source>, s: Source)
    requires Assembled(rs, ss) && s.prefix == "tpl-" && s.host == ""
    ensures Assembled(WithTemplate(rs, s), ss + [s])
  {
    var next := WithTemplate(rs, s);
    forall m
      ensures Listed(next.templates, m) == Filed(ss + [s], ("tpl-", "", m))
      ensures m in next.templates ==> Listed(next.templates, m) != []
    {
      FiledNext(ss, s, ("tpl-", "", m));
      ListedAfter(rs.templates, s.metric, RulesOf(s), m);
      assert Listed(rs.templates, m) == Filed(ss, ("tpl-", "", m));
      assert Filed(ss, ("tpl-", "", m)) + [] == Filed(ss, ("tpl-", "", m));
      assert m in rs.templates ==> rs.templates[m] != [];
    }
    forall h, m ensures Listed(OverridesAt(next, h), m) == Filed(ss + [s], ("ovr-", h, m)) {
      FiledNext(ss, s, ("ovr-", h, m));
      assert OverridesAt(next, h) == OverridesAt(rs, h);
      assert Filed(ss, ("ovr-", h, m)) + [] == Filed(ss, ("ovr-", h, m));
    }
    forall h, m | m in OverridesAt(next, h) ensures Listed(OverridesAt(next, h), m) != [] {
      assert OverridesAt(next, h) == OverridesAt(rs, h);
    }
  }

  lemma OverrideFiled(rs: RuleSet, ss: seq<Source>, s: Source)
    requires Assembled(rs, ss) && s.prefix == "ovr-"
    ensures Assembled(WithOverride(rs, s), ss + [s])
  {
    var next := WithOverride(rs, s);
    forall m ensures Listed(next.templates, m) == Filed(ss + [s], ("tpl-", "", m)) {
      FiledNext(ss, s, ("tpl-", "", m));
      assert Listed(rs.templates, m) + [] == Listed(rs.templates, m);
    }
    forall h, m
      ensures Listed(OverridesAt(next, h), m) == Filed(ss + [s], ("ovr-", h, m))
      ensures m in OverridesAt(next, h) ==> Listed(OverridesAt(next, h), m) != []
    {
      FiledNext(ss, s, ("ovr-", h, m));
      OverridesAfter(rs, s, h);
      ListedAfter(OverridesAt(rs, h), s.metric, RulesOf(s), m);
      assert Listed(OverridesAt(rs, h), m) == Filed(ss, ("ovr-", h, m));
      assert Filed(ss, ("ovr-", h, m)) + [] == Filed(ss, ("ovr-", h, m));
    }
  }

  lemma MetasOfOne(metas: map<string, Meta>, s: Source, r: AlarmRule)
    requires IsPrefix(s.prefix) && r in RulesOf(s)
    ensures r.id in MetasWith(metas, s) && MetasWith(metas, s)[r.id] == MetaOf(s, r.threshold)
  {
    if RuleId(s.prefix, s.id, "-crit") == RuleId(s.prefix, s.id, "-warn") {
      RuleIdsDiffer(s.prefix, s.id, "-crit", s.prefix, s.id, "-warn");
    }
  }

  /** Adding a source keeps the metadata of the others. */
  lemma MetasFiled(metas: map<string, Meta>, ss: seq<Source>, s: Source)
    requires MetasOk(metas, ss) && UniqueSources(ss + [s])
    ensures MetasOk(MetasWith(metas, s), ss + [s])
  {
    var all := ss + [s];
    assert all[|ss|] == s;
    forall i, r | 0 <= i < |all| && r in RulesOf(all[i])
      ensures r.id in MetasWith(metas, s) && MetasWith(metas, s)[r.id] == MetaOf(all[i], r.threshold)
    {
      if i == |ss| {
        MetasOfOne(metas, s, r);
      } else {
        assert all[i] == ss[i];
        RuleFits(ss[i], r);
        IdsApart(ss[i], s, r);
      }
    }
  }

  lemma IdsApart(a: Source, b: Source, r: AlarmRule)
    requires IsPrefix(a.prefix) && IsPrefix(b.prefix) && (a.prefix != b.prefix || a.id != b.id) && HasIdOf(r, a)
    ensures r.id != RuleId(b.prefix, b.id, "-crit") && r.id != RuleId(b.prefix, b.id, "-warn")
  {
    DifferentSources(a, b, r, r.(id := RuleId(b.prefix, b.id, "-crit")));
    DifferentSources(a, b, r, r.(id := RuleId(b.prefix, b.id, "-warn")));
  }

  // ---------- assembling ----------

  method FileTemplate(rs: RuleSet, t: Template) returns (next: RuleSet)
    ensures next == WithTemplate(rs, TemplateSource(t))
  {
    next := rs;
    var critId := "";
    var meta := Meta(t.name, t.category, t.metric, t.op, 0.0, 0);
    var rules: seq<AlarmRule> := [];
    if t.crit.Some? {
      critId := RuleId("tpl-", t.id, "-crit");
      var r := AlarmRule(critId, t.metric, ComparatorOf(t.op), t.crit.value, t.durationSec * SECOND_NS, "critical", "",
        "", "", true);
      AppendMore(rs.templates, t.metric, rules, r);
      rules := rules + [r];
      next := next.(templates := next.templates[t.metric := Listed(next.templates, t.metric) + [r]],
                    metas := next.metas[critId := meta.(threshold := t.crit.value)]);
    }
    if t.warn.Some? {
      var warnId := RuleId("tpl-", t.id, "-warn");
      var r := AlarmRule(warnId, t.metric, ComparatorOf(t.op), t.warn.value, t.durationSec * SECOND_NS, "major", "",
        critId, "", true);
      AppendMore(rs.templates, t.metric, rules, r);
      rules := rules + [r];
      next := next.(templates := next.templates[t.metric := Listed(next.templates, t.metric) + [r]],
                    metas := next.metas[warnId := meta.(threshold := t.warn.value)]);
    }
    assert rules == RulesOf(TemplateSource(t));
  }

  method FallbackDuration(o: Override, tpls: seq<Template>) returns (dur: int)
    ensures dur == OverrideSource(o, tpls).durationSec
  {
    dur := o.durationSec;
    if dur == 0 {
      for i := 0 to |tpls|
        invariant dur == LastDuration(tpls[..i], o.metric)
      {
        assert tpls[..i + 1][..i] == tpls[..i];
        if tpls[i].metric == o.metric { dur := tpls[i].durationSec; }
      }
      TakeAll(tpls);
    }
  }

  method FileOverride(rs: RuleSet, o: Override, tpls: seq<Template>) returns (next: RuleSet)
    ensures next == WithOverride(rs, OverrideSource(o, tpls))
  {
    var dur := FallbackDuration(o, tpls);
    var mine := OverridesAt(rs, o.hostname);
    var metas := rs.metas;
    var critId := "";
    var meta := Meta("覆盖 · " + o.metric, "sensor", o.metric, o.op, 0.0, o.hostID);
    var rules: seq<AlarmRule> := [];
    if o.crit.Some? {
      critId := RuleId("ovr-", o.id, "-crit");
      var r := AlarmRule(critId, o.metric, ComparatorOf(o.op), o.crit.value, dur * SECOND_NS, "critical", o.hostname,
        "", "", true);
      AppendMore(OverridesAt(rs, o.hostname), o.metric, rules, r);
      rules := rules + [r];
      mine := mine[o.metric := Listed(mine, o.metric) + [r]];
      metas := metas[critId := meta.(threshold := o.crit.value)];
    }
    if o.warn.Some? {
      var warnId := RuleId("ovr-", o.id, "-warn");
      var r := AlarmRule(warnId, o.metric, ComparatorOf(o.op), o.warn.value, dur * SECOND_NS, "major", o.hostname,
        critId, "", true);
      AppendMore(OverridesAt(rs, o.hostname), o.metric, rules, r);
      rules := rules + [r];
      mine := mine[o.metric := Listed(mine, o.metric) + [r]];
      metas := metas[warnId := meta.(threshold := o.warn.value)];
    }
    assert rules == RulesOf(OverrideSource(o, tpls));
    next := rs.(overrides := rs.overrides[o.hostname := mine], metas := metas);
  }

  ghost predicate UniqueTemplates(tpls: seq<Template>)
  {
    forall i, j :: 0 <= i < j < |tpls| ==> tpls[i].id != tpls[j].id
  }

  ghost predicate UniqueOverrides(ovs: seq<Override>)
  {
    forall i, j :: 0 <= i < j < |ovs| ==> ovs[i].id != ovs[j].id
  }

  lemma SourcesAreUnique(tpls: seq<Template>, ovs: seq<Override>)
    requires UniqueTemplates(tpls) && UniqueOverrides(ovs)
    ensures UniqueSources(Sources(tpls, ovs))
  {
  }

  lemma UniquePrefix(ss: seq<Source>, n: nat)
    requires UniqueSources(ss) && n <= |ss|
    ensures UniqueSources(ss[..n])
  {
  }

  ghost predicate Complete(rs: RuleSet, ss: seq<Source>) { Assembled(rs, ss) && MetasOk(rs.metas, ss) }

  lemma NextSource(rs: RuleSet, ss: seq<Source>, i: nat)
    requires i < |ss| && UniqueSources(ss) && Complete(rs, ss[..i])
    ensures ss[i].prefix == "tpl-" && ss[i].host == "" ==> Complete(WithTemplate(rs, ss[i]), ss[..i + 1])
    ensures ss[i].prefix == "ovr-" ==> Complete(WithOverride(rs, ss[i]), ss[..i + 1])
  {
    TakeNext(ss, i);
    UniquePrefix(ss, i + 1);
    MetasFiled(rs.metas, ss[..i], ss[i]);
    if ss[i].prefix == "tpl-" && ss[i].host == "" { TemplateFiled(rs, ss[..i], ss[i]); }
    if ss[i].prefix == "ovr-" { OverrideFiled(rs, ss[..i], ss[i]); }
  }

  /** Assembles the enabled templates and overrides; ids are primary keys. */
  method BuildRuleSet(tpls: seq<Template>, ovs: seq<Override>) returns (rs: RuleSet)
    requires UniqueTemplates(tpls) && UniqueOverrides(ovs)
    ensures Assembled(rs, Sources(tpls, ovs)) && MetasOk(rs.metas, Sources(tpls, ovs))
  {
    ghost var ss := Sources(tpls, ovs);
    SourcesAreUnique(tpls, ovs);
    rs := RuleSet(map[], map[], map[]);
    for i := 0 to |tpls|
      invariant Complete(rs, ss[..i])
    {
      NextSource(rs, ss, i);
      rs := FileTemplate(rs, tpls[i]);
    }
    OverrideSources(tpls, ovs);
    FiledSoFar(rs, ss, |tpls|);
    rs := FileOverrides(rs, |tpls|, tpls, ovs, ss);
    SoFarIsFiled(rs, ss, |ss|);
    TakeAll(ss);
  }

  ghost predicate SourceAt(ss: seq<Source>, n: nat, s: Source) { n < |ss| && ss[n] == s }

  predicate Begins(ss: seq<Source>, n: nat, part: seq<Source>) { n <= |ss| && ss[..n] == part }

  /** The first `n` sources are filed; stated over every name for them, so that the rule set is looked into only where
      one is given. */
  ghost predicate FiledTo(rs: RuleSet, ss: seq<Source>, n: nat)
  {
    n <= |ss| && forall part {:trigger Begins(ss, n, part)} :: Begins(ss, n, part) ==> Complete(rs, part)
  }

  lemma FiledSoFar(rs: RuleSet, ss: seq<Source>, n: nat)
    requires n <= |ss| && Complete(rs, ss[..n])
    ensures FiledTo(rs, ss, n)
  {
  }

  lemma SoFarIsFiled(rs: RuleSet, ss: seq<Source>, n: nat)
    requires FiledTo(rs, ss, n)
    ensures Complete(rs, ss[..n])
  {
    assert Begins(ss, n, ss[..n]);
  }

  method FileOverrides(start: RuleSet, first: nat, tpls: seq<Template>, ovs: seq<Override>, ghost ss: seq<Source>)
      returns (rs: RuleSet)
    requires UniqueSources(ss) && |ss| == first + |ovs| && FiledTo(start, ss, first)
    requires forall i {:trigger ovs[i]} :: 0 <= i < |ovs| ==> SourceAt(ss, first + i, OverrideSource(ovs[i], tpls))
    ensures FiledTo(rs, ss, |ss|)
  {
    rs := start;
    for i := 0 to |ovs|
      invariant FiledTo(rs, ss, first + i)
    {
      rs := FileNext(rs, ovs[i], tpls, ss, first + i);
    }
  }

  method FileNext(start: RuleSet, o: Override, tpls: seq<Template>, ghost ss: seq<Source>, ghost n: nat)
      returns (rs: RuleSet)
    requires UniqueSources(ss) && SourceAt(ss, n, OverrideSource(o, tpls)) && FiledTo(start, ss, n)
    ensures FiledTo(rs, ss, n + 1)
  {
    SoFarIsFiled(start, ss, n);
    NextSource(start, ss, n);
    rs := FileOverride(start, o, tpls);
    FiledSoFar(rs, ss, n + 1);
  }

  lemma OverrideSources(tpls: seq<Template>, ovs: seq<Override>)
    ensures |Sources(tpls, ovs)| == |tpls| + |ovs|
    ensures forall i {:trigger ovs[i]} :: 0 <= i < |ovs|
             ==> SourceAt(Sources(tpls, ovs), |tpls| + i, OverrideSource(ovs[i], tpls))
  {
    forall i | 0 <= i < |ovs| ensures SourceAt(Sources(tpls, ovs), |tpls| + i, OverrideSource(ovs[i], tpls)) {
      OverrideSourceAt(tpls, ovs, |tpls| + i);
    }
  }

  lemma OverrideSourceAt(tpls: seq<Template>, ovs: seq<Override>, n: nat)
    requires |tpls| <= n < |tpls| + |ovs|
    ensures Sources(tpls, ovs)[n] == OverrideSource(ovs[n - |tpls|], tpls)
  {
  }

  // ---------- the rules of a host ----------

  /** A metric the host overrides is ruled by its overrides alone, any other by the templates. */
  ghost predicate RuleFor(rs: RuleSet, host: string, r: AlarmRule)
  {
    exists m :: Governs(rs, host, m, r)
  }

  predicate Governs(rs: RuleSet, host: string, m: string, r: AlarmRule)
  {
    if m in OverridesAt(rs, host) then r in OverridesAt(rs, host)[m] else r in Listed(rs.templates, m)
  }

  function GroupFor(rs: RuleSet, host: string, m: string): Group
  {
    if m in OverridesAt(rs, host) then ("ovr-", host, m) else ("tpl-", "", m)
  }

  lemma {:induction false} GovernsIsFiled(rs: RuleSet, ss: seq<Source>, host: string, m: string, r: AlarmRule)
    requires Assembled(rs, ss)
    ensures Governs(rs, host, m, r) <==> r in Filed(ss, GroupFor(rs, host, m))
  {
    assert Listed(OverridesAt(rs, host), m) == Filed(ss, ("ovr-", host, m));
    assert Listed(rs.templates, m) == Filed(ss, ("tpl-", "", m));
  }

  /** The rules collected so far: those governing the metrics in `done`, with distinct ids. */
  ghost predicate Collected(rules: seq<AlarmRule>, rs: RuleSet, host: string, done: set<string>)
  {
    && DistinctIds(rules)
    && (forall r :: r in rules ==> exists m :: m in done && Governs(rs, host, m, r))
    && (forall m, r :: m in done && Governs(rs, host, m, r) ==> r in rules)
  }

  lemma {:induction false} CollectedNext(rules: seq<AlarmRule>, rs: RuleSet, ss: seq<Source>, host: string,
                                         done: set<string>, m: string, more: seq<AlarmRule>)
    requires Assembled(rs, ss) && UniqueSources(ss) && Collected(rules, rs, host, done) && m !in done
    requires more == Filed(ss, GroupFor(rs, host, m))
    ensures Collected(rules + more, rs, host, done + {m})
  {
    FiledIdsDiffer(ss, GroupFor(rs, host, m));
    forall r ensures Governs(rs, host, m, r) <==> r in more { GovernsIsFiled(rs, ss, host, m, r); }
    forall x, y | x in rules && y in more ensures x.id != y.id {
      var k :| k in done && Governs(rs, host, k, x);
      GovernsIsFiled(rs, ss, host, k, x);
      GroupsDiffer(ss, GroupFor(rs, host, k), GroupFor(rs, host, m), x, y);
    }
    DistinctSum(rules, more);
    forall r | r in rules + more ensures exists k :: k in done + {m} && Governs(rs, host, k, r) {
      if r in rules {
        var k :| k in done && Governs(rs, host, k, r);
        assert k in done + {m};
      } else {
        assert m in done + {m} && Governs(rs, host, m, r);
      }
    }
  }

  /** The rules for a host, in no particular order. */
  method RulesFor(rs: RuleSet, ghost ss: seq<Source>, host: string) returns (rules: seq<AlarmRule>)
    requires Assembled(rs, ss) && UniqueSources(ss)
    ensures DistinctIds(rules) && forall r :: r in rules <==> RuleFor(rs, host, r)
  {
    rules := [];
    var ov := OverridesAt(rs, host);
    var todo := rs.templates.Keys;
    ghost var done: set<string> := {};
    while todo != {}
      invariant todo <= rs.templates.Keys && done == rs.templates.Keys - ov.Keys - todo
                && Collected(rules, rs, host, done)
      decreases todo
    {
      var m :| m in todo;
      todo := todo - {m};
      if m in ov { continue; }
      assert rs.templates[m] == Listed(rs.templates, m);
      CollectedNext(rules, rs, ss, host, done, m, rs.templates[m]);
      rules := rules + rs.templates[m];
      done := done + {m};
    }
    todo := ov.Keys;
    while todo != {}
      invariant todo <= ov.Keys && done == (rs.templates.Keys - ov.Keys) + (ov.Keys - todo)
                && Collected(rules, rs, host, done)
      decreases todo
    {
      var m :| m in todo;
      todo := todo - {m};
      assert ov[m] == Listed(OverridesAt(rs, host), m);
      CollectedNext(rules, rs, ss, host, done, m, ov[m]);
      rules := rules + ov[m];
      done := done + {m};
    }
    forall r ensures r in rules <==> RuleFor(rs, host, r) {
      if RuleFor(rs, host, r) {
        var m :| Governs(rs, host, m, r);
        assert m in done;
      }
    }
  }

  /** Whatever order the maps are walked in, the engine sees the same rules in the same order. */
  lemma {:induction false} SameRulesSorted(rs: RuleSet, host: string, a: seq<AlarmRule>, b: seq<AlarmRule>)
    requires DistinctIds(a) && DistinctIds(b)
    requires forall r :: (r in a <==> RuleFor(rs, host, r)) && (r in b <==> RuleFor(rs, host, r))
    ensures SortedRules(a) == SortedRules(b)
  {
    assert Distinct(a) && Distinct(b);
    assert SameElements(a, b);
    DistinctSameMembers(a, b);
    RuleOrderIsIrrelevant(a, b);
  }

  /** Every rule that applies to a host has metadata with its own metric and threshold. */
  lemma RulesHaveMetas(rs: RuleSet, ss: seq<Source>, host: string, r: AlarmRule)
    requires Assembled(rs, ss) && MetasOk(rs.metas, ss) && RuleFor(rs, host, r)
    ensures r.id in rs.metas && rs.metas[r.id].metric == r.metric && rs.metas[r.id].threshold == r.threshold
    ensures r.activeKey == "" && r.enabled && (r.host == "" || r.host == host)
  {
    var m :| Governs(rs, host, m, r);
    GovernsIsFiled(rs, ss, host, m, r);
    var i := FiledFrom(ss, GroupFor(rs, host, m), r);
    RuleFits(ss[i], r);
  }

  lemma ParentIsCritical(s: Source, r: AlarmRule) returns (p: AlarmRule)
    requires r in RulesOf(s) && r.parent != ""
    ensures p in RulesOf(s) && p.id == r.parent && p.level == "critical" && StrLess(r.parent, r.id)
  {
    p := RulesOf(s)[0];
    CriticalFirst(s.prefix, s.id);
  }

  lemma {:induction false} FiledHas(ss: seq<Source>, g: Group, i: nat, r: AlarmRule)
    requires i < |ss| && GroupOf(ss[i]) == g && r in RulesOf(ss[i])
    ensures r in Filed(ss, g)
  {
    if i == |ss| - 1 {
    } else {
      FiledHas(ss[..|ss| - 1], g, i, r);
    }
  }

  /** A rule with a parent applies to a host together with that parent, which is the critical rule of the same metric
      and comes before it. */
  lemma ParentsApplyAndComeFirst(rs: RuleSet, ss: seq<Source>, host: string, r: AlarmRule) returns (p: AlarmRule)
    requires Assembled(rs, ss) && RuleFor(rs, host, r) && r.parent != ""
    ensures RuleFor(rs, host, p) && p.id == r.parent && p.level == "critical" && p.metric == r.metric
    ensures StrLess(r.parent, r.id)
  {
    var m :| Governs(rs, host, m, r);
    GovernsIsFiled(rs, ss, host, m, r);
    var i := FiledFrom(ss, GroupFor(rs, host, m), r);
    p := ParentIsCritical(ss[i], r);
    RuleFits(ss[i], r);
    RuleFits(ss[i], p);
    FiledHas(ss, GroupFor(rs, host, m), i, p);
    GovernsIsFiled(rs, ss, host, m, p);
  }
}
