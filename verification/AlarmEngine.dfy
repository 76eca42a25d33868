/** The alarm engine: per-key firing state driven by samples and rules. Times and durations are nanoseconds. */
module AlarmEngines {
  import opened Ordering

  // ---------- rules, samples, events ----------

  datatype Comparator = Greater | AtLeast | Less | AtMost | Equal | Different | Unknown

  predicate Match(c: Comparator, v: real, threshold: real)
  {
    match c
    case Greater => v > threshold
    case AtLeast => v >= threshold
    case Less => v < threshold
    case AtMost => v <= threshold
    case Equal => v == threshold
    case Different => v != threshold
    case Unknown => false
  }

  datatype AlarmRule = AlarmRule(id: string, metric: string, comparator: Comparator, threshold: real, forDuration: int,
                                 level: string, host: string, parent: string, activeKey: string, enabled: bool)
  datatype Window = Window(start: int, end: int, host: string)
  datatype Sample = Sample(metric: string, value: real, host: string, object_: string)

  datatype EventState = Firing | Recovered | Suppressed | Muted
  datatype AlarmEvent = AlarmEvent(activeKey: string, ruleID: string, host: string, object_: string, level: string,
                                   state: EventState, message: string, at: int)

  /** The window contains the time and applies to the host. */
  predicate Covers(w: Window, t: int, host: string)
  {
    w.start <= t < w.end && (w.host == "" || w.host == host)
  }

  datatype Settings = Settings(recoverN: nat, suppressWindow: int, maint: seq<Window>)

  predicate InMaintenance(maint: seq<Window>, t: int, host: string)
  {
    exists i :: 0 <= i < |maint| && Covers(maint[i], t, host)
  }

  function KeyFor(id: string, s: Sample): string
  {
    id + "@" + s.host + (if s.object_ != "" then "/" + s.object_ else "")
  }

  function ActiveKey(r: AlarmRule, s: Sample): string
  {
    if r.activeKey != "" then r.activeKey else KeyFor(r.id, s)
  }

  function LevelOf(r: AlarmRule): string { if r.level == "" then "warning" else r.level }

  // ---------- one evaluation of one key ----------

  datatype Core = Core(breachStart: Option<int>, firing: bool, lastFiredAt: int, below: nat)
  datatype AlarmState = AlarmState(ruleID: string, level: string, core: Core)

  const FRESH := Core(None, false, 0, 0)

  /** What an evaluation of a key sees. */
  datatype Obs = Obs(cond: bool, parentFiring: bool, now: int, forDuration: int, recoverN: nat, suppressWindow: int)

  datatype Verdict = Quiet | Waits | Inhibited | Starts | Repeats | TooSoon | Recovers

  function Judge(c: Core, o: Obs): (Core, Verdict)
  {
    if o.cond then
      if !c.firing then
        var begun := if c.breachStart.None? then o.now else c.breachStart.value;
        if o.forDuration > 0 && o.now - begun < o.forDuration then (c.(breachStart := Some(begun)), Waits)
        else if o.parentFiring then (c.(breachStart := Some(begun)), Inhibited)
        else (Core(None, true, o.now, 0), Starts)
      else if o.now - c.lastFiredAt < o.suppressWindow then (c, TooSoon)
      else (c.(lastFiredAt := o.now), Repeats)
    else
      var next := c.(below := c.below + 1, breachStart := None);
      if c.firing && next.below >= o.recoverN then (next.(firing := false, below := 0), Recovers) else (next, Quiet)
  }

  // ---------- runs of one key ----------

  function CoreAfter(obs: seq<Obs>): Core
  {
    if obs == [] then FRESH else Judge(CoreAfter(obs[..|obs| - 1]), obs[|obs| - 1]).0
  }

  function VerdictAt(obs: seq<Obs>, n: nat): Verdict
    requires n < |obs|
  {
    Judge(CoreAfter(obs[..n]), obs[n]).1
  }

  function FiringBefore(obs: seq<Obs>, n: nat): bool
    requires n <= |obs|
  {
    CoreAfter(obs[..n]).firing
  }

  /** Where the unbroken stretch of true evaluations that ends the sequence begins. */
  function StretchStart(obs: seq<Obs>): (m: nat)
    ensures m <= |obs|
    ensures forall i :: m <= i < |obs| ==> obs[i].cond
    ensures m > 0 ==> !obs[m - 1].cond
  {
    if obs == [] || !obs[|obs| - 1].cond then |obs| else StretchStart(obs[..|obs| - 1])
  }

  lemma {:induction false} BreachIsStretch(obs: seq<Obs>)
    ensures var c, m := CoreAfter(obs), StretchStart(obs);
            !c.firing ==> c.breachStart == if m < |obs| then Some(obs[m].now) else None
    ensures CoreAfter(obs).firing ==> CoreAfter(obs).breachStart.None?
  {
    if obs == [] {
    } else {
      BreachIsStretch(obs[..|obs| - 1]);
    }
  }

  lemma StartsWhen(obs: seq<Obs>, n: nat)
    requires n < |obs|
    ensures var m := StretchStart(obs[..n + 1]);
            VerdictAt(obs, n) == Starts
            <==> !FiringBefore(obs, n) && !obs[n].parentFiring && m <= n
                 && (obs[n].forDuration <= 0 || obs[n].now - obs[m].now >= obs[n].forDuration)
  {
    BreachIsStretch(obs[..n]);
    assert obs[..n + 1][..n] == obs[..n];
    assert StretchStart(obs[..n + 1]) == if obs[n].cond then StretchStart(obs[..n]) else n + 1;
  }

  /** The last evaluation that fired, for the first time or again. */
  function LastFire(obs: seq<Obs>): (i: Option<nat>)
    ensures i.Some? ==> i.value < |obs|
  {
    if obs == [] then None
    else if VerdictAt(obs, |obs| - 1) == Starts || VerdictAt(obs, |obs| - 1) == Repeats then Some(|obs| - 1)
    else LastFire(obs[..|obs| - 1])
  }

  lemma {:induction false} LastFiredIs(obs: seq<Obs>)
    ensures CoreAfter(obs).firing ==> LastFire(obs).Some? && CoreAfter(obs).lastFiredAt == obs[LastFire(obs).value].now
  {
    if obs == [] {
    } else {
      var n := |obs| - 1;
      assert obs[..n + 1] == obs;
      LastFiredIs(obs[..n]);
    }
  }

  lemma RepeatsWhen(obs: seq<Obs>, n: nat)
    requires n < |obs|
    ensures VerdictAt(obs, n) == Repeats
       <==> FiringBefore(obs, n) && obs[n].cond
            && LastFire(obs[..n]).Some? && obs[n].now - obs[LastFire(obs[..n]).value].now >= obs[n].suppressWindow
  {
    LastFiredIs(obs[..n]);
  }

  /** How many evaluations have been false since firing last started. */
  function FalseSinceStart(obs: seq<Obs>): nat
  {
    if obs == [] then 0
    else if VerdictAt(obs, |obs| - 1) == Starts then 0
    else FalseSinceStart(obs[..|obs| - 1]) + (if obs[|obs| - 1].cond then 0 else 1)
  }

  ghost predicate RecoversAfter(obs: seq<Obs>, n: nat)
  {
    n >= 1 && forall i :: 0 <= i < |obs| ==> obs[i].recoverN == n
  }

  lemma {:induction false} BelowCounts(obs: seq<Obs>, n: nat)
    requires RecoversAfter(obs, n)
    ensures CoreAfter(obs).firing ==> CoreAfter(obs).below == FalseSinceStart(obs) < n
  {
    if obs == [] {
    } else {
      assert obs[..|obs|] == obs;
      BelowCounts(obs[..|obs| - 1], n);
    }
  }

  lemma FalseCountNext(obs: seq<Obs>, i: nat)
    requires i < |obs|
    ensures FalseSinceStart(obs[..i + 1])
         == if VerdictAt(obs, i) == Starts then 0 else FalseSinceStart(obs[..i]) + (if obs[i].cond then 0 else 1)
  {
    assert obs[..i + 1][..i] == obs[..i];
  }

  lemma RecoversWhen(obs: seq<Obs>, n: nat, i: nat)
    requires RecoversAfter(obs, n) && i < |obs|
    ensures VerdictAt(obs, i) == Recovers
       <==> FiringBefore(obs, i) && !obs[i].cond && FalseSinceStart(obs[..i + 1]) == n
  {
    BelowCounts(obs[..i], n);
    FalseCountNext(obs, i);
  }

  // ---------- recovery and consecutive samples ----------

  /** The documented reading: a recovery ends `n` false evaluations in a row. */
  ghost predicate ConsecutiveRecovery(n: nat)
  {
    forall obs: seq<Obs>, i: nat :: i < |obs| && RecoversAfter(obs, n) && VerdictAt(obs, i) == Recovers
      ==> i + 1 >= n && forall j :: i + 1 - n <= j <= i ==> !obs[j].cond
  }

  function Plain(cond: bool, n: nat): Obs { Obs(cond, false, 0, 0, n, 0) }

  function Falses(k: nat, n: nat): seq<Obs>
  {
    if k == 0 then [] else Falses(k - 1, n) + [Plain(false, n)]
  }

  /** Fires at once, is false, true again, and then false until one short of `n` in a row. */
  function Broken(k: nat, n: nat): seq<Obs>
  {
    [Plain(true, n), Plain(false, n), Plain(true, n)] + Falses(k, n)
  }

  lemma BrokenNext(k: nat, n: nat)
    requires k > 0
    ensures |Broken(k, n)| == |Broken(k - 1, n)| + 1
    ensures Broken(k, n)[..|Broken(k - 1, n)|] == Broken(k - 1, n)
            && Broken(k, n)[|Broken(k - 1, n)|] == Plain(false, n)
  {
  }

  lemma {:induction false} BrokenStillFires(k: nat, n: nat)
    requires n >= 2 && k + 1 < n
    ensures |Broken(k, n)| == k + 3 && RecoversAfter(Broken(k, n), n)
    ensures CoreAfter(Broken(k, n)).firing && CoreAfter(Broken(k, n)).below == k + 1
  {
    if k == 0 {
      var obs := Broken(0, n);
      assert obs == [Plain(true, n), Plain(false, n), Plain(true, n)];
      assert obs[..2] == [Plain(true, n), Plain(false, n)] && obs[..2][..1] == [Plain(true, n)] && obs[..1][..0] == [];
      assert CoreAfter(obs[..1]) == Core(None, true, 0, 0);
      assert CoreAfter(obs[..2]) == Core(None, true, 0, 1);
    } else {
      BrokenStillFires(k - 1, n);
      BrokenNext(k, n);
    }
  }

  /** Recovery needs consecutive false samples only when one is enough: a true sample while firing does not restart the
      count. */
  lemma RecoveryIsConsecutiveOnlyForOne(n: nat)
    requires n >= 1
    ensures ConsecutiveRecovery(n) <==> n == 1
  {
    if n == 1 {
      forall obs: seq<Obs>, i: nat | i < |obs| && RecoversAfter(obs, n) && VerdictAt(obs, i) == Recovers
        ensures !obs[i].cond {}
    } else {
      var obs := Broken(n - 1, n);
      BrokenStillFires(n - 2, n);
      BrokenNext(n - 1, n);
      assert RecoversAfter(obs, n);
      assert VerdictAt(obs, n + 1) == Recovers;
      assert obs[2].cond;
    }
  }

  // ---------- the engine's table ----------

  type Table = map<string, AlarmState>

  predicate FiringKey(t: Table, k: string) { k in t && t[k].core.firing }

  /** One rule applied to one sample. */
  datatype Evaluation = Evaluation(r: AlarmRule, s: Sample, now: int, cfg: Settings)

  predicate Breaches(e: Evaluation) { Match(e.r.comparator, e.s.value, e.r.threshold) }

  function KeyAt(e: Evaluation): string { ActiveKey(e.r, e.s) }

  function StateFor(t: Table, e: Evaluation): AlarmState
  {
    if KeyAt(e) in t then t[KeyAt(e)] else AlarmState(e.r.id, LevelOf(e.r), FRESH)
  }

  function ParentFiring(t: Table, e: Evaluation): bool
  {
    e.r.parent != "" && FiringKey(t, KeyFor(e.r.parent, e.s))
  }

  function ObsFor(t: Table, e: Evaluation): Obs
  {
    Obs(Breaches(e), ParentFiring(t, e), e.now, e.r.forDuration, e.cfg.recoverN, e.cfg.suppressWindow)
  }

  function VerdictOf(t: Table, e: Evaluation): Verdict { Judge(StateFor(t, e).core, ObsFor(t, e)).1 }

  function Evaluated(t: Table, e: Evaluation): Table
  {
    t[KeyAt(e) := StateFor(t, e).(core := Judge(StateFor(t, e).core, ObsFor(t, e)).0)]
  }

  function EventFor(e: Evaluation, state: EventState, message: string): AlarmEvent
  {
    AlarmEvent(KeyAt(e), e.r.id, e.s.host, e.s.object_, LevelOf(e.r), state, message, e.now)
  }

  /** A firing is muted within a maintenance window. */
  function FiringFor(e: Evaluation): AlarmEvent
  {
    if InMaintenance(e.cfg.maint, e.now, e.s.host) then EventFor(e, Muted, "维护窗口内，仅记录")
    else EventFor(e, Firing, "指标越限")
  }

  function EventsFor(e: Evaluation, v: Verdict): seq<AlarmEvent>
  {
    match v
    case Quiet => []
    case Waits => []
    case Inhibited => [EventFor(e, Suppressed, "被父告警抑制")]
    case TooSoon => [EventFor(e, Suppressed, "抑制窗口内重复触发")]
    case Recovers => [EventFor(e, Recovered, "指标已恢复")]
    case Starts => [FiringFor(e)]
    case Repeats => [FiringFor(e)]
  }

  /** What an evaluation reports: a start or a repeat, silenced inside a maintenance window, or a recovery, or that a
      firing was held back; otherwise nothing. It names the rule, the host and object of the sample, and the time. */
  lemma ReportsTell(e: Evaluation, v: Verdict)
    ensures v.Quiet? || v.Waits? ==> EventsFor(e, v) == []
    ensures !v.Quiet? && !v.Waits? ==>
              && |EventsFor(e, v)| == 1
              && var ev := EventsFor(e, v)[0];
                 var covered := exists w :: w in e.cfg.maint && w.start <= e.now < w.end && w.host in {"", e.s.host};
                 && (ev.state == Firing <==> (v.Starts? || v.Repeats?) && !covered)
                 && (ev.state == Muted <==> (v.Starts? || v.Repeats?) && covered)
                 && (ev.state == Recovered <==> v.Recovers?)
                 && (ev.state == Suppressed <==> v.Inhibited? || v.TooSoon?)
                 && ev.ruleID == e.r.id && ev.host == e.s.host && ev.object_ == e.s.object_ && ev.at == e.now
                 && ev.level == (if e.r.level == "" then "warning" else e.r.level)
                 && ev.activeKey == (if e.r.activeKey != "" then e.r.activeKey else KeyFor(e.r.id, e.s))
                 && ev.message == match v
                   case Inhibited => "被父告警抑制"
                   case TooSoon => "抑制窗口内重复触发"
                   case Recovers => "指标已恢复"
                   case _ => if covered then "维护窗口内，仅记录" else "指标越限"
  {
  }

  function TableAfter(t: Table, es: seq<Evaluation>): Table
  {
    if es == [] then t else Evaluated(TableAfter(t, es[..|es| - 1]), es[|es| - 1])
  }

  function EventsAfter(t: Table, es: seq<Evaluation>): seq<AlarmEvent>
  {
    if es == [] then []
    else
      var n := |es| - 1;
      EventsAfter(t, es[..n]) + EventsFor(es[n], VerdictOf(TableAfter(t, es[..n]), es[n]))
  }

  /** What the evaluations of one key have seen, in order. */
  function Project(es: seq<Evaluation>, k: string): seq<Obs>
  {
    if es == [] then []
    else
      var n := |es| - 1;
      Project(es[..n], k) + (if KeyAt(es[n]) == k then [ObsFor(TableAfter(map[], es[..n]), es[n])] else [])
  }

  /** Each key's state is that of its own run, whatever happens to the other keys. */
  lemma {:induction false} KeysRunIndependently(es: seq<Evaluation>, k: string)
    ensures k in TableAfter(map[], es) <==> Project(es, k) != []
    ensures k in TableAfter(map[], es) ==> TableAfter(map[], es)[k].core == CoreAfter(Project(es, k))
  {
    if es == [] {
    } else {
      var n := |es| - 1;
      KeysRunIndependently(es[..n], k);
      if KeyAt(es[n]) == k {
        var before, o := Project(es[..n], k), ObsFor(TableAfter(map[], es[..n]), es[n]);
        assert (before + [o])[..|before|] == before;
      } else {
        assert Project(es[..n], k) + [] == Project(es[..n], k);
      }
    }
  }

  // ---------- runs of the engine ----------

  /** What the engine decides at the n-th evaluation of a run. */
  function VerdictIn(es: seq<Evaluation>, n: nat): Verdict
    requires n < |es|
  {
    VerdictOf(TableAfter(map[], es[..n]), es[n])
  }

  /** Whether the key of the n-th evaluation fires just before it. */
  predicate FiresBefore(es: seq<Evaluation>, n: nat)
    requires n < |es|
  {
    FiringKey(TableAfter(map[], es[..n]), KeyAt(es[n]))
  }

  /** What the key of the n-th evaluation has seen up to and including it. */
  function Seen(es: seq<Evaluation>, n: nat): seq<Obs>
    requires n < |es|
  {
    Project(es[..n + 1], KeyAt(es[n]))
  }

  /** The engine decides for a key what the key's own run calls for. */
  lemma VerdictIsOwn(es: seq<Evaluation>, n: nat)
    requires n < |es|
    ensures var p, t := Seen(es, n), TableAfter(map[], es[..n]);
            && p == Project(es[..n], KeyAt(es[n])) + [ObsFor(t, es[n])]
            && p[..|p| - 1] == Project(es[..n], KeyAt(es[n]))
            && VerdictIn(es, n) == VerdictAt(p, |p| - 1)
            && FiresBefore(es, n) == FiringBefore(p, |p| - 1)
  {
    assert es[..n + 1][..n] == es[..n];
    KeysRunIndependently(es[..n], KeyAt(es[n]));
    var before := Project(es[..n], KeyAt(es[n]));
    assert (before + [ObsFor(TableAfter(map[], es[..n]), es[n])])[..|before|] == before;
  }

  /** Over every run, firing starts exactly when the key does not fire, its parent does not fire at that moment, and the
      condition has held at every evaluation of the key for at least the rule's duration. */
  lemma StartsAfterStretch(es: seq<Evaluation>, n: nat)
    requires n < |es|
    ensures var p := Seen(es, n);
            var m := StretchStart(p);
            var t, parent := TableAfter(map[], es[..n]), KeyFor(es[n].r.parent, es[n].s);
            VerdictIn(es, n) == Starts
            <==> !FiresBefore(es, n) && !(es[n].r.parent != "" && parent in t && t[parent].core.firing) && m < |p|
                 && (es[n].r.forDuration <= 0 || es[n].now - p[m].now >= es[n].r.forDuration)
  {
    VerdictIsOwn(es, n);
    var p := Seen(es, n);
    assert p[..|p| - 1 + 1] == p;
    StartsWhen(p, |p| - 1);
  }

  /** Over every run, a firing is repeated exactly when the condition holds while the key fires and at least the
      suppress window has passed since it last fired, for the first time or again. */
  lemma RepeatsAreSpaced(es: seq<Evaluation>, n: nat)
    requires n < |es|
    ensures var p := Seen(es, n);
            var last := LastFire(p[..|p| - 1]);
            VerdictIn(es, n) == Repeats
            <==> FiresBefore(es, n) && Breaches(es[n])
                 && last.Some? && es[n].now - p[last.value].now >= es[n].cfg.suppressWindow
  {
    VerdictIsOwn(es, n);
    RepeatsWhen(Seen(es, n), |Seen(es, n)| - 1);
  }

  /** The threshold of recovery stays the same through the run. */
  ghost predicate SameRecovery(es: seq<Evaluation>, r: nat)
  {
    r >= 1 && forall i :: 0 <= i < |es| ==> es[i].cfg.recoverN == r
  }

  lemma {:induction false} ProjectRecovers(es: seq<Evaluation>, k: string, r: nat)
    requires SameRecovery(es, r)
    ensures RecoversAfter(Project(es, k), r)
  {
    if es == [] {
    } else {
      ProjectRecovers(es[..|es| - 1], k, r);
    }
  }

  /** Over every run, a key recovers exactly at the r-th false evaluation since it started firing, and only while it
      fires. */
  lemma RecoversAtNthFalse(es: seq<Evaluation>, n: nat, r: nat)
    requires n < |es| && SameRecovery(es, r)
    ensures VerdictIn(es, n) == Recovers
       <==> FiresBefore(es, n) && !Breaches(es[n]) && FalseSinceStart(Seen(es, n)) == r
  {
    VerdictIsOwn(es, n);
    var p := Seen(es, n);
    ProjectRecovers(es[..n + 1], KeyAt(es[n]), r);
    assert p[..|p| - 1 + 1] == p;
    RecoversWhen(p, r, |p| - 1);
  }

  // ---------- sorting rules in place ----------

  predicate RuleLeq(a: AlarmRule, b: AlarmRule) { StrLeq(a.id, b.id) }

  /** Moves `x` left past the rules with greater ids. */
  function InsertRule(s: seq<AlarmRule>, x: AlarmRule): (r: seq<AlarmRule>)
    ensures |r| == |s| + 1
  {
    if s == [] || !StrLess(x.id, s[|s| - 1].id) then s + [x] else InsertRule(s[..|s| - 1], x) + [s[|s| - 1]]
  }

  function SortedRules(s: seq<AlarmRule>): (r: seq<AlarmRule>)
    ensures |r| == |s|
  {
    if s == [] then [] else InsertRule(SortedRules(s[..|s| - 1]), s[|s| - 1])
  }

  lemma {:induction false} InsertRulePermutes(s: seq<AlarmRule>, x: AlarmRule)
    ensures multiset(InsertRule(s, x)) == multiset(s) + multiset{x}
  {
    if s == [] || !StrLess(x.id, s[|s| - 1].id) {
    } else {
      InsertRulePermutes(s[..|s| - 1], x);
      assert s == s[..|s| - 1] + [s[|s| - 1]];
    }
  }

  lemma {:induction false} SortedRulesPermute(s: seq<AlarmRule>)
    ensures multiset(SortedRules(s)) == multiset(s)
  {
    if s == [] {
    } else {
      var n := |s| - 1;
      SortedRulesPermute(s[..n]);
      InsertRulePermutes(SortedRules(s[..n]), s[n]);
      assert s == s[..n] + [s[n]];
    }
  }

  lemma NotLess(a: AlarmRule, b: AlarmRule, c: AlarmRule)
    ensures StrLess(a.id, b.id) ==> RuleLeq(a, b)
    ensures !StrLess(a.id, b.id) ==> RuleLeq(b, a) && (RuleLeq(c, b) ==> RuleLeq(c, a))
  {
    StrLeqIsLinear();
  }

  lemma AppendSorted(s: seq<AlarmRule>, x: AlarmRule)
    requires Sorted(RuleLeq, s) && forall i :: 0 <= i < |s| ==> RuleLeq(s[i], x)
    ensures Sorted(RuleLeq, s + [x])
  {
  }

  lemma {:induction false} InsertRuleSorts(s: seq<AlarmRule>, x: AlarmRule)
    requires Sorted(RuleLeq, s)
    ensures Sorted(RuleLeq, InsertRule(s, x))
  {
    if s == [] {
    } else {
      var n := |s| - 1;
      if StrLess(x.id, s[n].id) {
        var t := InsertRule(s[..n], x);
        InsertRuleSorts(s[..n], x);
        InsertRulePermutes(s[..n], x);
        NotLess(x, s[n], x);
        forall i | 0 <= i < |t| ensures RuleLeq(t[i], s[n]) {
          assert t[i] in multiset(t);
          assert t[i] == x || t[i] in s[..n];
        }
        AppendSorted(t, s[n]);
      } else {
        forall i | 0 <= i < |s| ensures RuleLeq(s[i], x) { NotLess(x, s[n], s[i]); }
        AppendSorted(s, x);
      }
    }
  }

  lemma {:induction false} SortedRulesAreSorted(s: seq<AlarmRule>)
    ensures Sorted(RuleLeq, SortedRules(s))
  {
    if s == [] {
    } else {
      SortedRulesAreSorted(s[..|s| - 1]);
      InsertRuleSorts(SortedRules(s[..|s| - 1]), s[|s| - 1]);
    }
  }

  ghost predicate DistinctIds(rules: seq<AlarmRule>)
  {
    forall i, j :: 0 <= i < j < |rules| ==> rules[i].id != rules[j].id
  }

  /** The order in which rules with distinct ids are given does not matter. */
  lemma {:induction false} RuleOrderIsIrrelevant(a: seq<AlarmRule>, b: seq<AlarmRule>)
    requires multiset(a) == multiset(b) && DistinctIds(a)
    ensures SortedRules(a) == SortedRules(b)
  {
    SortedRulesPermute(a);
    SortedRulesPermute(b);
    SortedRulesAreSorted(a);
    SortedRulesAreSorted(b);
    StrLeqIsLinear();
    forall x, y | x in SortedRules(a) && y in SortedRules(a) && RuleLeq(x, y) && RuleLeq(y, x) ensures x == y {
      SameMembers(SortedRules(a), a);
      assert x in a && y in a;
    }
    SortedUnique(RuleLeq, SortedRules(a), SortedRules(b));
  }

  /** The array while `x` moves left: `j` sorted rules, `x`, the other sorted rules, and the part not reached yet. */
  function Moving(sorted: seq<AlarmRule>, x: AlarmRule, j: nat, rest: seq<AlarmRule>): (r: seq<AlarmRule>)
    requires j <= |sorted|
    ensures |r| == |sorted| + 1 + |rest| && r[j] == x
    ensures j > 0 ==> r[j - 1] == sorted[j - 1]
  {
    sorted[..j] + [x] + sorted[j..] + rest
  }

  lemma MovesLeft(sorted: seq<AlarmRule>, x: AlarmRule, j: nat, rest: seq<AlarmRule>)
    requires 0 < j <= |sorted|
    ensures Moving(sorted, x, j, rest)[j - 1 := x][j := sorted[j - 1]] == Moving(sorted, x, j - 1, rest)
  {
  }

  /** Once `x` is in place the array starts with the insertion's result. */
  lemma {:induction false} InsertedWhere(sorted: seq<AlarmRule>, x: AlarmRule, j: nat)
    requires j <= |sorted| && (j == 0 || !StrLess(x.id, sorted[j - 1].id))
    requires forall k :: j <= k < |sorted| ==> StrLess(x.id, sorted[k].id)
    ensures InsertRule(sorted, x) == sorted[..j] + [x] + sorted[j..]
  {
    if j < |sorted| {
      var n := |sorted| - 1;
      InsertedWhere(sorted[..n], x, j);
      assert sorted[j..] == sorted[..n][j..] + [sorted[n]] && sorted[..n][..j] == sorted[..j];
    } else {
      assert sorted[..j] == sorted && sorted[j..] == [];
    }
  }

  lemma NextUnsorted(was: seq<AlarmRule>, i: nat)
    requires i < |was|
    ensures SortedRules(was[..i + 1]) == InsertRule(SortedRules(was[..i]), was[i])
            && was[i..] == [was[i]] + was[i + 1..]
  {
    assert was[..i + 1][..i] == was[..i];
  }

  method SortRules(rs: array<AlarmRule>)
    modifies rs
    ensures rs[..] == SortedRules(old(rs[..]))
  {
    ghost var was := rs[..];
    if rs.Length == 0 { return; }
    assert was[..1] == [was[0]] && was[..1][..0] == [] && SortedRules(was[..1]) == [was[0]];
    for i := 1 to rs.Length
      invariant rs[..] == SortedRules(was[..i]) + was[i..]
    {
      NextUnsorted(was, i);
      InsertAt(rs, i, SortedRules(was[..i]), was[i], was[i + 1..]);
    }
    TakeAll(was);
    assert SortedRules(was) + [] == SortedRules(was);
  }

  /** Moves the rule at `i` left to its place among the sorted rules before it. */
  method InsertAt(rs: array<AlarmRule>, i: nat, ghost sorted: seq<AlarmRule>, ghost x: AlarmRule,
                  ghost rest: seq<AlarmRule>)
    requires i == |sorted| && rs[..] == sorted + ([x] + rest)
    modifies rs
    ensures rs[..] == InsertRule(sorted, x) + rest
  {
    assert sorted + ([x] + rest) == Moving(sorted, x, i, rest);
    var j := i;
    while j > 0 && StrLess(rs[j].id, rs[j - 1].id)
      invariant 0 <= j <= i && rs[..] == Moving(sorted, x, j, rest)
      invariant forall k :: j <= k < |sorted| ==> StrLess(x.id, sorted[k].id)
    {
      MovesLeft(sorted, x, j, rest);
      ghost var before := rs[..];
      assert before[j] == rs[j] && before[j - 1] == rs[j - 1];
      rs[j - 1], rs[j] := rs[j], rs[j - 1];
      assert rs[..] == before[j - 1 := x][j := sorted[j - 1]];
      j := j - 1;
    }
    ghost var now := rs[..];
    assert now[j] == rs[j] && (j > 0 ==> now[j - 1] == rs[j - 1]);
    InsertedWhere(sorted, x, j);
  }

  // ---------- processing ----------

  predicate Applies(r: AlarmRule, s: Sample)
  {
    r.enabled && r.metric == s.metric && (r.host == "" || r.host == s.host)
  }

  /** The evaluations of one sample, rule by rule. */
  function SampleEvaluations(s: Sample, rules: seq<AlarmRule>, now: int, cfg: Settings): seq<Evaluation>
  {
    if rules == [] then []
    else
      var r := rules[|rules| - 1];
      SampleEvaluations(s, rules[..|rules| - 1], now, cfg)
        + (if Applies(r, s) then [Evaluation(r, s, now, cfg)] else [])
  }

  function Evaluations(samples: seq<Sample>, rules: seq<AlarmRule>, now: int, cfg: Settings): seq<Evaluation>
  {
    if samples == [] then []
    else
      Evaluations(samples[..|samples| - 1], rules, now, cfg)
        + SampleEvaluations(samples[|samples| - 1], rules, now, cfg)
  }

  /** What it takes for an evaluation to be made: an enabled rule for the sample's metric, and for its host or any. */
  predicate Due(e: Evaluation)
  {
    e.r.enabled && e.r.metric == e.s.metric && e.r.host in {"", e.s.host}
  }

  lemma {:induction false} SampleCounts(s: Sample, rules: seq<AlarmRule>, now: int, cfg: Settings, e: Evaluation)
    ensures multiset(SampleEvaluations(s, rules, now, cfg))[e]
         == if e == Evaluation(e.r, s, now, cfg) && Due(e) then multiset(rules)[e.r] else 0
  {
    if rules == [] {
    } else {
      var n := |rules| - 1;
      var made := if Applies(rules[n], s) then [Evaluation(rules[n], s, now, cfg)] else [];
      SampleCounts(s, rules[..n], now, cfg, e);
      CountLast(rules, e.r);
      CountSum(SampleEvaluations(s, rules[..n], now, cfg), made, e);
      CountOne(Evaluation(rules[n], s, now, cfg), e);
    }
  }

  lemma {:induction false} PairCounts(samples: seq<Sample>, rules: seq<AlarmRule>, now: int, cfg: Settings,
                                      e: Evaluation)
    requires e == Evaluation(e.r, e.s, now, cfg) && Due(e)
    ensures multiset(Evaluations(samples, rules, now, cfg))[e] == multiset(samples)[e.s] * multiset(rules)[e.r]
  {
    if samples == [] {
    } else {
      var n := |samples| - 1;
      PairCounts(samples[..n], rules, now, cfg, e);
      SampleCounts(samples[n], rules, now, cfg, e);
      CountLast(samples, e.s);
      CountSum(Evaluations(samples[..n], rules, now, cfg), SampleEvaluations(samples[n], rules, now, cfg), e);
      OneMoreTime(multiset(samples[..n])[e.s], multiset(rules)[e.r]);
    }
  }

  lemma {:induction false} OnlyDue(samples: seq<Sample>, rules: seq<AlarmRule>, now: int, cfg: Settings, e: Evaluation)
    requires !(e == Evaluation(e.r, e.s, now, cfg) && Due(e))
    ensures e !in Evaluations(samples, rules, now, cfg)
  {
    if samples == [] {
    } else {
      OnlyDue(samples[..|samples| - 1], rules, now, cfg, e);
      SampleCounts(samples[|samples| - 1], rules, now, cfg, e);
      Counted(SampleEvaluations(samples[|samples| - 1], rules, now, cfg), e);
    }
  }

  /** Which rules meet which samples: a rule is evaluated on a sample, at the batch's time and settings, exactly when it
      is enabled, names the sample's metric, and names the sample's host or none; and each such pair as often as it
      occurs. */
  lemma {:induction false} EvaluationsAreMatches(samples: seq<Sample>, rules: seq<AlarmRule>, now: int, cfg: Settings,
                                                 e: Evaluation)
    ensures e in Evaluations(samples, rules, now, cfg)
       <==> && e.s in samples && e.r in rules && e.now == now && e.cfg == cfg
            && e.r.enabled && e.r.metric == e.s.metric && (e.r.host == "" || e.r.host == e.s.host)
    ensures e in Evaluations(samples, rules, now, cfg) ==>
              multiset(Evaluations(samples, rules, now, cfg))[e] == multiset(samples)[e.s] * multiset(rules)[e.r]
  {
    if e == Evaluation(e.r, e.s, now, cfg) && Due(e) {
      PairCounts(samples, rules, now, cfg, e);
      OneMoreTime(multiset(samples)[e.s], multiset(rules)[e.r]);
      Counted(samples, e.s);
      Counted(rules, e.r);
      Counted(Evaluations(samples, rules, now, cfg), e);
    } else {
      OnlyDue(samples, rules, now, cfg, e);
    }
  }

  /** These are the evaluations of a batch: of every sample with every enabled rule for its metric and its host. */
  ghost predicate IsBatch(es: seq<Evaluation>, samples: seq<Sample>, rules: seq<AlarmRule>, now: int, cfg: Settings)
  {
    forall e :: e in es <==>
      && e.s in samples && e.r in rules && e.now == now && e.cfg == cfg
      && e.r.enabled && e.r.metric == e.s.metric && (e.r.host == "" || e.r.host == e.s.host)
  }

  lemma {:induction false} BatchOf(samples: seq<Sample>, rules: seq<AlarmRule>, now: int, cfg: Settings)
    ensures IsBatch(Evaluations(samples, SortedRules(rules), now, cfg), samples, rules, now, cfg)
  {
    SortedRulesPermute(rules);
    SameMembers(SortedRules(rules), rules);
    forall e { EvaluationsAreMatches(samples, SortedRules(rules), now, cfg, e); }
  }

  lemma OneMoreTime(a: nat, b: nat)
    ensures (a + 1) * b == a * b + b && (a * b > 0 <==> a > 0 && b > 0)
  {
  }

  /** Samples are evaluated one after the other, in the order of the batch. */
  lemma {:induction false} SamplesInOrder(a: seq<Sample>, b: seq<Sample>, rules: seq<AlarmRule>, now: int,
                                          cfg: Settings)
    ensures Evaluations(a + b, rules, now, cfg) == Evaluations(a, rules, now, cfg) + Evaluations(b, rules, now, cfg)
  {
    if b == [] {
      assert a + b == a;
    } else {
      var n := |b| - 1;
      SamplesInOrder(a, b[..n], rules, now, cfg);
      assert (a + b)[..|a + b| - 1] == a + b[..n];
    }
  }

  lemma LastOfSum(a: seq<Evaluation>, b: seq<Evaluation>)
    requires b != []
    ensures (a + b)[..|a + b| - 1] == a + b[..|b| - 1] && (a + b)[|a + b| - 1] == b[|b| - 1]
  {
  }

  lemma {:induction false} TableSplit(t: Table, a: seq<Evaluation>, b: seq<Evaluation>)
    ensures TableAfter(t, a + b) == TableAfter(TableAfter(t, a), b)
  {
    if b == [] {
      assert a + b == a;
    } else {
      TableSplit(t, a, b[..|b| - 1]);
      LastOfSum(a, b);
    }
  }

  lemma {:induction false} EventsSplit(t: Table, a: seq<Evaluation>, b: seq<Evaluation>)
    ensures EventsAfter(t, a + b) == EventsAfter(t, a) + EventsAfter(TableAfter(t, a), b)
  {
    if b == [] {
      assert a + b == a;
    } else {
      var n := |b| - 1;
      EventsSplit(t, a, b[..n]);
      TableSplit(t, a, b[..n]);
      LastOfSum(a, b);
      var last := EventsFor(b[n], VerdictOf(TableAfter(TableAfter(t, a), b[..n]), b[n]));
      Regroup(EventsAfter(t, a), EventsAfter(TableAfter(t, a), b[..n]), last);
    }
  }

  lemma Regroup<T>(a: seq<T>, b: seq<T>, c: seq<T>)
    ensures (a + b) + c == a + (b + c)
  {
  }

  // ---------- parents and children ----------

  /** The evaluations of one sample are in the order of the rules. */
  ghost predicate InRuleOrder(es: seq<Evaluation>)
  {
    forall i, j :: 0 <= i < j < |es| ==> StrLess(es[i].r.id, es[j].r.id)
  }

  lemma {:induction false} SampleOrder(s: Sample, rules: seq<AlarmRule>, now: int, cfg: Settings)
    requires Sorted(RuleLeq, rules) && DistinctIds(rules)
    ensures InRuleOrder(SampleEvaluations(s, rules, now, cfg))
    ensures forall e :: e in SampleEvaluations(s, rules, now, cfg) ==> e.s == s && e.r in rules
  {
    if rules == [] {
    } else {
      var n := |rules| - 1;
      SampleOrder(s, rules[..n], now, cfg);
      forall r | r in rules[..n] ensures StrLess(r.id, rules[n].id) {
        var i :| 0 <= i < n && rules[i] == r;
        assert RuleLeq(rules[i], rules[n]);
      }
    }
  }

  /** Evaluations of other keys leave a key alone. */
  lemma {:induction false} OthersLeaveAlone(t: Table, es: seq<Evaluation>, k: string)
    requires forall i :: 0 <= i < |es| ==> KeyAt(es[i]) != k
    ensures FiringKey(TableAfter(t, es), k) == FiringKey(t, k)
  {
    if es == [] {
    } else {
      OthersLeaveAlone(t, es[..|es| - 1], k);
    }
  }

  lemma {:induction false} LeftAloneSince(t: Table, es: seq<Evaluation>, n: nat, k: string)
    requires n <= |es| && forall i :: n <= i < |es| ==> KeyAt(es[i]) != k
    ensures FiringKey(TableAfter(t, es), k) == FiringKey(TableAfter(t, es[..n]), k)
  {
    assert es == es[..n] + es[n..];
    TableSplit(t, es[..n], es[n..]);
    OthersLeaveAlone(TableAfter(t, es[..n]), es[n..], k);
  }

  lemma KeysTellIds(a: string, b: string, s: Sample)
    requires KeyFor(a, s) == KeyFor(b, s)
    ensures a == b
  {
    var tail := "@" + s.host + (if s.object_ != "" then "/" + s.object_ else "");
    assert KeyFor(a, s) == a + tail && KeyFor(b, s) == b + tail;
    assert (a + tail)[..|a + tail| - |tail|] == a && (b + tail)[..|b + tail| - |tail|] == b;
  }

  function ObjectPart(s: Sample): string { if s.object_ != "" then "/" + s.object_ else "" }

  /** A key tells the rule, the host and the object apart, as long as rule ids contain no `@` and hosts no `/`. */
  lemma KeysTellApart(a: string, b: string, s: Sample, u: Sample)
    requires '@' !in a && '@' !in b && '/' !in s.host && '/' !in u.host
    ensures KeyFor(a, s) == KeyFor(b, u) <==> a == b && s.host == u.host && s.object_ == u.object_
  {
    if KeyFor(a, s) == KeyFor(b, u) {
      assert KeyFor(a, s) == a + (['@'] + (s.host + ObjectPart(s)));
      assert KeyFor(b, u) == b + (['@'] + (u.host + ObjectPart(u)));
      EndsAtMark('@', a, b, s.host + ObjectPart(s), u.host + ObjectPart(u));
      HostAndObject(s, u);
    }
  }

  lemma HostAndObject(s: Sample, u: Sample)
    requires '/' !in s.host && '/' !in u.host && s.host + ObjectPart(s) == u.host + ObjectPart(u)
    ensures s.host == u.host && s.object_ == u.object_
  {
    SlashShows(s);
    SlashShows(u);
    if s.object_ != "" { EndsAtMark('/', s.host, u.host, s.object_, u.object_); }
  }

  lemma SlashShows(s: Sample)
    requires '/' !in s.host
    ensures '/' in s.host + ObjectPart(s) <==> s.object_ != ""
    ensures s.object_ == "" ==> s.host + ObjectPart(s) == s.host
  {
    if s.object_ != "" { assert (s.host + ObjectPart(s))[|s.host|] == '/'; }
  }

  lemma {:induction false} LaterKeysDiffer(es: seq<Evaluation>, s: Sample, n: nat, i: nat, parent: string)
    requires n <= i < |es| && InRuleOrder(es) && es[i].s == s && es[i].r.activeKey == ""
    requires StrLess(parent, es[n].r.id)
    ensures KeyAt(es[i]) != KeyFor(parent, s)
  {
    if i > n { StrLessTrans(parent, es[n].r.id, es[i].r.id); }
    StrLessAsym(parent, es[i].r.id);
    if KeyAt(es[i]) == KeyFor(parent, s) { KeysTellIds(es[i].r.id, parent, s); }
  }

  /** When a rule's parent comes before it in the order of ids, the two never start on the same sample: if the rule
      starts, its parent does not fire once the whole sample has been evaluated. */
  lemma {:induction false} NoChildStartsUnderFiringParent(t: Table, s: Sample, rules: seq<AlarmRule>, now: int,
                                                          cfg: Settings, n: nat)
    requires Sorted(RuleLeq, rules) && DistinctIds(rules) && forall r :: r in rules ==> r.activeKey == ""
    requires n < |SampleEvaluations(s, rules, now, cfg)|
    ensures var es := SampleEvaluations(s, rules, now, cfg);
            var child := es[n].r;
            child.parent != "" && StrLess(child.parent, child.id) && VerdictOf(TableAfter(t, es[..n]), es[n]) == Starts
            ==> !FiringKey(TableAfter(t, es), KeyFor(child.parent, s))
  {
    var es := SampleEvaluations(s, rules, now, cfg);
    var child := es[n].r;
    SampleOrder(s, rules, now, cfg);
    if child.parent != "" && StrLess(child.parent, child.id) {
      StartsAlone(TableAfter(t, es[..n]), es[n]);
      NoneIsTheParent(es, s, n, child.parent);
      LeftAloneSince(t, es, n, KeyFor(child.parent, s));
    }
  }

  lemma StartsAlone(t: Table, e: Evaluation)
    ensures VerdictOf(t, e) == Starts ==> !ParentFiring(t, e)
  {
  }

  lemma {:induction false} NoneIsTheParent(es: seq<Evaluation>, s: Sample, n: nat, parent: string)
    requires n < |es| && InRuleOrder(es) && forall e :: e in es ==> e.s == s && e.r.activeKey == ""
    requires StrLess(parent, es[n].r.id)
    ensures forall i :: n <= i < |es| ==> KeyAt(es[i]) != KeyFor(parent, s)
  {
    forall i | n <= i < |es| ensures KeyAt(es[i]) != KeyFor(parent, s) {
      assert es[i] in es;
      LaterKeysDiffer(es, s, n, i, parent);
    }
  }

  /** At a sample a rule starts although its parent fires once the sample has been evaluated. */
  ghost predicate BothFire(parent: string, child: string, t: Table, s: Sample, rules: seq<AlarmRule>, now: int,
                           cfg: Settings, n: nat)
  {
    var es := SampleEvaluations(s, rules, now, cfg);
    && Sorted(RuleLeq, rules) && DistinctIds(rules) && (forall r :: r in rules ==> r.activeKey == "")
    && n < |es| && es[n].r.id == child && es[n].r.parent == parent
    && VerdictOf(TableAfter(t, es[..n]), es[n]) == Starts && FiringKey(TableAfter(t, es), KeyFor(parent, s))
  }

  ghost predicate ParentSilencesChild(parent: string, child: string)
  {
    forall t, s, rules, now, cfg, n: nat :: !BothFire(parent, child, t, s, rules, now, cfg, n)
  }

  function AboveZero(id: string, parent: string): AlarmRule
  {
    AlarmRule(id, "m", Greater, 0.0, 0, "", "", parent, "", true)
  }

  /** A parent silences its child on every sample, in every state and among all rules, exactly when its id comes
      first. */
  lemma {:induction false} ParentSilencesWhenFirst(parent: string, child: string)
    requires parent != "" && parent != child
    ensures ParentSilencesChild(parent, child) <==> StrLess(parent, child)
  {
    if StrLess(parent, child) {
      forall t, s, rules, now, cfg, n: nat ensures !BothFire(parent, child, t, s, rules, now, cfg, n) {
        if BothFire(parent, child, t, s, rules, now, cfg, n) {
          NoChildStartsUnderFiringParent(t, s, rules, now, cfg, n);
        }
      }
    } else {
      StrLessTotal(parent, child);
      ChildFirst(parent, child);
    }
  }

  /** A child that comes first starts, and then so does its parent. */
  lemma {:induction false} ChildFirst(parent: string, child: string)
    requires parent != "" && StrLess(child, parent)
    ensures !ParentSilencesChild(parent, child)
  {
    StrLessAsym(child, parent);
    var rules := [AboveZero(child, parent), AboveZero(parent, "")];
    var s, cfg := Sample("m", 1.0, "", ""), Settings(1, 0, []);
    var es := [Evaluation(rules[0], s, 0, cfg), Evaluation(rules[1], s, 0, cfg)];
    assert SampleEvaluations(s, rules, 0, cfg) == es by {
      NextRule(s, rules, 0, 0, cfg);
      NextRule(s, rules, 1, 0, cfg);
      TakeAll(rules);
    }
    BothStart(es);
    assert BothFire(parent, child, map[], s, rules, 0, cfg, 0);
  }

  lemma {:induction false} BothStart(es: seq<Evaluation>)
    requires |es| == 2 && es[0].r.id != es[1].r.id
    requires forall i :: 0 <= i < 2 ==> Breaches(es[i]) && es[i].r.forDuration == 0
    requires es[0].r.activeKey == es[1].r.activeKey == "" && es[0].s == es[1].s
    requires es[1].r.parent == "" && es[0].r.parent == es[1].r.id
    ensures VerdictIn(es, 0) == Starts && FiringKey(TableAfter(map[], es), KeyFor(es[0].r.parent, es[0].s))
  {
    if KeyAt(es[0]) == KeyAt(es[1]) { KeysTellIds(es[0].r.id, es[1].r.id, es[0].s); }
    assert es[..0] == [] && es[..1] == [es[0]] && es == [es[0]] + [es[1]];
    OneMore(map[], [], es[0]);
    OneMore(map[], [es[0]], es[1]);
  }

  /** Evaluating more from the state a run has reached is evaluating the longer run. */
  lemma {:induction false} Recorded(t: Table, h: seq<Evaluation>, es: seq<Evaluation>)
    requires t == TableAfter(map[], h)
    ensures TableAfter(map[], h + es) == TableAfter(t, es)
    ensures EventsAfter(map[], h + es) == EventsAfter(map[], h) + EventsAfter(t, es)
  {
    TableSplit(map[], h, es);
    EventsSplit(map[], h, es);
  }

  class AlarmEngine {
    var states: Table
    var maint: seq<Window>
    var recoverN: nat
    var suppressWindow: int
    ghost var history: seq<Evaluation>  // every evaluation made so far

    /** The states are those of the run so far. */
    ghost predicate Valid()
      reads `states, `history
    {
      states == TableAfter(map[], history)
    }

    function Config(): Settings
      reads `recoverN, `suppressWindow, `maint
    {
      Settings(recoverN, suppressWindow, maint)
    }

    constructor ()
      ensures Valid() && states == map[] && history == []
      ensures maint == [] && recoverN == 3 && suppressWindow == 300_000_000_000
    {
      states, maint, recoverN, suppressWindow, history := map[], [], 3, 300_000_000_000, [];
    }

    method SetRecoveryThreshold(n: int)
      modifies `recoverN
      ensures recoverN == (if n < 1 then 1 else n) && recoverN >= 1
    {
      recoverN := if n < 1 then 1 else n;
    }

    method SetSuppressWindow(d: int)
      modifies `suppressWindow
      ensures suppressWindow == (if d < 0 then 0 else d)
    {
      suppressWindow := if d < 0 then 0 else d;
    }

    method SetMaintenance(windows: seq<Window>)
      modifies `maint
      ensures maint == windows
    {
      maint := windows;
    }

    method InMaintenanceNow(t: int, host: string) returns (covered: bool)
      ensures covered == InMaintenance(maint, t, host)
      ensures covered <==> exists i :: 0 <= i < |maint| && maint[i].start <= t < maint[i].end
                            && (maint[i].host == "" || maint[i].host == host)
    {
      for i := 0 to |maint|
        invariant forall j :: 0 <= j < i ==> !Covers(maint[j], t, host)
      {
        if !(t < maint[i].start || t >= maint[i].end) && !(maint[i].host != "" && maint[i].host != host) {
          return true;
        }
      }
      return false;
    }

    method FiringEvent(e: Evaluation) returns (ev: AlarmEvent)
      requires e.cfg.maint == maint
      ensures ev == FiringFor(e)
    {
      var state, msg := Firing, "指标越限";
      var muted := InMaintenanceNow(e.now, e.s.host);
      if muted { state, msg := Muted, "维护窗口内，仅记录"; }
      ev := EventFor(e, state, msg);
    }

    method ComputeKey(r: AlarmRule, s: Sample) returns (activeKey: string)
      ensures activeKey == ActiveKey(r, s)
    {
      activeKey := r.activeKey;
      if activeKey == "" {
        activeKey := r.id + "@" + s.host;
        assert activeKey + "" == activeKey;
        if s.object_ != "" { activeKey := activeKey + ("/" + s.object_); }
      }
    }

    /** Whether the parent rule fires for the same host and object. */
    method ParentFires(r: AlarmRule, s: Sample) returns (fires: bool)
      ensures fires == (r.parent != "" && FiringKey(states, KeyFor(r.parent, s)))
    {
      fires := false;
      if r.parent != "" {
        var pk := r.parent + "@" + s.host;
        assert pk + "" == pk;
        if s.object_ != "" { pk := pk + ("/" + s.object_); }
        if pk in states && states[pk].core.firing { fires := true; }
      }
    }

    /** Evaluates one rule on one sample. */
    method EvalRule(r: AlarmRule, s: Sample, now: int) returns (events: seq<AlarmEvent>)
      modifies `states
      ensures var e := Evaluation(r, s, now, Config());
              states == Evaluated(old(states), e) && events == EventsFor(e, VerdictOf(old(states), e))
    {
      var e := Evaluation(r, s, now, Config());
      var level := r.level;
      if level == "" { level := "warning"; }
      var activeKey := ComputeKey(r, s);
      if activeKey !in states { states := states[activeKey := AlarmState(r.id, level, FRESH)]; }
      var st := states[activeKey];
      var parentFiring := ParentFires(r, s);
      assert st == StateFor(old(states), e) && parentFiring == ParentFiring(old(states), e);
      var core, verdict := Update(st.core, ObsFor(old(states), e), r, now, parentFiring, s.value);
      states := states[activeKey := st.(core := core)];
      events := Report(e, verdict);
    }

    /** The state change of one evaluation. */
    method Update(was: Core, ghost o: Obs, r: AlarmRule, now: int, parentFiring: bool, value: real)
        returns (c: Core, verdict: Verdict)
      requires o == Obs(Match(r.comparator, value, r.threshold), parentFiring, now, r.forDuration, recoverN,
               suppressWindow)
      ensures (c, verdict) == Judge(was, o)
    {
      c := was;
      if Match(r.comparator, value, r.threshold) {
        if !c.firing {
          if c.breachStart.None? { c := c.(breachStart := Some(now)); }
          if r.forDuration > 0 && now - c.breachStart.value < r.forDuration { return c, Waits; }
          if parentFiring { return c, Inhibited; }
          c := c.(firing := true, lastFiredAt := now, below := 0, breachStart := None);
          return c, Starts;
        }
        if now - c.lastFiredAt < suppressWindow { return c, TooSoon; }
        c := c.(lastFiredAt := now);
        return c, Repeats;
      }
      c := c.(below := c.below + 1, breachStart := None);
      if c.firing && c.below >= recoverN {
        c := c.(firing := false, below := 0);
        return c, Recovers;
      }
      return c, Quiet;
    }

    /** The event of one evaluation, if it has one. */
    method Report(e: Evaluation, verdict: Verdict) returns (events: seq<AlarmEvent>)
      requires e.cfg.maint == maint
      ensures events == EventsFor(e, verdict)
    {
      match verdict
      case Quiet => events := [];
      case Waits => events := [];
      case Inhibited => events := [EventFor(e, Suppressed, "被父告警抑制")];
      case TooSoon => events := [EventFor(e, Suppressed, "抑制窗口内重复触发")];
      case Recovers => events := [EventFor(e, Recovered, "指标已恢复")];
      case Starts => var ev := FiringEvent(e); events := [ev];
      case Repeats => var ev := FiringEvent(e); events := [ev];
    }

    /** Evaluates a batch of samples against a rule list, in the order of rule ids. */
    method Process(samples: seq<Sample>, rules: seq<AlarmRule>, now: int) returns (events: seq<AlarmEvent>)
      requires Valid()
      modifies `states, `history
      ensures Valid()
      ensures var es := Evaluations(samples, SortedRules(rules), now, Config());
              && history == old(history) + es && states == TableAfter(old(states), es)
              && IsBatch(es, samples, rules, now, Config())
              && events == EventsAfter(old(states), es)
              && EventsAfter(map[], history) == EventsAfter(map[], old(history)) + events
    {
      var copied := new AlarmRule[|rules|](i requires 0 <= i < |rules| => rules[i]);
      assert copied[..] == rules;
      SortRules(copied);
      var rs := copied[..];
      events := [];
      for i := 0 to |samples|
        invariant states == TableAfter(old(states), Evaluations(samples[..i], rs, now, Config()))
        invariant events == EventsAfter(old(states), Evaluations(samples[..i], rs, now, Config()))
      {
        assert samples[..i + 1][..i] == samples[..i];
        ghost var done := Evaluations(samples[..i], rs, now, Config());
        ghost var next := SampleEvaluations(samples[i], rs, now, Config());
        TableSplit(old(states), done, next);
        EventsSplit(old(states), done, next);
        var more := ProcessSample(samples[i], rs, now);
        events := events + more;
      }
      TakeAll(samples);
      ghost var es := Evaluations(samples, rs, now, Config());
      BatchOf(samples, rules, now, Config());
      Recorded(old(states), old(history), es);
      history := old(history) + es;
    }

    method ProcessSample(s: Sample, rs: seq<AlarmRule>, now: int) returns (events: seq<AlarmEvent>)
      modifies `states
      ensures var es := SampleEvaluations(s, rs, now, Config());
              states == TableAfter(old(states), es) && events == EventsAfter(old(states), es)
    {
      events := [];
      for j := 0 to |rs|
        invariant states == TableAfter(old(states), SampleEvaluations(s, rs[..j], now, Config()))
        invariant events == EventsAfter(old(states), SampleEvaluations(s, rs[..j], now, Config()))
      {
        var r := rs[j];
        NextRule(s, rs, j, now, Config());
        if !r.enabled || r.metric != s.metric || (r.host != "" && r.host != s.host) { continue; }
        OneMore(old(states), SampleEvaluations(s, rs[..j], now, Config()), Evaluation(r, s, now, Config()));
        var more := EvalRule(r, s, now);
        events := events + more;
      }
      TakeAll(rs);
    }
  }

  lemma {:induction false} NextRule(s: Sample, rs: seq<AlarmRule>, j: nat, now: int, cfg: Settings)
    requires j < |rs|
    ensures var es := SampleEvaluations(s, rs[..j], now, cfg);
            SampleEvaluations(s, rs[..j + 1], now, cfg)
              == if Applies(rs[j], s) then es + [Evaluation(rs[j], s, now, cfg)] else es
  {
    assert rs[..j + 1][..j] == rs[..j];
  }

  lemma {:induction false} OneMore(t: Table, es: seq<Evaluation>, e: Evaluation)
    ensures TableAfter(t, es + [e]) == Evaluated(TableAfter(t, es), e)
    ensures EventsAfter(t, es + [e]) == EventsAfter(t, es) + EventsFor(e, VerdictOf(TableAfter(t, es), e))
  {
    assert (es + [e])[..|es|] == es;
  }
}
