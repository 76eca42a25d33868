/** Alert evaluation: the engine's events become rows of the alert table and notifications. */
module Alerting {
  import opened Ordering
  import opened AlertRules
  import E = AlarmEngines
  import T = AlertTable

  datatype Sample = Sample(metric: string, labels: map<string, string>, value: real)

  // ---------- samples ----------

  /** White space as the unicode package has it. */
  predicate IsSpace(c: char)
  {
    || '\t' <= c <= '\r' || c == ' ' || c == '\U{85}' || c == '\U{A0}' || c == '\U{1680}'
    || '\U{2000}' <= c <= '\U{200A}' || '\U{2028}' <= c <= '\U{2029}' || c == '\U{202F}' || c == '\U{205F}'
    || c == '\U{3000}'
  }

  function TrimLeft(s: string): string
  {
    if s != "" && IsSpace(s[0]) then TrimLeft(s[1..]) else s
  }

  function TrimSpace(s: string): string
    decreases |s|
  {
    if s != "" && IsSpace(s[|s| - 1]) then TrimSpace(s[..|s| - 1]) else TrimLeft(s)
  }

  const OBJECT_LABELS: seq<string> := ["device", "slot", "array", "chip", "rail"]

  /** The first of these labels that is not blank. */
  function FirstLabel(labels: map<string, string>, keys: seq<string>): string
  {
    if keys == [] then ""
    else if keys[0] in labels && TrimSpace(labels[keys[0]]) != "" then TrimSpace(labels[keys[0]])
    else FirstLabel(labels, keys[1..])
  }

  function ObjectOf(labels: map<string, string>): string { FirstLabel(labels, OBJECT_LABELS) }

  function EngineSamples(samples: seq<Sample>, host: string): seq<E.Sample>
  {
    seq(|samples|, i requires 0 <= i < |samples| => E.Sample(samples[i].metric, samples[i].value, host,
      ObjectOf(samples[i].labels)))
  }

  /** The last value a metric of an object has in the batch. */
  function LastValue(samples: seq<Sample>, metric: string, obj: string): real
  {
    if samples == [] then 0.0
    else
      var s := samples[|samples| - 1];
      if s.metric == metric && ObjectOf(s.labels) == obj then s.value
        else LastValue(samples[..|samples| - 1], metric, obj)
  }

  // ---------- from events to rows and notifications ----------

  datatype Kind = AlertFiring | AlertResolved
  datatype Dispatch = Dispatch(kind: Kind, key: string, severity: string, category: string, metric: string, at: int)

  /** How `%g` writes a number. */
  type Formatter = real -> string

  /** What the handling of a batch's events depends on. */
  datatype Context = Context(hostID: int, hostname: string, metas: map<string, Meta>, samples: seq<Sample>, at: int,
                             format: Formatter)

  /** The alert rows and the notifications sent so far. */
  datatype Book = Book(rows: T.Rows, sent: seq<Dispatch>)

  function Seconds(at: int): int { at / SECOND_NS }

  function SeverityOf(level: string): string { if level == "critical" then "critical" else "major" }

  function Symbol(op: string): string
  {
    if op == "gt" then ">" else if op == "lt" then "<" else if op == "eq" then "==" else if op == "ne" then "!=" else op
  }

  function OpText(op: string, threshold: real, format: Formatter): string { Symbol(op) + " " + format(threshold) }

  function TitleOf(meta: Meta, c: Context, value: real): string
  {
    meta.title + "：" + c.hostname + " " + meta.metric + " " + c.format(value)
    + "（阈值 " + OpText(meta.op, meta.threshold, c.format) + "）"
  }

  function ToAlert(ev: E.AlarmEvent, meta: Meta, c: Context, value: real): T.Alert
  {
    var obj := TrimSpace(ev.object_);
    T.Alert(Some(c.hostID), SeverityOf(ev.level), meta.category, Some(meta.metric),
      if obj != "" then Some(obj) else None,
            Some(value), Some(meta.threshold), TitleOf(meta, c, value),
            T.RuleDetail(ev.ruleID, meta.metric, meta.op, meta.threshold, obj, c.hostname, value, ev.message))
  }

  function Notice(kind: Kind, ev: E.AlarmEvent, meta: Meta, c: Context): Dispatch
  {
    Dispatch(kind, ev.activeKey, SeverityOf(ev.level), meta.category, meta.metric, c.at)
  }

  function Fires(rows: T.Rows, key: string): bool { T.FiringKeys(rows)[key] > 0 }

  function Handled(b: Book, ev: E.AlarmEvent, c: Context): Book
  {
    if ev.ruleID !in c.metas then b
    else
      var meta := c.metas[ev.ruleID];
      var value := LastValue(c.samples, meta.metric, ev.object_);
      var e, at := ToAlert(ev, meta, c, value), Seconds(c.at);
      match ev.state
      case Firing =>
        if Fires(b.rows, ev.activeKey) then Book(T.Refreshed(b.rows, ev.activeKey, e, at), b.sent)
        else Book(b.rows + [T.FiringRow(e, ev.activeKey, at)], b.sent + [Notice(AlertFiring, ev, meta, c)])
      case Recovered =>
        Book(T.Closed(b.rows, T.KeyHit(ev.activeKey), at),
             if Fires(b.rows, ev.activeKey) then b.sent + [Notice(AlertResolved, ev, meta, c)] else b.sent)
      case Suppressed => Book(T.Touched(b.rows, ev.activeKey, Some(value), at), b.sent)
      case Muted => Book(b.rows + [T.SilencedRow(e, at)], b.sent)
  }

  function HandledAll(b: Book, events: seq<E.AlarmEvent>, c: Context): Book
  {
    if events == [] then b else Handled(HandledAll(b, events[..|events| - 1], c), events[|events| - 1], c)
  }

  lemma {:induction false} HandledSplit(b: Book, x: seq<E.AlarmEvent>, y: seq<E.AlarmEvent>, c: Context)
    ensures HandledAll(b, x + y, c) == HandledAll(HandledAll(b, x, c), y, c)
  {
    if y == [] {
      assert x + y == x;
    } else {
      HandledSplit(b, x, y[..|y| - 1], c);
      assert (x + y)[..|x + y| - 1] == x + y[..|y| - 1];
    }
  }

  // ---------- the engine and the table agree ----------

  /** A key with a firing row fires in the engine. */
  ghost predicate RowsFollow(t: E.Table, rows: T.Rows)
  {
    forall k {:trigger Fires(rows, k)} :: Fires(rows, k) ==> E.FiringKey(t, k)
  }

  /** A key that fires in the engine has a firing row. */
  ghost predicate RowsCover(t: E.Table, rows: T.Rows)
  {
    forall k {:trigger E.FiringKey(t, k)} :: E.FiringKey(t, k) ==> Fires(rows, k)
  }

  /** The kinds of the notifications about a key, in order. */
  function Kinds(sent: seq<Dispatch>, k: string): seq<Kind>
  {
    if sent == [] then []
    else Kinds(sent[..|sent| - 1], k) + (if sent[|sent| - 1].key == k then [sent[|sent| - 1].kind] else [])
  }

  predicate Alternating(ks: seq<Kind>)
  {
    forall i :: 0 <= i < |ks| ==> (ks[i] == AlertFiring <==> i % 2 == 0)
  }

  /** Notifications about a key alternate, and the last one says whether the key has a firing row. */
  ghost predicate Told(b: Book)
  {
    forall k {:trigger Kinds(b.sent, k)} :: ToldOf(b, k)
  }

  predicate ToldOf(b: Book, k: string)
  {
    Alternating(Kinds(b.sent, k)) && (|Kinds(b.sent, k)| % 2 == 1 <==> Fires(b.rows, k))
  }

  lemma NothingTold()
    ensures Told(Book([], []))
  {
    forall k ensures ToldOf(Book([], []), k) {
      assert Kinds([], k) == [];
    }
  }

  lemma {:induction false} KindsNext(sent: seq<Dispatch>, d: Dispatch, k: string)
    ensures Kinds(sent + [d], k) == if d.key == k then Kinds(sent, k) + [d.kind] else Kinds(sent, k)
  {
    assert (sent + [d])[..|sent|] == sent;
    assert Kinds(sent, k) + [] == Kinds(sent, k);
  }

  /** What one event does to the firing keys. */
  lemma HandledKeys(b: Book, ev: E.AlarmEvent, c: Context, k: string)
    requires T.Sound(b.rows) && ev.ruleID in c.metas
    ensures var b1 := Handled(b, ev, c);
            && T.Sound(b1.rows)
            && (k != ev.activeKey ==> (Fires(b1.rows, k) <==> Fires(b.rows, k)))
            && (k == ev.activeKey ==> (Fires(b1.rows, k)
              <==> ev.state.Firing? || (!ev.state.Recovered? && Fires(b.rows, k))))
  {
    var key, at := ev.activeKey, Seconds(c.at);
    var meta := c.metas[ev.ruleID];
    var value := LastValue(c.samples, meta.metric, ev.object_);
    var e := ToAlert(ev, meta, c, value);
    match ev.state
    case Firing =>
      T.ClashIsFiring(b.rows, key);
      if Fires(b.rows, key) { T.RefreshKeeps(b.rows, key, e, at); } else { T.InsertKeeps(b.rows, e, key, at); }
    case Recovered =>
      T.CloseSound(b.rows, T.KeyHit(key), at);
      T.CloseSplits(b.rows, T.KeyHit(key), at);
      T.KeyHits(b.rows, key, k);
      ClosedFires(b.rows, key, at, k);
    case Suppressed => T.TouchKeeps(b.rows, key, Some(value), at);
    case Muted => T.SilencedKeeps(b.rows, e, at);
  }

  lemma ClosedFires(rows: T.Rows, key: string, at: int, k: string)
    ensures Fires(T.Closed(rows, T.KeyHit(key), at), k) <==> k != key && Fires(rows, k)
  {
    T.CloseSplits(rows, T.KeyHit(key), at);
    T.KeyHits(rows, key, k);
    assert T.FiringKeys(rows)[k] == (T.FiringKeys(T.Closed(rows, T.KeyHit(key), at))
      + T.HitKeys(rows, T.KeyHit(key)))[k];
  }

  /** What one event does to the notifications about a key: one when its row appears, one when its row closes. */
  lemma {:induction false} HandledSent(b: Book, ev: E.AlarmEvent, c: Context, k: string)
    requires ev.ruleID in c.metas
    ensures var b1 := Handled(b, ev, c);
            Kinds(b1.sent, k) == Kinds(b.sent, k)
              + (if k == ev.activeKey && ev.state.Firing? && !Fires(b.rows, k) then [AlertFiring]
                 else if k == ev.activeKey && ev.state.Recovered? && Fires(b.rows, k) then [AlertResolved]
                 else [])
  {
    var meta := c.metas[ev.ruleID];
    KindsNext(b.sent, Notice(AlertFiring, ev, meta, c), k);
    KindsNext(b.sent, Notice(AlertResolved, ev, meta, c), k);
    assert Kinds(b.sent, k) + [] == Kinds(b.sent, k);
  }

  lemma ToldNext(b: Book, ev: E.AlarmEvent, c: Context)
    requires T.Sound(b.rows) && Told(b) && ev.ruleID in c.metas
    ensures Told(Handled(b, ev, c)) && T.Sound(Handled(b, ev, c).rows)
  {
    var b1 := Handled(b, ev, c);
    HandledKeys(b, ev, c, "");
    forall k ensures ToldOf(b1, k) {
      assert |Kinds(b.sent, k)| >= 0;
      KeyToldNext(b, ev, c, k);
    }
  }

  lemma KeyToldNext(b: Book, ev: E.AlarmEvent, c: Context, k: string)
    requires T.Sound(b.rows) && ToldOf(b, k) && ev.ruleID in c.metas
    ensures ToldOf(Handled(b, ev, c), k)
  {
    HandledKeys(b, ev, c, k);
    HandledSent(b, ev, c, k);
    AlternatingNext(Kinds(b.sent, k), AlertFiring);
    AlternatingNext(Kinds(b.sent, k), AlertResolved);
    assert Kinds(b.sent, k) + [] == Kinds(b.sent, k);
  }

  lemma AlternatingNext(ks: seq<Kind>, kind: Kind)
    requires Alternating(ks)
    ensures (kind == AlertFiring <==> |ks| % 2 == 0) ==> Alternating(ks + [kind])
    ensures |ks + [kind]| % 2 == 1 <==> |ks| % 2 == 0
  {
  }

  // ---------- evaluations and their events ----------

  /** The book after the events of one evaluation: there is at most one. */
  function Entered(b: Book, t: E.Table, e: E.Evaluation, c: Context): Book
  {
    HandledAll(b, E.EventsFor(e, E.VerdictOf(t, e)), c)
  }

  lemma {:induction false} OneEvent(b: Book, ev: E.AlarmEvent, c: Context)
    ensures HandledAll(b, [ev], c) == Handled(b, ev, c)
  {
    assert [ev][..0] == [];
  }

  /** How an evaluation changes which keys fire in the engine. */
  lemma EngineChange(t: E.Table, e: E.Evaluation, k: string)
    ensures k != E.KeyAt(e) ==> (E.FiringKey(E.Evaluated(t, e), k) <==> E.FiringKey(t, k))
    ensures E.FiringKey(E.Evaluated(t, e), E.KeyAt(e))
       <==> E.VerdictOf(t, e).Starts? || (!E.VerdictOf(t, e).Recovers? && E.FiringKey(t, E.KeyAt(e)))
    ensures E.VerdictOf(t, e).Repeats? ==> E.FiringKey(t, E.KeyAt(e))
    ensures E.VerdictOf(t, e).Recovers? ==> E.FiringKey(t, E.KeyAt(e))
  {
  }

  /** The one event of an evaluation, if it has any. */
  lemma EventOf(e: E.Evaluation, v: E.Verdict)
    ensures v.Quiet? || v.Waits? ==> E.EventsFor(e, v) == []
    ensures !v.Quiet? && !v.Waits? ==>
              && |E.EventsFor(e, v)| == 1
              && var ev := E.EventsFor(e, v)[0];
                 && ev.activeKey == E.KeyAt(e) && ev.ruleID == e.r.id
                 && (ev.state.Firing? <==> (v.Starts? || v.Repeats?) && !E.InMaintenance(e.cfg.maint, e.now, e.s.host))
                 && (ev.state.Recovered? <==> v.Recovers?)
  {
  }

  /** How an evaluation changes which keys have a firing row. */
  lemma TableChange(b: Book, t: E.Table, e: E.Evaluation, c: Context, k: string)
    requires T.Sound(b.rows) && e.r.id in c.metas
    ensures var b1 := Entered(b, t, e, c);
            var v, muted := E.VerdictOf(t, e), E.InMaintenance(e.cfg.maint, e.now, e.s.host);
            && (k != E.KeyAt(e) ==> (Fires(b1.rows, k) <==> Fires(b.rows, k)))
            && (k == E.KeyAt(e) ==>
                  (Fires(b1.rows, k) <==> ((v.Starts? || v.Repeats?) && !muted) || (!v.Recovers? && Fires(b.rows, k))))
  {
    var v := E.VerdictOf(t, e);
    EventOf(e, v);
    if !v.Quiet? && !v.Waits? { EventChange(b, E.EventsFor(e, v), c, k); }
  }

  lemma {:induction false} EventChange(b: Book, events: seq<E.AlarmEvent>, c: Context, k: string)
    requires T.Sound(b.rows) && |events| == 1 && events[0].ruleID in c.metas
    ensures var b1, ev := HandledAll(b, events, c), events[0];
            && (k != ev.activeKey ==> (Fires(b1.rows, k) <==> Fires(b.rows, k)))
            && (k == ev.activeKey ==> (Fires(b1.rows, k)
              <==> ev.state.Firing? || (!ev.state.Recovered? && Fires(b.rows, k))))
  {
    assert events == [events[0]];
    OneEvent(b, events[0], c);
    HandledKeys(b, events[0], c, k);
  }

  lemma EnteredTold(b: Book, t: E.Table, e: E.Evaluation, c: Context)
    requires T.Sound(b.rows) && Told(b) && e.r.id in c.metas
    ensures T.Sound(Entered(b, t, e, c).rows) && Told(Entered(b, t, e, c))
  {
    var events := E.EventsFor(e, E.VerdictOf(t, e));
    if events != [] {
      assert events == [events[0]];
      OneEvent(b, events[0], c);
      ToldNext(b, events[0], c);
    }
  }

  /** A key with a firing row always fires in the engine. */
  lemma EnteredFollows(b: Book, t: E.Table, e: E.Evaluation, c: Context)
    requires T.Sound(b.rows) && e.r.id in c.metas && RowsFollow(t, b.rows)
    ensures RowsFollow(E.Evaluated(t, e), Entered(b, t, e, c).rows)
  {
    var b1 := Entered(b, t, e, c);
    forall k | Fires(b1.rows, k) ensures E.FiringKey(E.Evaluated(t, e), k) {
      EngineChange(t, e, k);
      TableChange(b, t, e, c, k);
    }
  }

  /** Firing starts inside a maintenance window: it is recorded as silenced, without a firing row. */
  predicate MutedStart(t: E.Table, e: E.Evaluation)
  {
    E.VerdictOf(t, e).Starts? && E.InMaintenance(e.cfg.maint, e.now, e.s.host)
  }

  /** Every key that fires in the engine keeps having a firing row, exactly unless firing starts inside a maintenance
      window. */
  lemma EnteredCovers(b: Book, t: E.Table, e: E.Evaluation, c: Context)
    requires T.Sound(b.rows) && e.r.id in c.metas && RowsFollow(t, b.rows) && RowsCover(t, b.rows)
    ensures RowsCover(E.Evaluated(t, e), Entered(b, t, e, c).rows) <==> !MutedStart(t, e)
  {
    var b1 := Entered(b, t, e, c);
    if MutedStart(t, e) {
      var k := E.KeyAt(e);
      EngineChange(t, e, k);
      TableChange(b, t, e, c, k);
      assert E.FiringKey(E.Evaluated(t, e), k) && !Fires(b1.rows, k);
    } else {
      forall k | E.FiringKey(E.Evaluated(t, e), k) ensures Fires(b1.rows, k) {
        EngineChange(t, e, k);
        TableChange(b, t, e, c, k);
      }
    }
  }

  ghost predicate KnownRules(es: seq<E.Evaluation>, metas: map<string, Meta>)
  {
    forall i :: 0 <= i < |es| ==> es[i].r.id in metas
  }

  /** No firing starts inside a maintenance window. */
  predicate NeverMuted(t: E.Table, es: seq<E.Evaluation>)
  {
    es == [] || (NeverMuted(t, es[..|es| - 1]) && !MutedStart(E.TableAfter(t, es[..|es| - 1]), es[|es| - 1]))
  }

  /** Over every batch: notifications alternate, rows follow the engine, and cover it when no maintenance window
      intervenes. */
  lemma {:induction false} BatchKeeps(b: Book, t: E.Table, es: seq<E.Evaluation>, c: Context)
    requires T.Sound(b.rows) && Told(b) && RowsFollow(t, b.rows) && KnownRules(es, c.metas)
    ensures var b1, t1 := HandledAll(b, E.EventsAfter(t, es), c), E.TableAfter(t, es);
            && T.Sound(b1.rows) && Told(b1) && RowsFollow(t1, b1.rows)
            && (RowsCover(t, b.rows) && NeverMuted(t, es) ==> RowsCover(t1, b1.rows))
  {
    if es == [] {
    } else {
      var n := |es| - 1;
      BatchKeeps(b, t, es[..n], c);
      var b0, t0 := HandledAll(b, E.EventsAfter(t, es[..n]), c), E.TableAfter(t, es[..n]);
      HandledSplit(b, E.EventsAfter(t, es[..n]), E.EventsFor(es[n], E.VerdictOf(t0, es[n])), c);
      EnteredTold(b0, t0, es[n], c);
      EnteredFollows(b0, t0, es[n], c);
      if RowsCover(t, b.rows) && NeverMuted(t, es) { EnteredCovers(b0, t0, es[n], c); }
    }
  }

  // ---------- the rules behind evaluations ----------

  lemma {:induction false} SampleRules(s: E.Sample, rules: seq<E.AlarmRule>, now: int, cfg: E.Settings)
    ensures forall e :: e in E.SampleEvaluations(s, rules, now, cfg)
             ==> e.r in rules && e.s == s && e.now == now && e.cfg == cfg
  {
    if rules == [] {
    } else {
      SampleRules(s, rules[..|rules| - 1], now, cfg);
      assert forall r :: r in rules[..|rules| - 1] ==> r in rules;
    }
  }

  lemma {:induction false} BatchRules(samples: seq<E.Sample>, rules: seq<E.AlarmRule>, now: int, cfg: E.Settings)
    ensures forall e :: e in E.Evaluations(samples, rules, now, cfg)
             ==> e.r in rules && e.s in samples && e.now == now && e.cfg == cfg
  {
    if samples == [] {
    } else {
      var n := |samples| - 1;
      BatchRules(samples[..n], rules, now, cfg);
      SampleRules(samples[n], rules, now, cfg);
      assert forall s :: s in samples[..n] ==> s in samples;
    }
  }

  // ---------- the service ----------

  /** The settings of an engine nobody has changed: recovery after three false samples, a suppress window of five
      minutes. */
  const BUILT := E.Settings(3, 300_000_000_000, [])

  lemma {:induction false} BuiltNeverMutes(t: E.Table, es: seq<E.Evaluation>)
    requires forall i :: 0 <= i < |es| ==> es[i].cfg == BUILT
    ensures NeverMuted(t, es)
  {
    if es == [] {
    } else {
      BuiltNeverMutes(t, es[..|es| - 1]);
    }
  }

  class AlertService {
    const eng: E.AlarmEngine
    const alerts: T.Alerts
    const format: Formatter
    var rules: RuleSet
    var sent: seq<Dispatch>
    ghost var sources: seq<Source>  // what the rules were assembled from

    ghost function Contents(): Book
      reads this, alerts
    {
      Book(alerts.rows, sent)
    }

    ghost predicate RulesOk()
      reads `rules, `sources
    {
      Assembled(rules, sources) && UniqueSources(sources) && MetasOk(rules.metas, sources)
    }

    /** The engine keeps the settings it was made with: nothing declares a maintenance window or changes a threshold. */
    ghost predicate AsBuilt()
      reads this, eng
    {
      eng.Config() == BUILT && forall i :: 0 <= i < |eng.history| ==> eng.history[i].cfg == BUILT
    }

    /** Engine, rows and notifications agree. */
    ghost predicate InStep()
      reads this, eng, alerts
    {
      && AsBuilt() && eng.Valid() && alerts.Valid() && Told(Contents())
      && RowsFollow(eng.states, alerts.rows) && RowsCover(eng.states, alerts.rows)
    }

    ghost predicate Valid()
      reads this, eng, alerts
    {
      RulesOk() && InStep()
    }

    constructor (format: Formatter)
      ensures Valid() && this.format == format && fresh(eng) && fresh(alerts) && Contents() == Book([], [])
              && eng.history == []
    {
      this.format := format;
      eng := new E.AlarmEngine();
      alerts := new T.Alerts();
      rules, sent, sources := RuleSet(map[], map[], map[]), [], [];
      NothingTold();
    }

    /** Replaces the rules; what fires keeps firing. */
    method ReloadRules(tpls: seq<Template>, ovs: seq<Override>)
      requires Valid() && UniqueTemplates(tpls) && UniqueOverrides(ovs)
      modifies `rules, `sources
      ensures Valid() && sources == Sources(tpls, ovs)
    {
      rules := BuildRuleSet(tpls, ovs);
      sources := Sources(tpls, ovs);
      SourcesAreUnique(tpls, ovs);
    }

    method Values(samples: seq<Sample>, hostname: string)
        returns (es: seq<E.Sample>, valueOf: map<(string, string), real>)
      ensures es == EngineSamples(samples, hostname)
      ensures forall m, o :: LastValue(samples, m, o) == if (m, o) in valueOf then valueOf[(m, o)] else 0.0
    {
      es, valueOf := [], map[];
      for i := 0 to |samples|
        invariant es == EngineSamples(samples[..i], hostname)
        invariant forall m, o :: LastValue(samples[..i], m, o) == if (m, o) in valueOf then valueOf[(m, o)] else 0.0
      {
        assert samples[..i + 1][..i] == samples[..i];
        var obj := ObjectOf(samples[i].labels);
        valueOf := valueOf[(samples[i].metric, obj) := samples[i].value];
        es := es + [E.Sample(samples[i].metric, samples[i].value, hostname, obj)];
      }
      TakeAll(samples);
    }

    /** Turns one engine event into a row change and, if it is news, a notification. */
    method HandleEvent(ev: E.AlarmEvent, c: Context, value: real)
      requires alerts.Valid() && (ev.ruleID in c.metas
               ==> value == LastValue(c.samples, c.metas[ev.ruleID].metric, ev.object_))
      modifies `sent, alerts
      ensures alerts.Valid() && Contents() == Handled(old(Contents()), ev, c)
    {
      if ev.ruleID !in c.metas { return; }
      var meta := c.metas[ev.ruleID];
      var e := ToAlert(ev, meta, c, value);
      match ev.state
      case Firing =>
        var created, id := alerts.UpsertFiring(e, ev.activeKey, Seconds(c.at));
        if created { sent := sent + [Notice(AlertFiring, ev, meta, c)]; }
      case Recovered =>
        var resolved := alerts.Resolve(ev.activeKey, Seconds(c.at));
        if resolved { sent := sent + [Notice(AlertResolved, ev, meta, c)]; }
      case Suppressed => alerts.Touch(ev.activeKey, Some(value), Seconds(c.at));
      case Muted => alerts.InsertSilenced(e, Seconds(c.at));
    }

    method HandleEvents(events: seq<E.AlarmEvent>, c: Context, valueOf: map<(string, string), real>)
      requires alerts.Valid()
      requires forall m, o :: LastValue(c.samples, m, o) == if (m, o) in valueOf then valueOf[(m, o)] else 0.0
      modifies `sent, alerts
      ensures alerts.Valid() && Contents() == HandledAll(old(Contents()), events, c)
    {
      for i := 0 to |events|
        invariant alerts.Valid() && Contents() == HandledAll(old(Contents()), events[..i], c)
      {
        assert events[..i + 1][..i] == events[..i];
        var ev := events[i];
        var metric := if ev.ruleID in c.metas then c.metas[ev.ruleID].metric else "";
        assert LastValue(c.samples, metric, ev.object_)
          == if (metric, ev.object_) in valueOf then valueOf[(metric, ev.object_)] else 0.0;
        HandleEvent(ev, c, if (metric, ev.object_) in valueOf then valueOf[(metric, ev.object_)] else 0.0);
      }
      TakeAll(events);
    }

    /** Evaluates a host's samples: rows and notifications follow the engine's events, and a key fires in the engine
        exactly when it has a firing row. */
    method Evaluate(hostID: int, hostname: string, samples: seq<Sample>, at: int) returns (ghost used: seq<E.AlarmRule>)
      requires Valid()
      modifies this, eng`states, eng`history, alerts
      ensures Valid() && rules == old(rules) && sources == old(sources)
      ensures E.DistinctIds(used) && forall r :: r in used <==> RuleFor(rules, hostname, r)
      ensures var es := E.Evaluations(EngineSamples(samples, hostname), E.SortedRules(used), at, eng.Config());
              var c := Context(hostID, hostname, rules.metas, samples, at, format);
              && eng.history == old(eng.history) + es && eng.states == E.TableAfter(old(eng.states), es)
              && Contents() == HandledAll(old(Contents()), E.EventsAfter(old(eng.states), es), c)
    {
      var found := RulesFor(rules, sources, hostname);
      used := found;
      RulesAreKnown(found, hostname, EngineSamples(samples, hostname), at);
      EvaluateRules(hostID, hostname, samples, at, found);
    }

    method EvaluateRules(hostID: int, hostname: string, samples: seq<Sample>, at: int, found: seq<E.AlarmRule>)
      requires InStep()
      requires KnownRules(E.Evaluations(EngineSamples(samples, hostname), E.SortedRules(found), at, eng.Config()),
               rules.metas)
      modifies `sent, eng`states, eng`history, alerts
      ensures InStep()
      ensures var es := E.Evaluations(EngineSamples(samples, hostname), E.SortedRules(found), at, eng.Config());
              var c := Context(hostID, hostname, rules.metas, samples, at, format);
              && eng.history == old(eng.history) + es && eng.states == E.TableAfter(old(eng.states), es)
              && Contents() == HandledAll(old(Contents()), E.EventsAfter(old(eng.states), es), c)
    {
      ghost var es := E.Evaluations(EngineSamples(samples, hostname), E.SortedRules(found), at, eng.Config());
      var c := Context(hostID, hostname, rules.metas, samples, at, format);
      EvaluationsAsBuilt(EngineSamples(samples, hostname), E.SortedRules(found), at);
      StaysInStep(es, c);
      var engineSamples, valueOf := Values(samples, hostname);
      var events := eng.Process(engineSamples, found, at);
      HandleEvents(events, c, valueOf);
    }

    lemma {:induction false} StaysInStep(es: seq<E.Evaluation>, c: Context)
      requires InStep() && KnownRules(es, c.metas) && NeverMuted(eng.states, es)
      ensures var b, t := HandledAll(Contents(), E.EventsAfter(eng.states, es), c), E.TableAfter(eng.states, es);
              T.Sound(b.rows) && Told(b) && RowsFollow(t, b.rows) && RowsCover(t, b.rows)
    {
      BatchKeeps(Contents(), eng.states, es, c);
    }

    lemma {:induction false} RulesAreKnown(found: seq<E.AlarmRule>, hostname: string, samples: seq<E.Sample>, at: int)
      requires RulesOk() && forall r :: r in found <==> RuleFor(rules, hostname, r)
      ensures KnownRules(E.Evaluations(samples, E.SortedRules(found), at, eng.Config()), rules.metas)
    {
      var es := E.Evaluations(samples, E.SortedRules(found), at, eng.Config());
      BatchRules(samples, E.SortedRules(found), at, eng.Config());
      E.SortedRulesPermute(found);
      SameMembers(E.SortedRules(found), found);
      forall i | 0 <= i < |es| ensures es[i].r.id in rules.metas {
        assert es[i] in es;
        RulesHaveMetas(rules, sources, hostname, es[i].r);
      }
    }

    lemma {:induction false} EvaluationsAsBuilt(samples: seq<E.Sample>, rs: seq<E.AlarmRule>, at: int)
      requires AsBuilt()
      ensures var es := E.Evaluations(samples, rs, at, eng.Config());
              && (forall i :: 0 <= i < |es| ==> es[i].cfg == BUILT) && NeverMuted(eng.states, es)
    {
      var es := E.Evaluations(samples, rs, at, eng.Config());
      BatchRules(samples, rs, at, eng.Config());
      forall i | 0 <= i < |es| ensures es[i].cfg == BUILT { assert es[i] in es; }
      BuiltNeverMutes(eng.states, es);
    }

    /** Between evaluations a key fires in the engine exactly when it has a firing row; its notifications alternate, and
        the last one says which. */
    lemma {:induction false} EngineAndTableAgree(k: string)
      requires Valid()
      ensures E.FiringKey(eng.states, k) <==> T.FiringKeys(alerts.rows)[k] > 0
      ensures |Kinds(sent, k)| % 2 == 1 <==> T.FiringKeys(alerts.rows)[k] > 0
      ensures forall i :: 0 <= i < |Kinds(sent, k)| ==> (Kinds(sent, k)[i] == AlertFiring <==> i % 2 == 0)
    {
      assert Kinds(Contents().sent, k) == Kinds(sent, k);
      assert ToldOf(Contents(), k);
      assert E.FiringKey(eng.states, k) || !E.FiringKey(eng.states, k);
    }

    /** Whatever happened before, no sample starts a warning whose critical alarm fires once the sample has been
        evaluated. */
    lemma {:induction false} CriticalSilencesWarning(used: seq<E.AlarmRule>, hostname: string, t: E.Table, s: E.Sample,
                                                     at: int, n: nat)
      requires RulesOk() && E.DistinctIds(used) && forall r :: r in used <==> RuleFor(rules, hostname, r)
      requires n < |E.SampleEvaluations(s, E.SortedRules(used), at, eng.Config())|
      ensures var es := E.SampleEvaluations(s, E.SortedRules(used), at, eng.Config());
              var r := es[n].r;
              r.parent != "" && E.VerdictOf(E.TableAfter(t, es[..n]), es[n]) == E.Starts
              ==> !E.FiringKey(E.TableAfter(t, es), E.KeyFor(r.parent, s))
    {
      var sorted := E.SortedRules(used);
      E.SortedRulesAreSorted(used);
      E.SortedRulesPermute(used);
      SameMembers(sorted, used);
      SortedIdsDiffer(used);
      forall r | r in sorted ensures r.activeKey == "" { RulesHaveMetas(rules, sources, hostname, r); }
      var es := E.SampleEvaluations(s, sorted, at, eng.Config());
      E.SampleOrder(s, sorted, at, eng.Config());
      assert es[n] in es;
      if es[n].r.parent != "" { var p := ParentsApplyAndComeFirst(rules, sources, hostname, es[n].r); }
      E.NoChildStartsUnderFiringParent(t, s, sorted, at, eng.Config(), n);
    }

    /** Over every run of the service, an alarm recovers exactly at the third false evaluation since it started
        firing. */
    lemma RecoversAtThird(n: nat)
      requires AsBuilt() && n < |eng.history|
      ensures var es := eng.history;
              E.VerdictIn(es, n) == E.Recovers
              <==> E.FiresBefore(es, n) && !E.Breaches(es[n]) && E.FalseSinceStart(E.Seen(es, n)) == 3
    {
      E.RecoversAtNthFalse(eng.history, n, 3);
    }
  }

  lemma {:induction false} SortedIdsDiffer(used: seq<E.AlarmRule>)
    requires E.DistinctIds(used)
    ensures E.DistinctIds(E.SortedRules(used))
  {
    var sorted := E.SortedRules(used);
    E.SortedRulesPermute(used);
    DistinctPermutation(used, sorted);
    SameMembers(sorted, used);
    forall i, j | 0 <= i < j < |sorted| ensures sorted[i].id != sorted[j].id {
      assert sorted[i] in used && sorted[j] in used;
    }
  }
}
