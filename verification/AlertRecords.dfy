/** What alert rows and notifications say, told from the samples and rules behind them. */
module AlertRecords {
  import opened Ordering
  import opened AlertRules
  import opened Alerting
  import E = AlarmEngines
  import T = AlertTable

  // ---------- the object of a sample ----------

  const SPACES: set<int> := {0x9, 0xA, 0xB, 0xC, 0xD, 0x20, 0x85, 0xA0, 0x1680, 0x2000, 0x2001, 0x2002, 0x2003, 0x2004,
    0x2005, 0x2006, 0x2007, 0x2008, 0x2009, 0x200A, 0x2028, 0x2029, 0x202F, 0x205F, 0x3000}

  ghost predicate Blank(s: string) { forall c :: c in s ==> IsSpace(c) }

  /** The text between the spaces at both ends of `s`. */
  ghost predicate Inner(s: string, t: string)
  {
    && (exists a, b :: s == a + t + b && Blank(a) && Blank(b))
    && (t != "" ==> !IsSpace(t[0]) && !IsSpace(t[|t| - 1]))
  }

  /** White space is exactly these code points. */
  lemma SpacesAre(c: char)
    ensures IsSpace(c) <==> c as int in SPACES
  {
  }

  lemma {:induction false} TrimLeftIs(s: string) returns (a: string)
    ensures s == a + TrimLeft(s) && Blank(a) && (TrimLeft(s) != "" ==> !IsSpace(TrimLeft(s)[0]))
  {
    if s != "" && IsSpace(s[0]) {
      var rest := TrimLeftIs(s[1..]);
      a := [s[0]] + rest;
    } else {
      a := "";
    }
  }

  lemma {:induction false} TrimLeftKeepsEnd(s: string)
    requires s != "" && !IsSpace(s[|s| - 1])
    ensures TrimLeft(s) != "" && !IsSpace(TrimLeft(s)[|TrimLeft(s)| - 1])
  {
    if IsSpace(s[0]) { TrimLeftKeepsEnd(s[1..]); }
  }

  lemma InnerText(s: string, a: string, t: string, b: string)
    requires s == a + t + b && Blank(a) && Blank(b) && (t != "" ==> !IsSpace(t[0]) && !IsSpace(t[|t| - 1]))
    ensures Inner(s, t)
  {
  }

  lemma InnerBeforeSpace(s: string, t: string)
    requires s != "" && IsSpace(s[|s| - 1]) && Inner(s[..|s| - 1], t)
    ensures Inner(s, t)
  {
    var n := |s| - 1;
    var a, b :| s[..n] == a + t + b && Blank(a) && Blank(b);
    assert s == a + t + (b + [s[n]]);
    InnerText(s, a, t, b + [s[n]]);
  }

  /** Trimming takes the spaces off both ends and nothing else. */
  lemma {:induction false} TrimSpaceIsInner(s: string)
    ensures Inner(s, TrimSpace(s))
    decreases |s|
  {
    var n := |s| - 1;
    if s != "" && IsSpace(s[n]) {
      TrimSpaceIsInner(s[..n]);
      InnerBeforeSpace(s, TrimSpace(s[..n]));
    } else {
      var a := TrimLeftIs(s);
      assert s == a + TrimLeft(s) + "";
      if s != "" { TrimLeftKeepsEnd(s); }
      InnerText(s, a, TrimLeft(s), "");
    }
  }

  lemma {:induction false} BlankIsTrimmed(s: string)
    ensures Blank(s) <==> TrimSpace(s) == ""
    decreases |s|
  {
    TrimSpaceIsInner(s);
    if Blank(s) && s != "" { BlankIsTrimmed(s[..|s| - 1]); }
  }

  /** The label is missing or blank. */
  ghost predicate NoLabel(labels: map<string, string>, k: string) { k in labels ==> Blank(labels[k]) }

  /** The first label among these that is not blank has this text. */
  ghost predicate FirstIs(labels: map<string, string>, keys: seq<string>, i: int, text: string)
  {
    && 0 <= i < |keys| && keys[i] in labels && Inner(labels[keys[i]], text)
    && forall j :: 0 <= j < i ==> NoLabel(labels, keys[j])
  }

  lemma {:induction false} NoneHasText(labels: map<string, string>, keys: seq<string>)
    requires FirstLabel(labels, keys) == ""
    ensures forall i :: 0 <= i < |keys| ==> NoLabel(labels, keys[i])
  {
    if keys == [] {
    } else {
      if keys[0] in labels { BlankIsTrimmed(labels[keys[0]]); }
      NoneHasText(labels, keys[1..]);
      assert forall i :: 1 <= i < |keys| ==> keys[i] == keys[1..][i - 1];
    }
  }

  lemma {:induction false} FirstWithText(labels: map<string, string>, keys: seq<string>) returns (i: int)
    requires FirstLabel(labels, keys) != ""
    ensures FirstIs(labels, keys, i, FirstLabel(labels, keys))
  {
    if keys[0] in labels && TrimSpace(labels[keys[0]]) != "" {
      i := 0;
      TrimSpaceIsInner(labels[keys[0]]);
    } else {
      if keys[0] in labels { BlankIsTrimmed(labels[keys[0]]); }
      var k := FirstWithText(labels, keys[1..]);
      i := k + 1;
      assert forall j :: 1 <= j < |keys| ==> keys[j] == keys[1..][j - 1];
    }
  }

  /** A sample's object is the text of the first of its device, slot, array, chip and rail labels that is not blank. */
  lemma ObjectTells(labels: map<string, string>)
    ensures var keys := ["device", "slot", "array", "chip", "rail"];
            var obj := ObjectOf(labels);
            && (obj == "" ==> forall i :: 0 <= i < |keys| ==> NoLabel(labels, keys[i]))
            && (obj != "" ==> exists i :: FirstIs(labels, keys, i, obj))
  {
    var keys := ["device", "slot", "array", "chip", "rail"];
    if FirstLabel(labels, keys) == "" { NoneHasText(labels, keys); } else { var i := FirstWithText(labels, keys); }
  }

  // ---------- values ----------

  /** The sample is of this metric and object. */
  predicate Of(s: Sample, metric: string, obj: string) { s.metric == metric && ObjectOf(s.labels) == obj }

  lemma {:induction false} NoValue(samples: seq<Sample>, metric: string, obj: string)
    requires forall i :: 0 <= i < |samples| ==> !Of(samples[i], metric, obj)
    ensures LastValue(samples, metric, obj) == 0.0
  {
    if samples == [] {
    } else {
      NoValue(samples[..|samples| - 1], metric, obj);
    }
  }

  /** The value of a metric and object is that of the batch's last sample of them. */
  lemma {:induction false} LastValueTells(samples: seq<Sample>, metric: string, obj: string, i: nat)
    requires i < |samples| && Of(samples[i], metric, obj)
    requires forall j :: i < j < |samples| ==> !Of(samples[j], metric, obj)
    ensures LastValue(samples, metric, obj) == samples[i].value
  {
    if i == |samples| - 1 {
    } else {
      LastValueTells(samples[..|samples| - 1], metric, obj, i);
    }
  }

  // ---------- rows ----------

  /** The row a firing opens says whose alarm it is, how severe, and what was measured against which threshold. */
  ghost predicate AlertTold(a: T.Alert, ev: E.AlarmEvent, meta: Meta, c: Context, value: real)
  {
    && a.hostID == Some(c.hostID) && a.severity == (if ev.level == "critical" then "critical" else "major")
    && a.category == meta.category && a.metric == Some(meta.metric)
    && (if Blank(ev.object_) then a.objectName == None else a.objectName.Some? && Inner(ev.object_, a.objectName.value))
    && a.value == Some(value) && a.threshold == Some(meta.threshold) && TitleTold(a.title, meta, c, value)
  }

  /** The title names the rule, the host, the metric with its value, and the comparison with the threshold. */
  ghost predicate TitleTold(title: string, meta: Meta, c: Context, value: real)
  {
    var signs := map["gt" := ">", "lt" := "<", "eq" := "==", "ne" := "!="];
    var sign := if meta.op in signs then signs[meta.op] else meta.op;
    title == meta.title + "：" + c.hostname + " " + meta.metric + " " + c.format(value)
             + "（阈值 " + (sign + " " + c.format(meta.threshold)) + "）"
  }

  ghost predicate NoticeTold(d: Dispatch, kind: Kind, ev: E.AlarmEvent, meta: Meta, c: Context)
  {
    && d.kind == kind && d.key == ev.activeKey && d.severity == (if ev.level == "critical" then "critical" else "major")
    && d.category == meta.category && d.metric == meta.metric && d.at == c.at
  }

  lemma TitleIsTold(meta: Meta, c: Context, value: real)
    ensures TitleTold(TitleOf(meta, c, value), meta, c, value)
  {
  }

  lemma AlertIsTold(ev: E.AlarmEvent, meta: Meta, c: Context, value: real)
    ensures AlertTold(ToAlert(ev, meta, c, value), ev, meta, c, value)
    ensures var a := ToAlert(ev, meta, c, value);
            a.detail == T.RuleDetail(ev.ruleID, meta.metric, meta.op, meta.threshold,
                          if a.objectName.Some? then a.objectName.value else "", c.hostname, value, ev.message)
  {
    TrimSpaceIsInner(ev.object_);
    BlankIsTrimmed(ev.object_);
    TitleIsTold(meta, c, value);
  }

  /** What the handling of one event adds: a row and a notification for a new firing, a silenced row for a muted one, a
      notification for a recovery that closes a row, and otherwise nothing. */
  lemma HandlingTells(b: Book, ev: E.AlarmEvent, c: Context)
    requires ev.ruleID in c.metas
    ensures var meta := c.metas[ev.ruleID];
            var value := LastValue(c.samples, meta.metric, ev.object_);
            var b1, n, m := Handled(b, ev, c), |b.rows|, |b.sent|;
            var fires := T.FiringKeys(b.rows)[ev.activeKey] > 0;
            && |b1.rows| == n + (if ev.state.Muted? || (ev.state.Firing? && !fires) then 1 else 0)
            && |b1.sent| == m + (if (ev.state.Firing? && !fires) || (ev.state.Recovered? && fires) then 1 else 0)
            && b1.sent[..m] == b.sent
            && (|b1.rows| > n ==>
                  && b1.rows[..n] == b.rows && AlertTold(b1.rows[n].alert, ev, meta, c, value)
                  && b1.rows[n] == T.Row(b1.rows[n].alert, if ev.state.Muted? then T.Silenced else T.Firing,
                                     if ev.state.Muted? then None else Some(ev.activeKey), c.at / 1_000_000_000,
                                     c.at / 1_000_000_000, None))
            && (|b1.sent| > m ==>
                  NoticeTold(b1.sent[m], if ev.state.Firing? then AlertFiring else AlertResolved, ev, meta, c))
  {
    var meta := c.metas[ev.ruleID];
    AlertIsTold(ev, meta, c, LastValue(c.samples, meta.metric, ev.object_));
  }

  /** An evaluation whose firing is held back, by its parent or within the suppress window, opens no row, closes none
      and notifies nobody. */
  lemma HeldBackAddsNothing(b: Book, t: E.Table, e: E.Evaluation, c: Context)
    requires E.VerdictOf(t, e).Inhibited? || E.VerdictOf(t, e).TooSoon?
    ensures var b1 := Entered(b, t, e, c);
            && |b1.rows| == |b.rows| && b1.sent == b.sent
            && forall i :: 0 <= i < |b.rows| ==>
                 b1.rows[i].state == b.rows[i].state && b1.rows[i].activeKey == b.rows[i].activeKey
                 && b1.rows[i].resolvedAt == b.rows[i].resolvedAt
  {
    var events := E.EventsFor(e, E.VerdictOf(t, e));
    assert events == [events[0]] && events[0].state.Suppressed?;
    OneEvent(b, events[0], c);
  }
}
