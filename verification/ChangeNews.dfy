/** How hardware changes are announced: an alert row per kind of change of a part, and a notification when the row is
    new. */
module ChangeNews {
  import opened Ordering
  import opened Inventory
  import T = AlertTable

  datatype Host = Host(id: int, name: string)

  /** A change.detected notification. */
  datatype Notice = Notice(key: string, alert: T.Alert, at: int)

  /** The alert rows and the notifications sent so far. */
  datatype News = News(rows: T.Rows, sent: seq<Notice>)

  function KindText(kind: Kind): string
  {
    match kind
    case Added => "added"
    case Removed => "removed"
    case Modified => "modified"
  }

  function AlertKey(h: Host, c: Change): string
  {
    "asset-change:" + FormatInt(h.id) + ":" + c.key.0 + ":" + c.key.1 + ":" + KindText(c.kind)
  }

  function TitleOf(h: Host, c: Change): string
  {
    "硬件变更：" + h.name + " " + c.key.0 + " " + c.key.1
    + (if c.kind == Modified then " 字段 " + c.field + " 变化" else "")
  }

  function AlertOf(h: Host, c: Change): T.Alert
  {
    T.Alert(Some(h.id), "info", "asset_change", None, None, None, None, TitleOf(h, c),
            T.ChangeDetail(KindText(c.kind), c.key.0, c.key.1, c.field))
  }

  predicate Fires(rows: T.Rows, key: string) { T.FiringKeys(rows)[key] > 0 }

  function Announced(n: News, h: Host, c: Change): News
  {
    var key, e := AlertKey(h, c), AlertOf(h, c);
    if Fires(n.rows, key) then News(T.Refreshed(n.rows, key, e, c.at), n.sent)
    else News(n.rows + [T.FiringRow(e, key, c.at)], n.sent + [Notice(key, e, c.at)])
  }

  function AnnouncedAll(n: News, h: Host, cs: seq<Change>): News
  {
    if cs == [] then n else Announced(AnnouncedAll(n, h, cs[..|cs| - 1]), h, cs[|cs| - 1])
  }

  lemma {:induction false} DigitsHaveNoColon(n: nat)
    ensures ':' !in Digits(n)
  {
    if n < 10 {
    } else {
      DigitsHaveNoColon(n / 10);
    }
  }

  lemma NumbersHaveNoColon(n: int)
    ensures ':' !in FormatInt(n)
  {
    DigitsHaveNoColon(if n < 0 then -n else n);
    var text := FormatInt(n);
    assert n < 0 ==> text == "-" + Digits(-n);
    forall i | 0 <= i < |text| ensures text[i] != ':' {
      assert n < 0 && i > 0 ==> text[i] == Digits(-n)[i - 1];
    }
  }

  function KeyTail(c: Change): string { c.key.0 + ([':'] + (c.key.1 + ([':'] + KindText(c.kind)))) }

  lemma KeyUnfolds(h: Host, c: Change)
    ensures AlertKey(h, c) == "asset-change:" + (FormatInt(h.id) + ([':'] + KeyTail(c)))
  {
  }

  /** An alert's key tells the host, the part and the kind of change apart, as long as no category or slot contains a
      colon. */
  lemma AlertKeysTell(h: Host, g: Host, c: Change, d: Change)
    requires ':' !in c.key.0 && ':' !in c.key.1 && ':' !in d.key.0 && ':' !in d.key.1
    ensures AlertKey(h, c) == AlertKey(g, d) <==> h.id == g.id && c.key == d.key && c.kind == d.kind
  {
    if AlertKey(h, c) == AlertKey(g, d) {
      KeyUnfolds(h, c);
      KeyUnfolds(g, d);
      var a, b := FormatInt(h.id) + ([':'] + KeyTail(c)), FormatInt(g.id) + ([':'] + KeyTail(d));
      assert ("asset-change:" + a)[13..] == a && ("asset-change:" + b)[13..] == b;
      NumbersHaveNoColon(h.id);
      NumbersHaveNoColon(g.id);
      EndsAtMark(':', FormatInt(h.id), FormatInt(g.id), KeyTail(c), KeyTail(d));
      FormatIntDiffers(h.id, g.id);
      TailsTell(c, d);
    }
  }

  lemma TailsTell(c: Change, d: Change)
    requires ':' !in c.key.0 && ':' !in c.key.1 && ':' !in d.key.0 && ':' !in d.key.1 && KeyTail(c) == KeyTail(d)
    ensures c.key == d.key && c.kind == d.kind
  {
    EndsAtMark(':', c.key.0, d.key.0, c.key.1 + ([':'] + KindText(c.kind)), d.key.1 + ([':'] + KindText(d.kind)));
    EndsAtMark(':', c.key.1, d.key.1, KindText(c.kind), KindText(d.kind));
  }

  /** What a change that no open alert covers puts on record: an informational alert of the host that names the part and
      the change, and a notification of it. */
  lemma NewsTells(n: News, h: Host, c: Change)
    requires T.FiringKeys(n.rows)[AlertKey(h, c)] == 0
    ensures var kind := match c.kind case Added => "added" case Removed => "removed" case Modified => "modified";
            var field := if c.kind == Modified then " 字段 " + c.field + " 变化" else "";
            var title := "硬件变更：" + h.name + " " + c.key.0 + " " + c.key.1 + field;
            var alert := T.Alert(Some(h.id), "info", "asset_change", None, None, None, None, title,
                           T.ChangeDetail(kind, c.key.0, c.key.1, c.field));
            var key := "asset-change:" + FormatInt(h.id) + ":" + c.key.0 + ":" + c.key.1 + ":" + kind;
            Announced(n, h, c) == News(n.rows + [T.Row(alert, T.Firing, Some(key), c.at, c.at, None)],
                                    n.sent + [Notice(key, alert, c.at)])
  {
  }

  lemma {:induction false} AnnouncedSplit(n: News, h: Host, a: seq<Change>, b: seq<Change>)
    ensures AnnouncedAll(n, h, a + b) == AnnouncedAll(AnnouncedAll(n, h, a), h, b)
  {
    if b == [] {
      assert a + b == a;
    } else {
      AnnouncedSplit(n, h, a, b[..|b| - 1]);
      assert (a + b)[..|a + b| - 1] == a + b[..|b| - 1];
    }
  }

  ghost predicate Mentions(cs: seq<Change>, h: Host, key: string)
  {
    exists i :: 0 <= i < |cs| && AlertKey(h, cs[i]) == key
  }

  /** How many notifications carry the key. */
  function NoticesOf(sent: seq<Notice>, key: string): nat
  {
    if sent == [] then 0 else NoticesOf(sent[..|sent| - 1], key) + (if sent[|sent| - 1].key == key then 1 else 0)
  }

  lemma {:induction false} AnnouncedKeeps(n: News, h: Host, c: Change, key: string)
    requires T.Sound(n.rows)
    ensures var n1 := Announced(n, h, c);
            && T.Sound(n1.rows) && (Fires(n1.rows, key) <==> Fires(n.rows, key) || AlertKey(h, c) == key)
            && NoticesOf(n1.sent, key) == NoticesOf(n.sent, key)
              + (if AlertKey(h, c) == key && !Fires(n.rows, key) then 1 else 0)
  {
    var own, e := AlertKey(h, c), AlertOf(h, c);
    T.ClashIsFiring(n.rows, own);
    if Fires(n.rows, own) {
      T.RefreshKeeps(n.rows, own, e, c.at);
    } else {
      T.InsertKeeps(n.rows, e, own, c.at);
      assert (n.sent + [Notice(own, e, c.at)])[..|n.sent|] == n.sent;
    }
  }

  /** However often a part changes in one way, it is announced once as long as its alert stays open: after the changes
      its key fires exactly if it did before or one of them carries it, and one notification more has been sent exactly
      if the key came to fire. */
  lemma {:induction false} AnnouncedOnce(n: News, h: Host, cs: seq<Change>, key: string)
    requires T.Sound(n.rows)
    ensures var n1 := AnnouncedAll(n, h, cs);
            && T.Sound(n1.rows)
            && (T.FiringKeys(n1.rows)[key] > 0 <==> T.FiringKeys(n.rows)[key] > 0 || Mentions(cs, h, key))
            && NoticesOf(n1.sent, key) == NoticesOf(n.sent, key)
              + (if Mentions(cs, h, key) && T.FiringKeys(n.rows)[key] == 0 then 1 else 0)
  {
    if cs == [] {
    } else {
      var last := |cs| - 1;
      AnnouncedOnce(n, h, cs[..last], key);
      AnnouncedKeeps(AnnouncedAll(n, h, cs[..last]), h, cs[last], key);
      MentionsNext(cs, h, key);
    }
  }

  lemma MentionsNext(cs: seq<Change>, h: Host, key: string)
    requires cs != []
    ensures Mentions(cs, h, key) <==> Mentions(cs[..|cs| - 1], h, key) || AlertKey(h, cs[|cs| - 1]) == key
  {
    var last := |cs| - 1;
    assert forall i :: 0 <= i < last ==> cs[..last][i] == cs[i];
  }
}
