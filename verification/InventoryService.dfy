/** The inventory service of one host: its part, snapshot and change tables, rewritten snapshot by snapshot. */
module InventoryServices {
  import opened Ordering
  import opened Inventory
  import opened ChangeNews
  import AlertTable

  lemma SameSums<T>(a: seq<T>, b: seq<T>, c: seq<T>)
    ensures (a + b) + c == a + (b + c)
  {
  }

  class InventoryService {
    const host: Host
    const alerts: AlertTable.Alerts
    var rows: seq<Row>        // host_component, by id
    var snaps: seq<Snap>      // hardware_snapshot, by id
    var changes: seq<Change>  // change_event, by id
    var sent: seq<Notice>

    ghost function Contents(): State
      reads `rows, `snaps, `changes
    {
      State(rows, snaps, changes)
    }

    ghost function Told(): News
      reads `sent, alerts
    {
      News(alerts.rows, sent)
    }

    /** These changes have been recorded and announced since. */
    ghost predicate Recorded(before: seq<Change>, told: News, cs: seq<Change>)
      reads `changes, `sent, alerts
    {
      alerts.Valid() && changes == before + cs && Told() == AnnouncedAll(told, host, cs)
    }

    lemma {:induction false} RecordedThen(before: seq<Change>, told: News, a: seq<Change>, b: seq<Change>)
      requires Recorded(before + a, AnnouncedAll(told, host, a), b)
      ensures Recorded(before, told, a + b)
    {
      SameSums(before, a, b);
      AnnouncedSplit(told, host, a, b);
    }

    constructor (host: Host, alerts: AlertTable.Alerts)
      requires alerts.Valid()
      ensures this.host == host && this.alerts == alerts && Contents() == State([], [], []) && sent == []
    {
      this.host, this.alerts := host, alerts;
      rows, snaps, changes, sent := [], [], [], [];
    }

    method LatestFingerprint(mode: string) returns (fp: Option<seq<Minimal>>)
      ensures fp == if Latest(snaps, mode).None? then None else Some(Latest(snaps, mode).value.fingerprint)
    {
      var best: Option<Snap> := None;
      for i := 0 to |snaps|
        invariant best == Latest(snaps[..i], mode)
      {
        assert snaps[..i + 1][..i] == snaps[..i];
        if snaps[i].mode == mode && (best.None? || snaps[i].at >= best.value.at) { best := Some(snaps[i]); }
      }
      TakeAll(snaps);
      fp := if best.None? then None else Some(best.value.fingerprint);
    }

    method ComputeFingerprint(parts: seq<Part>) returns (fp: seq<Minimal>)
      ensures fp == Fingerprint(parts)
    {
      var minimals: seq<Minimal> := [];
      for i := 0 to |parts|
        invariant minimals == Minimals(parts[..i])
      {
        minimals := minimals + [Minimal(parts[i].category, parts[i].slot, parts[i].serial, parts[i].firmware,
          parts[i].capacity)];
      }
      TakeAll(parts);
      fp := Sort(MinimalLeq, minimals);
    }

    /** The known rows by key, as they were before the round. */
    method IndexRows() returns (byKey: map<Key, Row>)
      requires DistinctRows(rows)
      ensures forall k :: RowAt(rows, k) == if k in byKey then Some(byKey[k]) else None
    {
      byKey := map[];
      for i := 0 to |rows|
        invariant forall k :: k in byKey <==> exists j :: 0 <= j < i && RowKey(rows[j]) == k
        invariant forall j :: 0 <= j < i ==> RowKey(rows[j]) in byKey && byKey[RowKey(rows[j])] == rows[j]
      {
        byKey := byKey[RowKey(rows[i]) := rows[i]];
      }
      forall k ensures RowAt(rows, k) == if k in byKey then Some(byKey[k]) else None { RowAtIs(rows, k); }
    }

    method UpsertBatch(parts: seq<Part>, at: int)
      modifies `rows
      ensures rows == Upserted(old(rows), parts, at)
    {
      for i := 0 to |parts|
        invariant rows == Upserted(old(rows), parts[..i], at)
      {
        assert parts[..i + 1][..i] == parts[..i];
        rows := UpsertOne(rows, parts[i], at);
      }
      TakeAll(parts);
    }

    method CreateSnapshot(snap: Snap)
      modifies `snaps
      ensures snaps == old(snaps) + [snap]
    {
      snaps := snaps + [snap];
    }

    method HasChangeSince(k: Key, kind: Kind, since: int) returns (found: bool)
      ensures found <==> exists i :: 0 <= i < |changes| && changes[i].key == k && changes[i].kind == kind
                          && changes[i].at >= since
    {
      found := false;
      for i := 0 to |changes|
        invariant found <==> exists j :: 0 <= j < i && changes[j].key == k && changes[j].kind == kind
                              && changes[j].at >= since
      {
        if changes[i].key == k && changes[i].kind == kind && changes[i].at >= since { found := true; }
      }
    }

    /** Opens or refreshes the alert of the change, records the change, and notifies if the alert is new. */
    method RecordChange(c: Change)
      requires alerts.Valid()
      modifies `changes, `sent, alerts
      ensures Recorded(old(changes), old(Told()), [c])
    {
      var key, e := AlertKey(host, c), AlertOf(host, c);
      assert [c][..0] == [];
      var created, id := alerts.UpsertFiring(e, key, c.at);
      changes := changes + [c];
      if created { sent := sent + [Notice(key, e, c.at)]; }
    }

    /** Marks the parts missing for the first time and reports, once, those missing again. */
    method ConfirmRemovals(at: int) returns (n: nat)
      requires alerts.Valid() && DistinctRows(rows)
      modifies `rows, `changes, `sent, alerts
      ensures rows == MarkedRows(old(rows), at)
      ensures Recorded(old(changes), old(Told()), RemovedEvents(old(rows), old(changes), at))
      ensures n == |RemovedEvents(old(rows), old(changes), at)|
    {
      n := 0;
      ghost var before, told := changes, Told();
      var missing := rows;
      for i := 0 to |missing|
        invariant |rows| == |missing|
        invariant forall j :: 0 <= j < |missing| ==> rows[j] == if j < i then Marked(missing[j], at) else missing[j]
        invariant Recorded(before, told, RemovedEvents(missing[..i], before, at))
        invariant n == |RemovedEvents(missing[..i], before, at)|
      {
        ConfirmedNext(missing, before, at, i);
        var m := ConfirmRow(missing[i], i, at);
        RecordedThen(before, told, RemovedEvents(missing[..i], before, at),
                     if Confirmed(missing[i], before, at) then [RemovedChange(missing[i].part, at)] else []);
        n := n + m;
      }
      TakeAll(missing);
      assert rows == MarkedRows(missing, at);
    }

    /** One row that may be missing. */
    method ConfirmRow(row: Row, id: nat, at: int) returns (n: nat)
      requires alerts.Valid() && id < |rows| && rows[id] == row
      modifies `rows, `changes, `sent, alerts
      ensures rows == old(rows)[id := Marked(row, at)]
      ensures var cs := if Confirmed(row, old(changes), at) then [RemovedChange(row.part, at)] else [];
              n == |cs| && Recorded(old(changes), old(Told()), cs)
    {
      if row.lastSeen >= at { return 0; }
      if row.removedAt.None? {
        rows := rows[id := row.(removedAt := Some(at))];
        return 0;
      }
      var reported := HasChangeSince(RowKey(row), Removed, row.removedAt.value);
      if reported { return 0; }
      RecordChange(RemovedChange(row.part, at));
      return 1;
    }

    /** Compares the snapshot with what was known before it. */
    method Diff(prev: map<Key, Row>, ghost known: seq<Row>, parts: seq<Part>, at: int) returns (n: nat)
      requires alerts.Valid() && DistinctRows(rows)
      requires forall k :: RowAt(known, k) == if k in prev then Some(prev[k]) else None
      modifies `rows, `changes, `sent, alerts
      ensures rows == MarkedRows(old(rows), at)
      ensures var added := AddedEvents(known, parts, at);
              var removed := RemovedEvents(old(rows), old(changes) + added, at);
              Recorded(old(changes), old(Told()), added + removed + ModifiedEvents(known, parts, at))
    {
      ghost var before, told := changes, Told();
      ghost var added := AddedEvents(known, parts, at);
      ghost var removed := RemovedEvents(rows, before + added, at);
      var a := ReportAdded(prev, known, parts, at);
      var r := ConfirmRemovals(at);
      RecordedThen(before, told, added, removed);
      var m := ReportModified(prev, known, parts, at);
      RecordedThen(before, told, added + removed, ModifiedEvents(known, parts, at));
      n := a + r + m;
    }

    method ReportAdded(prev: map<Key, Row>, ghost known: seq<Row>, parts: seq<Part>, at: int) returns (n: nat)
      requires alerts.Valid() && forall k :: RowAt(known, k) == if k in prev then Some(prev[k]) else None
      modifies `changes, `sent, alerts
      ensures Recorded(old(changes), old(Told()), AddedEvents(known, parts, at)) && n == |AddedEvents(known, parts, at)|
    {
      n := 0;
      ghost var before, told := changes, Told();
      for i := 0 to |parts|
        invariant Recorded(before, told, AddedEvents(known, parts[..i], at))
                  && n == |AddedEvents(known, parts[..i], at)|
      {
        assert parts[..i + 1][..i] == parts[..i];
        var row := if KeyOf(parts[i]) in prev then Some(prev[KeyOf(parts[i])]) else None;
        var m := ReportIfNew(row, parts[i], at);
        RecordedThen(before, told, AddedEvents(known, parts[..i], at), NewEvents(row, parts[i], at));
        n := n + m;
      }
      TakeAll(parts);
    }

    method ReportIfNew(row: Option<Row>, p: Part, at: int) returns (n: nat)
      requires alerts.Valid()
      modifies `changes, `sent, alerts
      ensures Recorded(old(changes), old(Told()), NewEvents(row, p, at)) && n == |NewEvents(row, p, at)|
    {
      if row.Some? { return 0; }
      RecordChange(AddedChange(p, at));
      return 1;
    }

    method ReportModified(prev: map<Key, Row>, ghost known: seq<Row>, parts: seq<Part>, at: int) returns (n: nat)
      requires alerts.Valid() && forall k :: RowAt(known, k) == if k in prev then Some(prev[k]) else None
      modifies `changes, `sent, alerts
      ensures Recorded(old(changes), old(Told()), ModifiedEvents(known, parts, at))
              && n == |ModifiedEvents(known, parts, at)|
    {
      n := 0;
      ghost var before, told := changes, Told();
      for i := 0 to |parts|
        invariant Recorded(before, told, ModifiedEvents(known, parts[..i], at))
                  && n == |ModifiedEvents(known, parts[..i], at)|
      {
        assert parts[..i + 1][..i] == parts[..i];
        var row := if KeyOf(parts[i]) in prev then Some(prev[KeyOf(parts[i])]) else None;
        var m := ReportPart(row, parts[i], at);
        RecordedThen(before, told, ModifiedEvents(known, parts[..i], at), PartEvents(row, parts[i], at));
        n := n + m;
      }
      TakeAll(parts);
    }

    /** The watched fields of one part, unless it is new or was marked as removed. */
    method ReportPart(row: Option<Row>, p: Part, at: int) returns (n: nat)
      requires alerts.Valid()
      modifies `changes, `sent, alerts
      ensures Recorded(old(changes), old(Told()), PartEvents(row, p, at)) && n == |PartEvents(row, p, at)|
    {
      if row.None? || row.value.removedAt.Some? { return 0; }
      n := ReportFields(row.value.part, p, at);
    }

    method ReportFields(was: Part, p: Part, at: int) returns (n: nat)
      requires alerts.Valid()
      modifies `changes, `sent, alerts
      ensures Recorded(old(changes), old(Told()), FieldEvents(was, p, WATCHED, at))
              && n == |FieldEvents(was, p, WATCHED, at)|
    {
      n := 0;
      ghost var before, told := changes, Told();
      for j := 0 to |WATCHED|
        invariant Recorded(before, told, FieldEvents(was, p, WATCHED[..j], at))
                  && n == |FieldEvents(was, p, WATCHED[..j], at)|
      {
        var field := WATCHED[j];
        NextField(was, p, j, at);
        var m := ReportField(was, p, field, at);
        RecordedThen(before, told, FieldEvents(was, p, WATCHED[..j], at), FieldEvent(was, p, field, at));
        n := n + m;
      }
      TakeAll(WATCHED);
    }

    static lemma {:induction false} NextField(was: Part, p: Part, j: nat, at: int)
      requires j < |WATCHED|
      ensures FieldEvents(was, p, WATCHED[..j + 1], at)
              == FieldEvents(was, p, WATCHED[..j], at) + FieldEvent(was, p, WATCHED[j], at)
    {
      assert WATCHED[..j + 1][..j] == WATCHED[..j];
    }

    method ReportField(was: Part, p: Part, field: string, at: int) returns (n: nat)
      requires alerts.Valid()
      modifies `changes, `sent, alerts
      ensures Recorded(old(changes), old(Told()), FieldEvent(was, p, field, at)) && n == |FieldEvent(was, p, field, at)|
    {
      if WhitelistValue(was, field) == WhitelistValue(p, field) { return 0; }
      RecordChange(ModifiedChange(was, p, field, at));
      return 1;
    }

    /** Refreshes the part rows and keeps the snapshot. */
    method StoreSnapshot(parts: seq<Part>, snap: Snap)
      requires DistinctRows(rows)
      modifies `rows, `snaps
      ensures rows == Upserted(old(rows), parts, snap.at) && snaps == old(snaps) + [snap]
      ensures DistinctRows(rows) && DistinctRows(MarkedRows(rows, snap.at))
    {
      UpsertedRow(rows, parts, snap.at, ("", ""));
      UpsertBatch(parts, snap.at);
      MarkedDistinct(rows, snap.at);
      CreateSnapshot(snap);
    }

    /** Takes in one snapshot: a baseline at first, the removal check alone when the fingerprint is unchanged, otherwise
        the full comparison. Every change is announced as it is recorded. */
    method IngestSnapshot(parts: seq<Part>, mode: string, at: int) returns (ghost events: seq<Change>)
      requires alerts.Valid() && DistinctRows(rows)
      modifies this, alerts
      ensures DistinctRows(rows)
      ensures Contents() == Ingested(old(Contents()), Round(parts, at), mode, false)
      ensures Recorded(old(changes), old(Told()), events)
    {
      var fingerprint := ComputeFingerprint(parts);
      var prevFp := LatestFingerprint(mode);
      var prev := IndexRows();
      ghost var known := rows;
      var changed := prevFp != Some(fingerprint);
      StoreSnapshot(parts, Snap(mode, at, fingerprint, if changed then Some(parts) else None));
      if prevFp.None? {
        IngestedFirst(old(Contents()), Round(parts, at), mode);
        return [];
      }
      events := ReportChanges(changed, prev, known, parts, at);
      IngestedLater(old(Contents()), Round(parts, at), mode, events);
    }

    /** The removal check alone, or the full comparison. */
    method ReportChanges(changed: bool, prev: map<Key, Row>, ghost known: seq<Row>, parts: seq<Part>, at: int)
        returns (ghost events: seq<Change>)
      requires alerts.Valid() && DistinctRows(rows)
      requires forall k :: RowAt(known, k) == if k in prev then Some(prev[k]) else None
      modifies `rows, `changes, `sent, alerts
      ensures rows == MarkedRows(old(rows), at)
              && events == RoundEvents(changed, known, old(rows), old(changes), parts, at)
      ensures Recorded(old(changes), old(Told()), events)
    {
      events := RoundEvents(changed, known, rows, changes, parts, at);
      if !changed {
        NothingCompared(changes, RemovedEvents(rows, changes, at));
        var n := ConfirmRemovals(at);
      } else {
        var n := Diff(prev, known, parts, at);
      }
    }
  }
}
