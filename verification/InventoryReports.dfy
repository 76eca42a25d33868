/** What the change events of a host say, told from the parts of its snapshots. */
module InventoryReports {
  import opened Ordering
  import opened Inventory

  // ---------- events by their content ----------

  lemma {:induction false} AddedMembers(rows: seq<Row>, parts: seq<Part>, at: int, c: Change)
    requires c in AddedEvents(rows, parts, at)
    ensures exists q :: q in parts && c == AddedChange(q, at)
  {
    var n := |parts| - 1;
    if c in AddedEvents(rows, parts[..n], at) {
      AddedMembers(rows, parts[..n], at, c);
      var q :| q in parts[..n] && c == AddedChange(q, at);
      assert q in parts;
    } else {
      assert parts[n] in parts;
    }
  }

  lemma {:induction false} RemovedMembers(rows: seq<Row>, changes: seq<Change>, at: int, c: Change)
    requires c in RemovedEvents(rows, changes, at)
    ensures exists r :: r in rows && Confirmed(r, changes, at) && c == RemovedChange(r.part, at)
  {
    var n := |rows| - 1;
    if c in RemovedEvents(rows[..n], changes, at) {
      RemovedMembers(rows[..n], changes, at, c);
      var r :| r in rows[..n] && Confirmed(r, changes, at) && c == RemovedChange(r.part, at);
      assert r in rows;
    } else {
      assert rows[n] in rows;
    }
  }

  lemma {:induction false} FieldMembers(was: Part, p: Part, fields: seq<string>, at: int, c: Change)
    requires c in FieldEvents(was, p, fields, at)
    ensures c.field in fields && c == ModifiedChange(was, p, c.field, at)
  {
    var n := |fields| - 1;
    if c in FieldEvents(was, p, fields[..n], at) { FieldMembers(was, p, fields[..n], at, c); }
  }

  /** The part is in service and its row says `was`. */
  ghost predicate Serves(rows: seq<Row>, k: Key, was: Part)
  {
    RowAt(rows, k).Some? && RowAt(rows, k).value.removedAt.None? && RowAt(rows, k).value.part == was
  }

  lemma {:induction false} ModifiedMembers(rows: seq<Row>, parts: seq<Part>, at: int, c: Change)
    requires c in ModifiedEvents(rows, parts, at)
    ensures exists was, q :: q in parts && Serves(rows, KeyOf(q), was) && c.field in WATCHED
                             && c == ModifiedChange(was, q, c.field, at)
  {
    var n := |parts| - 1;
    if c in ModifiedEvents(rows, parts[..n], at) {
      ModifiedMembers(rows, parts[..n], at, c);
      var was, q :| q in parts[..n] && Serves(rows, KeyOf(q), was) && c.field in WATCHED
        && c == ModifiedChange(was, q, c.field, at);
      assert q in parts;
    } else {
      var was := RowAt(rows, KeyOf(parts[n])).value.part;
      FieldMembers(was, parts[n], WATCHED, at, c);
      assert Serves(rows, KeyOf(parts[n]), was) && parts[n] in parts;
    }
  }

  // ---------- what a change may say ----------

  /** The i-th snapshot lists the part under this category and slot. */
  predicate Lists(h: History, i: int, k: Key, p: Part)
  {
    0 <= i < |h| && p in h[i].parts && (p.category, p.slot) == k
  }

  ghost predicate Unlisted(h: History, i: int, k: Key) { forall p :: !Lists(h, i, k, p) }

  function Described(p: Part): string
  {
    if p.serial == "" then p.name else p.name + (" (SN:" + (p.serial + ")"))
  }

  function CapacityText(p: Part): string
  {
    match p.capacity
    case None => ""
    case Some(n) => FormatInt(n)
  }

  /** A modification of a field between two descriptions of a part. */
  predicate FieldTold(c: Change, p: Part, q: Part)
  {
    || (c.field == "serial" && c.oldValue == Some(p.serial) && c.newValue == Some(q.serial))
    || (c.field == "firmware" && c.oldValue == Some(p.firmware) && c.newValue == Some(q.firmware))
    || (c.field == "capacity_bytes" && c.oldValue == Some(CapacityText(p)) && c.newValue == Some(CapacityText(q)))
  }

  ghost predicate AdditionTold(c: Change, h: History, i: int)
  {
    exists q :: Lists(h, i, c.key, q)
                && c == Change(c.key, Added, "", None, Some(Described(q)), c.at, 1)
  }

  ghost predicate RemovalTold(c: Change, h: History, i: int)
  {
    exists p :: Lists(h, i - 2, c.key, p)
                && c == Change(c.key, Removed, "", Some(Described(p)), None, c.at, 2)
  }

  ghost predicate ModificationTold(c: Change, h: History, i: int)
  {
    exists p, q :: Lists(h, i - 1, c.key, p) && Lists(h, i, c.key, q)
                   && FieldTold(c, p, q) && c.kind == Modified && c.confirms == 1
  }

  /** The change is of round `i`, and it tells of parts as the snapshots list them. */
  ghost predicate Told(c: Change, h: History, i: int)
  {
    && 0 <= i < |h| && c.at == h[i].at
    && (AdditionTold(c, h, i) || RemovalTold(c, h, i) || ModificationTold(c, h, i))
  }

  ghost predicate TellsTruth(cs: seq<Change>, h: History)
  {
    forall c :: c in cs ==> exists i :: Told(c, h, i)
  }

  lemma ToldLater(c: Change, h: History, n: nat, i: int)
    requires n <= |h| && Told(c, h[..n], i)
    ensures Told(c, h, i)
  {
    assert forall j, p :: Lists(h[..n], j, c.key, p) ==> Lists(h, j, c.key, p);
  }

  // ---------- every round tells the truth ----------

  lemma {:induction false} PartIsListed(h: History, i: int, k: Key)
    requires 0 <= i < |h|
    ensures PartAt(h[i].parts, k).Some? ==> Lists(h, i, k, PartAt(h[i].parts, k).value)
    ensures In(h, i, k) <==> !Unlisted(h, i, k)
    ensures DistinctKeys(h[i].parts) ==> forall p :: Lists(h, i, k, p) ==> PartAt(h[i].parts, k) == Some(p)
  {
    PartAtIs(h[i].parts, k);
    forall p | Lists(h, i, k, p)
      ensures PartAt(h[i].parts, k).Some? && (DistinctKeys(h[i].parts) ==> PartAt(h[i].parts, k) == Some(p)) {
      var j :| 0 <= j < |h[i].parts| && h[i].parts[j] == p;
    }
    if In(h, i, k) { assert Lists(h, i, k, PartAt(h[i].parts, k).value); }
  }

  lemma AddedTold(h: History, rows: seq<Row>, c: Change)
    requires h != [] && c in AddedEvents(rows, h[|h| - 1].parts, h[|h| - 1].at)
    ensures Told(c, h, |h| - 1)
  {
    var n := |h| - 1;
    AddedMembers(rows, h[n].parts, h[n].at, c);
    var q :| q in h[n].parts && c == AddedChange(q, h[n].at);
    SameSummary(q);
    assert Lists(h, n, c.key, q);
  }

  lemma SameSummary(p: Part)
    ensures Summary(p) == Described(p)
  {
    assert p.name + " (SN:" + p.serial + ")" == p.name + (" (SN:" + (p.serial + ")"));
  }

  /** A row in service says what the snapshot before lists. */
  lemma ServesWhatWasListed(s: State, h: History, k: Key, was: Part)
    requires |h| > 1 && RowsOk(s, h[..|h| - 1]) && Serves(s.rows, k, was)
    ensures Lists(h, |h| - 2, k, was)
  {
    var before := h[..|h| - 1];
    assert RowOk(RowAt(s.rows, k), s.changes, StatusOf(before, k), LastKnown(before, k), k, before[|h| - 2].at);
    PartAtIs(h[|h| - 2].parts, k);
  }

  lemma ModifiedTold(s: State, h: History, c: Change)
    requires |h| > 1 && RowsOk(s, h[..|h| - 1])
    requires c in ModifiedEvents(s.rows, h[|h| - 1].parts, h[|h| - 1].at)
    ensures Told(c, h, |h| - 1)
  {
    var n := |h| - 1;
    ModifiedMembers(s.rows, h[n].parts, h[n].at, c);
    var was, q :| q in h[n].parts && Serves(s.rows, KeyOf(q), was) && c.field in WATCHED
      && c == ModifiedChange(was, q, c.field, h[n].at);
    ServesWhatWasListed(s, h, c.key, was);
    assert FieldTold(c, was, q) && Lists(h, n, c.key, q);
  }

  /** A removal is confirmed for a part that the last but one snapshot lists. */
  lemma RemovedTold(s: State, h: History, changes: seq<Change>, c: Change)
    requires |h| > 1 && Proper(h) && RowsOk(s, h[..|h| - 1])
    requires changes == s.changes || changes == s.changes + AddedEvents(s.rows, h[|h| - 1].parts, h[|h| - 1].at)
    requires c in RemovedEvents(Upserted(s.rows, h[|h| - 1].parts, h[|h| - 1].at), changes, h[|h| - 1].at)
    ensures Told(c, h, |h| - 1)
  {
    var n := |h| - 1;
    var rows := Upserted(s.rows, h[n].parts, h[n].at);
    RemovedMembers(rows, changes, h[n].at, c);
    var r :| r in rows && Confirmed(r, changes, h[n].at) && c == RemovedChange(r.part, h[n].at);
    UpsertedRow(s.rows, h[n].parts, h[n].at, c.key);
    RowAtIs(rows, c.key);
    assert RowAt(rows, c.key) == Some(r);
    if changes != s.changes {
      ReportedThroughAdded(s.changes, s.rows, h[n].parts, h[n].at, c.key, r.removedAt.value);
    }
    AbsentOnce(s, h, r, c.key);
    SameSummary(r.part);
  }

  lemma {:induction false} AbsentOnce(s: State, h: History, r: Row, k: Key)
    requires |h| > 1 && RowsOk(s, h[..|h| - 1]) && RowAt(s.rows, k) == Some(r)
    requires r.removedAt.Some? && !Reported(s.changes, k, r.removedAt.value)
    ensures Lists(h, |h| - 3, k, r.part)
  {
    var before := h[..|h| - 1];
    var last := |before| - 1;
    assert RowOk(RowAt(s.rows, k), s.changes, StatusOf(before, k), LastKnown(before, k), k, before[last].at);
    StatusByRounds(before, k);
    assert before[..last] != [] && PartAt(before[last].parts, k).None?;
    assert LastKnown(before, k) == PartAt(before[last - 1].parts, k);
    PartAtIs(before[last - 1].parts, k);
  }

  lemma {:induction false} RoundTold(s: State, h: History, mode: string, c: Change)
    requires |h| > 1 && Proper(h) && RowsOk(s, h[..|h| - 1]) && Latest(s.snaps, mode).Some?
    requires c in Events(s, h[|h| - 1], mode, false)
    ensures Told(c, h, |h| - 1)
  {
    var r := h[|h| - 1];
    var compared := Latest(s.snaps, mode).value.fingerprint != Fingerprint(r.parts);
    var added := if compared then AddedEvents(s.rows, r.parts, r.at) else [];
    assert s.changes + [] == s.changes;
    if c in added {
      AddedTold(h, s.rows, c);
    } else if compared && c in ModifiedEvents(s.rows, r.parts, r.at) {
      ModifiedTold(s, h, c);
    } else {
      RemovedTold(s, h, s.changes + added, c);
    }
  }

  /** Every change ever recorded tells of parts as the snapshots of its round and of the rounds before list them. */
  lemma {:induction false} ChangesTellTruth(h: History, mode: string)
    requires Proper(h)
    ensures TellsTruth(After(h, mode, false).changes, h)
  {
    if h == [] {
    } else {
      var n := |h| - 1;
      var s := After(h[..n], mode, false);
      ProperPrefix(h, n);
      ChangesTellTruth(h[..n], mode);
      AfterIsSound(h[..n], mode, false);
      forall c | c in After(h, mode, false).changes ensures exists i :: Told(c, h, i) {
        if c in s.changes {
          var i :| Told(c, h[..n], i);
          ToldLater(c, h, n, i);
        } else {
          RoundTold(s, h, mode, c);
        }
      }
    }
  }

  // ---------- exactly once ----------

  /** The change is on record, and no other of its part, kind, field and time is. */
  ghost predicate OnRecordOnce(cs: seq<Change>, c: Change)
  {
    exists j :: 0 <= j < |cs| && cs[j] == c && OnlyAt(cs, j)
  }

  /** No other change is of this one's part, kind, field and time. */
  ghost predicate OnlyAt(cs: seq<Change>, j: int)
    requires 0 <= j < |cs|
  {
    forall m :: 0 <= m < |cs| && m != j ==>
      !(cs[m].key == cs[j].key && cs[m].kind == cs[j].kind && cs[m].field == cs[j].field && cs[m].at == cs[j].at)
  }

  ghost predicate NotOnRecord(cs: seq<Change>, k: Key, kind: Kind, field: string, at: int)
  {
    forall m :: 0 <= m < |cs| ==> !(cs[m].key == k && cs[m].kind == kind && cs[m].field == field && cs[m].at == at)
  }

  lemma {:induction false} CountedOnce(cs: seq<Change>, k: Key, kind: Kind, field: string, at: int) returns (j: nat)
    requires Count(cs, k, kind, field, at) == 1
    ensures j < |cs| && IsEvent(cs[j], k, kind, field, at)
    ensures forall m :: 0 <= m < |cs| && IsEvent(cs[m], k, kind, field, at) ==> m == j
  {
    var n := |cs| - 1;
    if IsEvent(cs[n], k, kind, field, at) {
      j := n;
      CountedIsThere(cs[..n], k, kind, field, at);
      assert forall m :: 0 <= m < n ==> cs[..n][m] == cs[m];
    } else {
      j := CountedOnce(cs[..n], k, kind, field, at);
      assert forall m :: 0 <= m < n ==> cs[..n][m] == cs[m];
    }
  }

  /** A report that is expected is on record once and tells of its own round, and one that is not is not on record. */
  lemma {:induction false} ReportOf(h: History, mode: string, i: int, k: Key, kind: Kind, field: string)
    requires Proper(h) && 0 <= i < |h|
    ensures var cs := After(h, mode, false).changes;
            if Expected(h, i, k, kind, field)
            then exists c :: OnRecordOnce(cs, c) && Told(c, h, i) && c.key == k && c.kind == kind && c.field == field
            else NotOnRecord(cs, k, kind, field, h[i].at)
  {
    var cs := After(h, mode, false).changes;
    ReportsAreExact(h, mode, i, k, kind, field);
    if Expected(h, i, k, kind, field) {
      var j := CountedOnce(cs, k, kind, field, h[i].at);
      ChangesTellTruth(h, mode);
      assert cs[j] in cs;
      var m :| Told(cs[j], h, m);
      assert m == i && OnlyAt(cs, j);
      assert OnRecordOnce(cs, cs[j]);
    } else {
      CountedIsThere(cs, k, kind, field, h[i].at);
    }
  }

  /** A modification of this field of the part is on record at the round, once and with these values, if they differ;
      otherwise none is. */
  ghost predicate FieldReported(cs: seq<Change>, k: Key, field: string, old_: string, new_: string, differs: bool,
                                at: int)
  {
    if differs then OnRecordOnce(cs, Change(k, Modified, field, Some(old_), Some(new_), at, 1))
    else NotOnRecord(cs, k, Modified, field, at)
  }

  /** Between two snapshots that list a part, exactly the changes of its serial number, its firmware and its capacity
      are reported, each once, with the part's own values before and after. */
  lemma {:induction false} FieldsAreReported(h: History, mode: string, i: int, k: Key, p: Part, q: Part)
    requires Proper(h) && Lists(h, i - 1, k, p) && Lists(h, i, k, q)
    ensures var cs, at := After(h, mode, false).changes, h[i].at;
            && FieldReported(cs, k, "serial", p.serial, q.serial, p.serial != q.serial, at)
            && FieldReported(cs, k, "firmware", p.firmware, q.firmware, p.firmware != q.firmware, at)
            && FieldReported(cs, k, "capacity_bytes", CapacityText(p), CapacityText(q), p.capacity != q.capacity, at)
  {
    OneFieldReported(h, mode, i, k, p, q, "serial", p.serial, q.serial);
    OneFieldReported(h, mode, i, k, p, q, "firmware", p.firmware, q.firmware);
    TextDiffersWithField(p, q);
    OneFieldReported(h, mode, i, k, p, q, "capacity_bytes", CapacityText(p), CapacityText(q));
  }

  lemma {:induction false} OneFieldReported(h: History, mode: string, i: int, k: Key, p: Part, q: Part, field: string,
                                            old_: string, new_: string)
    requires Proper(h) && Lists(h, i - 1, k, p) && Lists(h, i, k, q)
    requires field in WATCHED && WhitelistValue(p, field) == old_ && WhitelistValue(q, field) == new_
    ensures FieldReported(After(h, mode, false).changes, k, field, old_, new_, old_ != new_, h[i].at)
  {
    PartIsListed(h, i - 1, k);
    PartIsListed(h, i, k);
    ReportOf(h, mode, i, k, Modified, field);
    if old_ != new_ {
      var c :| OnRecordOnce(After(h, mode, false).changes, c) && Told(c, h, i) && c.key == k && c.kind == Modified
        && c.field == field;
      ModificationIs(c, h, i, p, q);
    }
  }

  lemma ModificationIs(c: Change, h: History, i: int, p: Part, q: Part)
    requires Told(c, h, i) && c.kind == Modified && Lists(h, i - 1, c.key, p) && Lists(h, i, c.key, q)
    requires DistinctKeys(h[i - 1].parts) && DistinctKeys(h[i].parts)
    ensures FieldTold(c, p, q) && c.at == h[i].at && c.confirms == 1
  {
    PartIsListed(h, i - 1, c.key);
    PartIsListed(h, i, c.key);
    assert ModificationTold(c, h, i);
  }

  /** A field is never reported modified for a part that one of the two snapshots does not list, nor is any other
      field. */
  lemma {:induction false} NothingElseIsModified(h: History, mode: string, i: int, k: Key, field: string)
    requires Proper(h) && 0 <= i < |h|
    requires Unlisted(h, i - 1, k) || Unlisted(h, i, k)
             || (field != "serial" && field != "firmware" && field != "capacity_bytes")
    ensures NotOnRecord(After(h, mode, false).changes, k, Modified, field, h[i].at)
  {
    if i > 0 { PartIsListed(h, i - 1, k); }
    PartIsListed(h, i, k);
    ReportOf(h, mode, i, k, Modified, field);
  }

  /** The i-th snapshot is the first to list the part, and not the baseline. */
  ghost predicate FirstListed(h: History, i: int, k: Key)
  {
    i > 0 && !Unlisted(h, i, k) && forall j :: 0 <= j < i ==> Unlisted(h, j, k)
  }

  lemma FirstIsExpected(h: History, i: int, k: Key)
    requires 0 <= i < |h|
    ensures FirstListed(h, i, k) <==> Expected(h, i, k, Added, "")
  {
    forall j | 0 <= j <= i ensures In(h, j, k) <==> !Unlisted(h, j, k) { PartIsListed(h, j, k); }
  }

  /** A part's addition is reported at the first snapshot after the baseline that lists it, and only there. */
  lemma {:induction false} AdditionsAreReported(h: History, mode: string, i: int, k: Key, q: Part)
    requires Proper(h) && 0 <= i < |h|
    ensures var cs := After(h, mode, false).changes;
            && (FirstListed(h, i, k) && Lists(h, i, k, q) ==>
                  OnRecordOnce(cs, Change(k, Added, "", None, Some(Described(q)), h[i].at, 1)))
            && (!FirstListed(h, i, k) ==> NotOnRecord(cs, k, Added, "", h[i].at))
  {
    var cs := After(h, mode, false).changes;
    FirstIsExpected(h, i, k);
    PartIsListed(h, i, k);
    ReportOf(h, mode, i, k, Added, "");
    if FirstListed(h, i, k) && Lists(h, i, k, q) {
      var c :| OnRecordOnce(cs, c) && Told(c, h, i) && c.key == k && c.kind == Added && c.field == "";
      AdditionIs(c, h, i, q);
    }
  }

  lemma AdditionIs(c: Change, h: History, i: int, q: Part)
    requires Told(c, h, i) && c.kind == Added && Lists(h, i, c.key, q) && DistinctKeys(h[i].parts)
    ensures c == Change(c.key, Added, "", None, Some(Described(q)), h[i].at, 1)
  {
    PartIsListed(h, i, c.key);
    assert AdditionTold(c, h, i);
  }

  /** The part was listed last two snapshots before. */
  ghost predicate GoneTwice(h: History, i: int, k: Key)
  {
    !Unlisted(h, i - 2, k) && Unlisted(h, i - 1, k) && Unlisted(h, i, k)
  }

  lemma GoneIsExpected(h: History, i: int, k: Key)
    requires 0 <= i < |h|
    ensures GoneTwice(h, i, k) <==> Expected(h, i, k, Removed, "")
  {
    if i > 1 { PartIsListed(h, i - 2, k); }
    if i > 0 { PartIsListed(h, i - 1, k); }
    PartIsListed(h, i, k);
  }

  /** A part's removal is reported at the second snapshot in a row that does not list it, and only there. */
  lemma {:induction false} RemovalsAreReported(h: History, mode: string, i: int, k: Key, p: Part)
    requires Proper(h) && 0 <= i < |h|
    ensures var cs := After(h, mode, false).changes;
            && (GoneTwice(h, i, k) && Lists(h, i - 2, k, p) ==>
                  OnRecordOnce(cs, Change(k, Removed, "", Some(Described(p)), None, h[i].at, 2)))
            && (!GoneTwice(h, i, k) ==> NotOnRecord(cs, k, Removed, "", h[i].at))
  {
    var cs := After(h, mode, false).changes;
    GoneIsExpected(h, i, k);
    ReportOf(h, mode, i, k, Removed, "");
    if GoneTwice(h, i, k) && Lists(h, i - 2, k, p) {
      var c :| OnRecordOnce(cs, c) && Told(c, h, i) && c.key == k && c.kind == Removed && c.field == "";
      RemovalIs(c, h, i, p);
    }
  }

  lemma RemovalIs(c: Change, h: History, i: int, p: Part)
    requires Told(c, h, i) && c.kind == Removed && Lists(h, i - 2, c.key, p) && DistinctKeys(h[i - 2].parts)
    ensures c == Change(c.key, Removed, "", Some(Described(p)), None, h[i].at, 2)
  {
    PartIsListed(h, i - 2, c.key);
    assert RemovalTold(c, h, i);
  }

  // ---------- snapshots ----------

  /** The latest snapshot of a mode is the newest, and of equally old ones the one stored last. */
  lemma {:induction false} LatestTells(snaps: seq<Snap>, mode: string)
    ensures Latest(snaps, mode).None? ==> forall i :: 0 <= i < |snaps| ==> snaps[i].mode != mode
    ensures Latest(snaps, mode).Some? ==>
              exists i :: 0 <= i < |snaps| && snaps[i] == Latest(snaps, mode).value && IsLatest(snaps, mode, i)
  {
    if snaps == [] {
    } else {
      var n := |snaps| - 1;
      LatestTells(snaps[..n], mode);
      assert forall i :: 0 <= i < n ==> snaps[..n][i] == snaps[i];
      if Latest(snaps, mode).Some? {
        var i := n;
        var before := Latest(snaps[..n], mode);
        if before.Some? && !(snaps[n].mode == mode && snaps[n].at >= before.value.at) {
          i :| 0 <= i < n && snaps[..n][i] == Latest(snaps[..n], mode).value && IsLatest(snaps[..n], mode, i);
        }
        assert snaps[i] == Latest(snaps, mode).value && IsLatest(snaps, mode, i);
      }
    }
  }

  ghost predicate IsLatest(snaps: seq<Snap>, mode: string, i: int)
  {
    && 0 <= i < |snaps| && snaps[i].mode == mode
    && forall j :: 0 <= j < |snaps| && snaps[j].mode == mode && j != i ==>
         snaps[j].at < snaps[i].at || (snaps[j].at == snaps[i].at && j < i)
  }

  lemma {:induction false} OneSnapshot(s: State, r: Round, mode: string)
    ensures Ingested(s, r, mode, false).snaps == s.snaps + [Taken(r, mode, Latest(s.snaps, mode))]
  {
  }

  lemma {:induction false} TakenTells(s: State, h: History, mode: string)
    requires h != [] && SnapsOk(s, h[..|h| - 1], mode)
    ensures Taken(h[|h| - 1], mode, Latest(s.snaps, mode)) == SnapshotOf(h, mode, |h| - 1)
  {
  }

  /** A snapshot keeps its parts unless the fingerprint is that of the round before. */
  function SnapshotOf(h: History, mode: string, i: nat): Snap
    requires i < |h|
  {
    var fingerprint := Fingerprint(h[i].parts);
    Snap(mode, h[i].at, fingerprint,
         if i > 0 && Fingerprint(h[i - 1].parts) == fingerprint then None else Some(h[i].parts))
  }

  ghost predicate SnapshotsKept(snaps: seq<Snap>, h: History, mode: string)
  {
    |snaps| == |h| && forall i :: 0 <= i < |h| ==> snaps[i] == SnapshotOf(h, mode, i)
  }

  lemma OneMoreKept(snaps: seq<Snap>, h: History, mode: string)
    requires h != [] && SnapshotsKept(snaps, h[..|h| - 1], mode)
    ensures SnapshotsKept(snaps + [SnapshotOf(h, mode, |h| - 1)], h, mode)
  {
    var n := |h| - 1;
    forall i | 0 <= i < n ensures SnapshotOf(h[..n], mode, i) == SnapshotOf(h, mode, i) {
      assert h[..n][i] == h[i] && (i > 0 ==> h[..n][i - 1] == h[i - 1]);
    }
  }

  /** Every round leaves one snapshot. */
  lemma {:induction false} SnapshotsTell(h: History, mode: string)
    requires Proper(h)
    ensures SnapshotsKept(After(h, mode, false).snaps, h, mode)
  {
    if h == [] {
    } else {
      var n := |h| - 1;
      var s := After(h[..n], mode, false);
      ProperPrefix(h, n);
      AfterIsSound(h[..n], mode, false);
      SnapshotsTell(h[..n], mode);
      OneSnapshot(s, h[n], mode);
      TakenTells(s, h, mode);
      OneMoreKept(s.snaps, h, mode);
    }
  }
}
