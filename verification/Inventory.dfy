/** Hardware change detection for one host: part rows, snapshots, and the change events they give rise to. Times are
    whole seconds, as the tables keep them. */
module Inventory {
  import opened Ordering

  // ---------- parts ----------

  datatype Part = Part(category: string, slot: string, name: string, serial: string, firmware: string,
                       capacity: Option<int>, extra: string)

  /** A row of host_component; rows stand in the order of their ids. */
  datatype Row = Row(part: Part, firstSeen: int, lastSeen: int, removedAt: Option<int>)

  /** A part's identity: its category and its slot. */
  type Key = (string, string)

  function KeyOf(p: Part): Key { (p.category, p.slot) }

  function RowKey(r: Row): Key { KeyOf(r.part) }

  function Summary(p: Part): string
  {
    if p.serial == "" then p.name else p.name + " (SN:" + p.serial + ")"
  }

  const WATCHED: seq<string> := ["serial", "capacity_bytes", "firmware"]  // modifiedFields

  function WhitelistValue(p: Part, field: string): string
  {
    if field == "serial" then p.serial
    else if field == "firmware" then p.firmware
    else if field == "capacity_bytes" then (if p.capacity.None? then "" else FormatInt(p.capacity.value))
    else ""
  }

  datatype Kind = Added | Removed | Modified

  datatype Change = Change(key: Key, kind: Kind, field: string, oldValue: Option<string>, newValue: Option<string>,
                           at: int, confirms: nat)

  function AddedChange(p: Part, at: int): Change { Change(KeyOf(p), Added, "", None, Some(Summary(p)), at, 1) }

  function RemovedChange(p: Part, at: int): Change { Change(KeyOf(p), Removed, "", Some(Summary(p)), None, at, 2) }

  function ModifiedChange(was: Part, p: Part, field: string, at: int): Change
  {
    Change(KeyOf(p), Modified, field, Some(WhitelistValue(was, field)), Some(WhitelistValue(p, field)), at, 1)
  }

  ghost predicate DistinctKeys(parts: seq<Part>)
  {
    forall i, j :: 0 <= i < j < |parts| ==> KeyOf(parts[i]) != KeyOf(parts[j])
  }

  ghost predicate DistinctRows(rows: seq<Row>)
  {
    forall i, j :: 0 <= i < j < |rows| ==> RowKey(rows[i]) != RowKey(rows[j])
  }

  function PartAt(parts: seq<Part>, k: Key): Option<Part>
  {
    if parts == [] then None
    else if KeyOf(parts[|parts| - 1]) == k then Some(parts[|parts| - 1])
    else PartAt(parts[..|parts| - 1], k)
  }

  function RowAt(rows: seq<Row>, k: Key): Option<Row>
  {
    if rows == [] then None else if RowKey(rows[0]) == k then Some(rows[0]) else RowAt(rows[1..], k)
  }

  lemma {:induction false} PartAtIs(parts: seq<Part>, k: Key)
    ensures PartAt(parts, k).Some? ==> PartAt(parts, k).value in parts && KeyOf(PartAt(parts, k).value) == k
    ensures forall i :: 0 <= i < |parts| && KeyOf(parts[i]) == k ==> PartAt(parts, k).Some?
    ensures DistinctKeys(parts) ==> forall i :: 0 <= i < |parts| && KeyOf(parts[i]) == k
                                     ==> PartAt(parts, k) == Some(parts[i])
  {
    if parts == [] {
    } else {
      PartAtIs(parts[..|parts| - 1], k);
    }
  }

  lemma {:induction false} RowAtIs(rows: seq<Row>, k: Key)
    ensures RowAt(rows, k).Some? ==> RowAt(rows, k).value in rows && RowKey(RowAt(rows, k).value) == k
    ensures forall i :: 0 <= i < |rows| && RowKey(rows[i]) == k ==> RowAt(rows, k).Some?
    ensures DistinctRows(rows) ==> forall i :: 0 <= i < |rows| && RowKey(rows[i]) == k
                                    ==> RowAt(rows, k) == Some(rows[i])
  {
    if rows == [] {
    } else {
      RowAtIs(rows[1..], k);
    }
  }

  // ---------- fingerprints ----------

  /** What a fingerprint covers: identity and watched fields. */
  datatype Minimal = Minimal(category: string, slot: string, serial: string, firmware: string, capacity: Option<int>)

  function MinimalOf(p: Part): Minimal { Minimal(p.category, p.slot, p.serial, p.firmware, p.capacity) }

  /** Sorting by category, then slot. */
  predicate MinimalLeq(a: Minimal, b: Minimal)
  {
    if a.category != b.category then StrLess(a.category, b.category) else StrLeq(a.slot, b.slot)
  }

  function Minimals(parts: seq<Part>): seq<Minimal>
  {
    seq(|parts|, i requires 0 <= i < |parts| => MinimalOf(parts[i]))
  }

  /** The sorted list; the SHA-1 of its JSON text is taken to be injective. */
  function Fingerprint(parts: seq<Part>): seq<Minimal> { Sort(MinimalLeq, Minimals(parts)) }

  /** Equal fingerprints: the same parts with the same watched fields. */
  lemma {:induction false} SameFingerprint(a: seq<Part>, b: seq<Part>, k: Key)
    requires DistinctKeys(a) && DistinctKeys(b) && Fingerprint(a) == Fingerprint(b)
    ensures PartAt(a, k).Some? <==> PartAt(b, k).Some?
    ensures PartAt(a, k).Some? ==> MinimalOf(PartAt(a, k).value) == MinimalOf(PartAt(b, k).value)
  {
    SortPermutes(MinimalLeq, Minimals(a));
    SortPermutes(MinimalLeq, Minimals(b));
    SameMembers(Minimals(a), Minimals(b));
    Listed(a, b, k);
    Listed(b, a, k);
  }

  lemma {:induction false} Listed(a: seq<Part>, b: seq<Part>, k: Key)
    requires DistinctKeys(b) && forall m :: m in Minimals(a) ==> m in Minimals(b)
    ensures PartAt(a, k).Some? ==> PartAt(b, k).Some? && MinimalOf(PartAt(b, k).value) == MinimalOf(PartAt(a, k).value)
  {
    PartAtIs(a, k);
    PartAtIs(b, k);
    if PartAt(a, k).Some? {
      var p := PartAt(a, k).value;
      var i :| 0 <= i < |a| && a[i] == p;
      assert Minimals(a)[i] == MinimalOf(p) && MinimalOf(p) in Minimals(a);
      var j :| 0 <= j < |b| && Minimals(b)[j] == MinimalOf(p);
      assert KeyOf(b[j]) == k;
    }
  }

  lemma MinimalLeqIsLinear()
    ensures Linear(MinimalLeq)
  {
    StrLeqIsLinear();
    forall a, b ensures MinimalLeq(a, b) || MinimalLeq(b, a) {
      StrLessTotal(a.category, b.category);
      StrLessTotal(a.slot, b.slot);
    }
    forall a, b, c | MinimalLeq(a, b) && MinimalLeq(b, c) ensures MinimalLeq(a, c) {
      if a.category != b.category && b.category != c.category {
        StrLessTrans(a.category, b.category, c.category);
        StrLessAsym(a.category, c.category);
      }
    }
  }

  lemma SameMinimal(a: seq<Part>, x: Minimal, y: Minimal)
    requires DistinctKeys(a) && x in Minimals(a) && y in Minimals(a) && MinimalLeq(x, y) && MinimalLeq(y, x)
    ensures x == y
  {
    StrLeqIsLinear();
    if StrLess(x.category, y.category) { StrLessAsym(x.category, y.category); }
    var i :| 0 <= i < |a| && Minimals(a)[i] == x;
    var j :| 0 <= j < |a| && Minimals(a)[j] == y;
    assert KeyOf(a[i]) == KeyOf(a[j]);
  }

  /** The fingerprint does not depend on the order in which a snapshot lists its parts. */
  lemma PartOrderIsIrrelevant(a: seq<Part>, b: seq<Part>)
    requires DistinctKeys(a) && DistinctKeys(b) && forall p :: p in a <==> p in b
    ensures Fingerprint(a) == Fingerprint(b)
  {
    SameMinimals(a, b);
    MinimalLeqIsLinear();
    SortSorts(MinimalLeq, Minimals(a));
    SortSorts(MinimalLeq, Minimals(b));
    SortPermutes(MinimalLeq, Minimals(a));
    SortPermutes(MinimalLeq, Minimals(b));
    SameMembers(Fingerprint(a), Minimals(a));
    forall x, y | x in Fingerprint(a) && y in Fingerprint(a) && MinimalLeq(x, y) && MinimalLeq(y, x) ensures x == y {
      SameMinimal(a, x, y);
    }
    SortedUnique(MinimalLeq, Fingerprint(a), Fingerprint(b));
  }

  lemma SameMinimals(a: seq<Part>, b: seq<Part>)
    requires DistinctKeys(a) && DistinctKeys(b) && forall p :: p in a <==> p in b
    ensures multiset(Minimals(a)) == multiset(Minimals(b))
  {
    DistinctMinimals(a);
    DistinctMinimals(b);
    forall m ensures m in Minimals(a) <==> m in Minimals(b) {
      MinimalListed(a, b, m);
      MinimalListed(b, a, m);
    }
    DistinctSameMembers(Minimals(a), Minimals(b));
  }

  lemma DistinctMinimals(a: seq<Part>)
    requires DistinctKeys(a)
    ensures Distinct(Minimals(a))
  {
    forall i, j | 0 <= i < j < |a| ensures Minimals(a)[i] != Minimals(a)[j] { assert KeyOf(a[i]) != KeyOf(a[j]); }
  }

  lemma MinimalListed(a: seq<Part>, b: seq<Part>, m: Minimal)
    requires forall p :: p in a ==> p in b
    ensures m in Minimals(a) ==> m in Minimals(b)
  {
    if m in Minimals(a) {
      var i :| 0 <= i < |a| && Minimals(a)[i] == m;
      assert a[i] in b;
      var j :| 0 <= j < |b| && b[j] == a[i];
      assert Minimals(b)[j] == m;
    }
  }

  // ---------- one round ----------

  /** Inserts a part, or refreshes its row and clears a removal mark. */
  function UpsertOne(rows: seq<Row>, p: Part, at: int): seq<Row>
  {
    if rows == [] then [Row(p, at, at, None)]
    else if RowKey(rows[0]) == KeyOf(p) then [Row(p, rows[0].firstSeen, at, None)] + rows[1..]
    else [rows[0]] + UpsertOne(rows[1..], p, at)
  }

  function Upserted(rows: seq<Row>, parts: seq<Part>, at: int): seq<Row>
  {
    if parts == [] then rows else UpsertOne(Upserted(rows, parts[..|parts| - 1], at), parts[|parts| - 1], at)
  }

  ghost predicate Reported(changes: seq<Change>, k: Key, since: int)
  {
    exists i :: 0 <= i < |changes| && changes[i].key == k && changes[i].kind == Removed && changes[i].at >= since
  }

  predicate Missing(r: Row, at: int) { r.lastSeen < at }

  /** A row missing for the first time is marked. */
  function Marked(r: Row, at: int): Row
  {
    if Missing(r, at) && r.removedAt.None? then r.(removedAt := Some(at)) else r
  }

  function MarkedRows(rows: seq<Row>, at: int): seq<Row>
  {
    seq(|rows|, i requires 0 <= i < |rows| => Marked(rows[i], at))
  }

  /** A row missing again, and not yet reported since it was marked. */
  ghost predicate Confirmed(r: Row, changes: seq<Change>, at: int)
  {
    Missing(r, at) && r.removedAt.Some? && !Reported(changes, RowKey(r), r.removedAt.value)
  }

  ghost function RemovedEvents(rows: seq<Row>, changes: seq<Change>, at: int): seq<Change>
  {
    if rows == [] then []
    else
      var n := |rows| - 1;
      RemovedEvents(rows[..n], changes, at)
        + (if Confirmed(rows[n], changes, at) then [RemovedChange(rows[n].part, at)] else [])
  }

  function AddedEvents(rows: seq<Row>, parts: seq<Part>, at: int): seq<Change>
  {
    if parts == [] then []
    else
      var p := parts[|parts| - 1];
      AddedEvents(rows, parts[..|parts| - 1], at) + NewEvents(RowAt(rows, KeyOf(p)), p, at)
  }

  function NewEvents(row: Option<Row>, p: Part, at: int): seq<Change>
  {
    if row.None? then [AddedChange(p, at)] else []
  }

  function FieldEvents(was: Part, p: Part, fields: seq<string>, at: int): seq<Change>
  {
    if fields == [] then []
    else
      var f := fields[|fields| - 1];
      FieldEvents(was, p, fields[..|fields| - 1], at) + FieldEvent(was, p, f, at)
  }

  function FieldEvent(was: Part, p: Part, field: string, at: int): seq<Change>
  {
    if WhitelistValue(was, field) == WhitelistValue(p, field) then [] else [ModifiedChange(was, p, field, at)]
  }

  /** The watched fields of a part that differ from its row, if the row is in service. */
  function PartEvents(row: Option<Row>, p: Part, at: int): seq<Change>
  {
    if row.None? || row.value.removedAt.Some? then [] else FieldEvents(row.value.part, p, WATCHED, at)
  }

  function ModifiedEvents(rows: seq<Row>, parts: seq<Part>, at: int): seq<Change>
  {
    if parts == [] then []
    else
      var p := parts[|parts| - 1];
      ModifiedEvents(rows, parts[..|parts| - 1], at) + PartEvents(RowAt(rows, KeyOf(p)), p, at)
  }

  /** A snapshot keeps its parts only when the fingerprint is new. */
  datatype Snap = Snap(mode: string, at: int, fingerprint: seq<Minimal>, payload: Option<seq<Part>>)
  datatype State = State(rows: seq<Row>, snaps: seq<Snap>, changes: seq<Change>)

  /** The newest snapshot of the mode, the later-stored one of two with equal times. */
  function Latest(snaps: seq<Snap>, mode: string): Option<Snap>
  {
    if snaps == [] then None
    else
      var x, before := snaps[|snaps| - 1], Latest(snaps[..|snaps| - 1], mode);
      if x.mode == mode && (before.None? || x.at >= before.value.at) then Some(x) else before
  }

  datatype Round = Round(parts: seq<Part>, at: int)

  function Taken(r: Round, mode: string, prev: Option<Snap>): Snap
  {
    var fingerprint := Fingerprint(r.parts);
    Snap(mode, r.at, fingerprint, if prev.Some? && prev.value.fingerprint == fingerprint then None else Some(r.parts))
  }

  /** The events of a round that is not the first: the removal check, and when compared the additions before and the
      modifications after it. */
  ghost function RoundEvents(compared: bool, known: seq<Row>, rows: seq<Row>, changes: seq<Change>, parts: seq<Part>,
                             at: int)
      : seq<Change>
  {
    var added := if compared then AddedEvents(known, parts, at) else [];
    var modified := if compared then ModifiedEvents(known, parts, at) else [];
    added + RemovedEvents(rows, changes + added, at) + modified
  }

  /** One snapshot taken in; `always` compares it even when the fingerprint is unchanged. */
  ghost function Ingested(s: State, r: Round, mode: string, always: bool): State
  {
    var rows, prev := Upserted(s.rows, r.parts, r.at), Latest(s.snaps, mode);
    var snaps := s.snaps + [Taken(r, mode, prev)];
    if prev.None? then State(rows, snaps, s.changes)
    else
      var compared := always || prev.value.fingerprint != Fingerprint(r.parts);
      State(MarkedRows(rows, r.at), snaps, s.changes + RoundEvents(compared, s.rows, rows, s.changes, r.parts, r.at))
  }

  // ---------- what a round does to the rows ----------

  lemma {:induction false} UpsertOneRow(rows: seq<Row>, p: Part, at: int, k: Key)
    ensures RowAt(UpsertOne(rows, p, at), k)
         == if KeyOf(p) == k then
              Some(Row(p, if RowAt(rows, k).Some? then RowAt(rows, k).value.firstSeen else at, at, None))
            else RowAt(rows, k)
  {
    if rows != [] && RowKey(rows[0]) != KeyOf(p) {
      UpsertOneRow(rows[1..], p, at, k);
      assert UpsertOne(rows, p, at)[1..] == UpsertOne(rows[1..], p, at);
    } else if rows != [] {
      assert UpsertOne(rows, p, at)[1..] == rows[1..];
    }
  }

  lemma {:induction false} UpsertOneDistinct(rows: seq<Row>, p: Part, at: int)
    requires DistinctRows(rows)
    ensures DistinctRows(UpsertOne(rows, p, at))
    ensures forall i :: 0 <= i < |UpsertOne(rows, p, at)| ==>
              RowKey(UpsertOne(rows, p, at)[i]) == KeyOf(p)
              || exists j :: 0 <= j < |rows| && RowKey(rows[j]) == RowKey(UpsertOne(rows, p, at)[i])
  {
    var next := UpsertOne(rows, p, at);
    if rows != [] && RowKey(rows[0]) != KeyOf(p) {
      UpsertOneDistinct(rows[1..], p, at);
      var rest := UpsertOne(rows[1..], p, at);
      assert next == [rows[0]] + rest;
      forall i | 0 <= i < |rest| ensures RowKey(rest[i]) != RowKey(rows[0])
        && (RowKey(rest[i]) == KeyOf(p) || exists j :: 0 <= j < |rows| && RowKey(rows[j]) == RowKey(rest[i])) {
        if RowKey(rest[i]) != KeyOf(p) {
          var j :| 0 <= j < |rows[1..]| && RowKey(rows[1..][j]) == RowKey(rest[i]);
          assert rows[j + 1] == rows[1..][j];
        }
      }
    } else if rows != [] {
      assert forall i :: 1 <= i < |rows| ==> next[i] == rows[i];
      assert RowKey(next[0]) == RowKey(rows[0]);
    }
  }

  /** A part of the snapshot is seen and in service; the other rows are untouched. */
  lemma {:induction false} UpsertedRow(rows: seq<Row>, parts: seq<Part>, at: int, k: Key)
    requires DistinctRows(rows)
    ensures DistinctRows(Upserted(rows, parts, at))
    ensures PartAt(parts, k).None? ==> RowAt(Upserted(rows, parts, at), k) == RowAt(rows, k)
    ensures PartAt(parts, k).Some? ==>
              var r := RowAt(Upserted(rows, parts, at), k);
              r.Some? && r.value.part == PartAt(parts, k).value && r.value.lastSeen == at && r.value.removedAt.None?
  {
    if parts == [] {
    } else {
      var n := |parts| - 1;
      UpsertedRow(rows, parts[..n], at, k);
      UpsertOneRow(Upserted(rows, parts[..n], at), parts[n], at, k);
      UpsertOneDistinct(Upserted(rows, parts[..n], at), parts[n], at);
    }
  }

  lemma {:induction false} MarkedRow(rows: seq<Row>, at: int, k: Key)
    ensures RowAt(MarkedRows(rows, at), k) == match RowAt(rows, k) case None => None case Some(r) => Some(Marked(r, at))
  {
    if rows == [] {
    } else {
      MarkedRow(rows[1..], at, k);
      assert MarkedRows(rows, at)[1..] == MarkedRows(rows[1..], at);
    }
  }

  lemma MarkedDistinct(rows: seq<Row>, at: int)
    requires DistinctRows(rows)
    ensures DistinctRows(MarkedRows(rows, at))
  {
  }

  // ---------- counting events ----------

  predicate IsEvent(c: Change, k: Key, kind: Kind, field: string, at: int)
  {
    c.key == k && c.kind == kind && c.field == field && c.at == at
  }

  function Count(cs: seq<Change>, k: Key, kind: Kind, field: string, at: int): nat
  {
    if cs == [] then 0
    else Count(cs[..|cs| - 1], k, kind, field, at) + (if IsEvent(cs[|cs| - 1], k, kind, field, at) then 1 else 0)
  }

  lemma {:induction false} CountSplit(a: seq<Change>, b: seq<Change>, k: Key, kind: Kind, field: string, at: int)
    ensures Count(a + b, k, kind, field, at) == Count(a, k, kind, field, at) + Count(b, k, kind, field, at)
  {
    if b == [] {
      assert a + b == a;
    } else {
      var n := |b| - 1;
      CountSplit(a, b[..n], k, kind, field, at);
      assert (a + b)[..|a + b| - 1] == a + b[..n];
    }
  }

  lemma {:induction false} CountNone(cs: seq<Change>, k: Key, kind: Kind, field: string, at: int)
    requires forall i :: 0 <= i < |cs| ==> cs[i].at != at
    ensures Count(cs, k, kind, field, at) == 0
  {
    if cs == [] {
    } else {
      CountNone(cs[..|cs| - 1], k, kind, field, at);
    }
  }

  lemma {:induction false} CountNew(row: Option<Row>, p: Part, at: int, k: Key, kind: Kind, field: string)
    ensures Count(NewEvents(row, p, at), k, kind, field, at)
         == if kind == Added && field == "" && KeyOf(p) == k && row.None? then 1 else 0
  {
    if row.None? { assert [AddedChange(p, at)][..0] == []; }
  }

  lemma {:induction false} CountAdded(rows: seq<Row>, parts: seq<Part>, at: int, k: Key, kind: Kind, field: string)
    requires DistinctKeys(parts)
    ensures Count(AddedEvents(rows, parts, at), k, kind, field, at)
         == if kind == Added && field == "" && PartAt(parts, k).Some? && RowAt(rows, k).None? then 1 else 0
    ensures forall c :: c in AddedEvents(rows, parts, at) ==> c.at == at && c.kind == Added
  {
    if parts == [] {
    } else {
      var n := |parts| - 1;
      CountAdded(rows, parts[..n], at, k, kind, field);
      CountNew(RowAt(rows, KeyOf(parts[n])), parts[n], at, k, kind, field);
      CountSplit(AddedEvents(rows, parts[..n], at), NewEvents(RowAt(rows, KeyOf(parts[n])), parts[n], at), k, kind,
        field, at);
      PartAtIs(parts[..n], k);
    }
  }

  ghost predicate ConfirmedKey(rows: seq<Row>, changes: seq<Change>, at: int, k: Key)
  {
    exists i :: 0 <= i < |rows| && RowKey(rows[i]) == k && Confirmed(rows[i], changes, at)
  }

  lemma ConfirmedLast(rows: seq<Row>, changes: seq<Change>, at: int, k: Key)
    requires rows != [] && DistinctRows(rows)
    ensures var n := |rows| - 1;
            && (ConfirmedKey(rows, changes, at, k) <==>
                  ConfirmedKey(rows[..n], changes, at, k) || (RowKey(rows[n]) == k && Confirmed(rows[n], changes, at)))
            && (RowKey(rows[n]) == k ==> !ConfirmedKey(rows[..n], changes, at, k))
  {
    var n := |rows| - 1;
    if ConfirmedKey(rows[..n], changes, at, k) {
      var i :| 0 <= i < n && RowKey(rows[..n][i]) == k && Confirmed(rows[..n][i], changes, at);
      assert rows[i] == rows[..n][i];
    }
    if ConfirmedKey(rows, changes, at, k) {
      var i :| 0 <= i < |rows| && RowKey(rows[i]) == k && Confirmed(rows[i], changes, at);
      assert i < n ==> rows[i] == rows[..n][i];
    }
  }

  lemma {:induction false} CountRemoved(rows: seq<Row>, changes: seq<Change>, at: int, k: Key, kind: Kind,
                                        field: string)
    requires DistinctRows(rows)
    ensures Count(RemovedEvents(rows, changes, at), k, kind, field, at)
         == if kind == Removed && field == "" && ConfirmedKey(rows, changes, at, k) then 1 else 0
    ensures forall c :: c in RemovedEvents(rows, changes, at) ==> c.at == at && c.kind == Removed
  {
    if rows == [] {
    } else {
      var n := |rows| - 1;
      CountRemoved(rows[..n], changes, at, k, kind, field);
      CountSplit(RemovedEvents(rows[..n], changes, at),
        if Confirmed(rows[n], changes, at) then [RemovedChange(rows[n].part, at)] else [],
                 k, kind, field, at);
      ConfirmedLast(rows, changes, at, k);
    }
  }

  lemma {:induction false} CountFields(was: Part, p: Part, fields: seq<string>, at: int, k: Key, kind: Kind,
                                       field: string)
    requires Distinct(fields)
    ensures Count(FieldEvents(was, p, fields, at), k, kind, field, at)
         == if KeyOf(p) == k && kind == Modified && field in fields
           && WhitelistValue(was, field) != WhitelistValue(p, field) then 1 else 0
    ensures forall c :: c in FieldEvents(was, p, fields, at) ==> c.at == at && c.kind == Modified
  {
    if fields == [] {
    } else {
      var n := |fields| - 1;
      var f := fields[n];
      CountFields(was, p, fields[..n], at, k, kind, field);
      CountSplit(FieldEvents(was, p, fields[..n], at), FieldEvent(was, p, f, at), k, kind, field, at);
      assert field in fields <==> field in fields[..n] || field == f;
    }
  }

  /** The watched field of a part differs from its row, which is in service. */
  predicate Differs(row: Option<Row>, p: Option<Part>, field: string)
  {
    && row.Some? && row.value.removedAt.None? && p.Some? && field in WATCHED
    && WhitelistValue(row.value.part, field) != WhitelistValue(p.value, field)
  }

  lemma {:induction false} CountPart(row: Option<Row>, p: Part, at: int, k: Key, kind: Kind, field: string)
    ensures Count(PartEvents(row, p, at), k, kind, field, at)
         == if kind == Modified && KeyOf(p) == k && Differs(row, Some(p), field) then 1 else 0
    ensures forall c :: c in PartEvents(row, p, at) ==> c.at == at && c.kind == Modified
  {
    if row.Some? && row.value.removedAt.None? { CountFields(row.value.part, p, WATCHED, at, k, kind, field); }
  }

  lemma {:induction false} CountModified(rows: seq<Row>, parts: seq<Part>, at: int, k: Key, kind: Kind, field: string)
    requires DistinctKeys(parts)
    ensures Count(ModifiedEvents(rows, parts, at), k, kind, field, at)
         == if kind == Modified && Differs(RowAt(rows, k), PartAt(parts, k), field) then 1 else 0
    ensures forall c :: c in ModifiedEvents(rows, parts, at) ==> c.at == at && c.kind == Modified
  {
    if parts == [] {
    } else {
      var n := |parts| - 1;
      var p := parts[n];
      var row := RowAt(rows, KeyOf(p));
      CountModified(rows, parts[..n], at, k, kind, field);
      CountPart(row, p, at, k, kind, field);
      CountSplit(ModifiedEvents(rows, parts[..n], at), PartEvents(row, p, at), k, kind, field, at);
      PartAtIs(parts[..n], k);
    }
  }

  // ---------- histories ----------

  type History = seq<Round>

  ghost predicate Proper(h: History)
  {
    (forall i, j :: 0 <= i < j < |h| ==> h[i].at < h[j].at) && forall i :: 0 <= i < |h| ==> DistinctKeys(h[i].parts)
  }

  ghost function After(h: History, mode: string, always: bool): State
  {
    if h == [] then State([], [], []) else Ingested(After(h[..|h| - 1], mode, always), h[|h| - 1], mode, always)
  }

  predicate In(h: History, i: int, k: Key) { 0 <= i < |h| && PartAt(h[i].parts, k).Some? }

  /** A part's standing after a history: never seen, in the latest snapshot, or absent for some rounds. */
  datatype Status = Unknown | Present | Absent(rounds: nat)

  function StatusOf(h: History, k: Key): Status
  {
    if h == [] then Unknown
    else if PartAt(h[|h| - 1].parts, k).Some? then Present
    else
      match StatusOf(h[..|h| - 1], k)
      case Unknown => Unknown
      case Present => Absent(1)
      case Absent(n) => Absent(n + 1)
  }

  /** The newest description of a part. */
  function LastKnown(h: History, k: Key): Option<Part>
  {
    if h == [] then None
    else if PartAt(h[|h| - 1].parts, k).Some? then PartAt(h[|h| - 1].parts, k)
    else LastKnown(h[..|h| - 1], k)
  }

  /** A part's row and reports agree with its standing: it is marked at its first absence and reported at its second. */
  ghost predicate RowOk(row: Option<Row>, changes: seq<Change>, status: Status, part: Option<Part>, k: Key, now: int)
  {
    match status
    case Unknown => row.None? && part.None?
    case Present => row.Some? && part == Some(row.value.part) && row.value.lastSeen == now && row.value.removedAt.None?
    case Absent(n) =>
      && row.Some? && part == Some(row.value.part) && row.value.lastSeen < now && row.value.removedAt.Some? && n > 0
      && (n == 1 ==> row.value.removedAt.value == now && !Reported(changes, k, now))
      && (n > 1 ==> row.value.removedAt.value < now && Reported(changes, k, row.value.removedAt.value))
  }

  ghost predicate ChangesBy(changes: seq<Change>, now: int)
  {
    forall i :: 0 <= i < |changes| ==> changes[i].at <= now
  }

  ghost predicate SnapsOk(s: State, h: History, mode: string)
  {
    if h == [] then s.snaps == []
    else
      var last := h[|h| - 1];
      && Latest(s.snaps, mode).Some? && Latest(s.snaps, mode).value.at == last.at
      && Latest(s.snaps, mode).value.fingerprint == Fingerprint(last.parts)
      && forall i :: 0 <= i < |s.snaps| ==> s.snaps[i].at <= last.at
  }

  ghost predicate RowsOk(s: State, h: History)
  {
    && DistinctRows(s.rows)
    && (h == [] ==> s.rows == [] && s.changes == [])
    && (h != [] ==> ChangesBy(s.changes, h[|h| - 1].at))
    && forall k {:trigger StatusOf(h, k)} :: h != [] ==>
         RowOk(RowAt(s.rows, k), s.changes, StatusOf(h, k), LastKnown(h, k), k, h[|h| - 1].at)
  }

  lemma ProperPrefix(h: History, n: nat)
    requires Proper(h) && n <= |h|
    ensures Proper(h[..n])
  {
  }

  lemma SnapsKept(s: State, h: History, mode: string, always: bool)
    requires h != [] && Proper(h) && SnapsOk(s, h[..|h| - 1], mode)
    ensures SnapsOk(Ingested(s, h[|h| - 1], mode, always), h, mode)
  {
    var last := h[|h| - 1];
    var t := Ingested(s, last, mode, always);
    assert t.snaps[..|t.snaps| - 1] == s.snaps;
  }

  /** The rows after the upsert and the marking of a round. */
  lemma {:induction false} RowAfter(s: State, r: Round, mode: string, always: bool, k: Key)
    requires DistinctRows(s.rows) && DistinctKeys(r.parts)
    ensures var t := Ingested(s, r, mode, always);
            && DistinctRows(t.rows)
            && (PartAt(r.parts, k).Some? ==>
                  RowAt(t.rows, k).Some? && RowAt(t.rows, k).value.part == PartAt(r.parts, k).value
                  && RowAt(t.rows, k).value.lastSeen == r.at && RowAt(t.rows, k).value.removedAt.None?)
            && (PartAt(r.parts, k).None? && RowAt(s.rows, k).None? ==> RowAt(t.rows, k).None?)
            && (PartAt(r.parts, k).None? && RowAt(s.rows, k).Some? ==>
                  RowAt(t.rows, k) == Some(if Latest(s.snaps, mode).None? then RowAt(s.rows, k).value
                    else Marked(RowAt(s.rows, k).value, r.at)))
  {
    UpsertedRow(s.rows, r.parts, r.at, k);
    MarkedRow(Upserted(s.rows, r.parts, r.at), r.at, k);
    MarkedDistinct(Upserted(s.rows, r.parts, r.at), r.at);
  }

  /** The events of a round. */
  ghost function Events(s: State, r: Round, mode: string, always: bool): seq<Change>
    requires Latest(s.snaps, mode).Some?
  {
    var compared := always || Latest(s.snaps, mode).value.fingerprint != Fingerprint(r.parts);
    RoundEvents(compared, s.rows, Upserted(s.rows, r.parts, r.at), s.changes, r.parts, r.at)
  }

  /** Added events do not matter to whether a removal was reported. */
  lemma {:induction false} ReportedThroughAdded(changes: seq<Change>, rows: seq<Row>, parts: seq<Part>, at: int, k: Key,
                                                since: int)
    requires DistinctKeys(parts)
    ensures Reported(changes + AddedEvents(rows, parts, at), k, since) <==> Reported(changes, k, since)
  {
    var added := AddedEvents(rows, parts, at);
    CountAdded(rows, parts, at, k, Added, "");
    if Reported(changes, k, since) {
      var i :| 0 <= i < |changes| && changes[i].key == k && changes[i].kind == Removed && changes[i].at >= since;
      assert (changes + added)[i] == changes[i];
    }
    if Reported(changes + added, k, since) {
      var i :| 0 <= i < |changes + added| && (changes + added)[i].key == k && (changes + added)[i].kind == Removed
        && (changes + added)[i].at >= since;
      if i >= |changes| { assert (changes + added)[i] in added; }
    }
  }

  /** Whether a compared round finds this part added, or this field of it modified. */
  ghost predicate Found(s: State, r: Round, k: Key, kind: Kind, field: string)
  {
    (kind == Added && field == "" && PartAt(r.parts, k).Some? && RowAt(s.rows, k).None?)
    || (kind == Modified && Differs(RowAt(s.rows, k), PartAt(r.parts, k), field))
  }

  /** Whether a round confirms this part's removal. */
  ghost predicate Confirms(s: State, r: Round, k: Key)
  {
    PartAt(r.parts, k).None? && RowAt(s.rows, k).Some? && Confirmed(RowAt(s.rows, k).value, s.changes, r.at)
  }

  lemma {:induction false} CountRemovedRound(s: State, r: Round, added: seq<Change>, k: Key, kind: Kind, field: string)
    requires DistinctRows(s.rows) && DistinctKeys(r.parts)
    requires added == [] || added == AddedEvents(s.rows, r.parts, r.at)
    ensures Count(RemovedEvents(Upserted(s.rows, r.parts, r.at), s.changes + added, r.at), k, kind, field, r.at)
         == if kind == Removed && field == "" && Confirms(s, r, k) then 1 else 0
  {
    var rows := Upserted(s.rows, r.parts, r.at);
    UpsertedRow(s.rows, r.parts, r.at, k);
    CountRemoved(rows, s.changes + added, r.at, k, kind, field);
    RowAtIs(rows, k);
    assert s.changes + [] == s.changes;
    if RowAt(rows, k).Some? && RowAt(rows, k).value.removedAt.Some? {
      ReportedThroughAdded(s.changes, s.rows, r.parts, r.at, k, RowAt(rows, k).value.removedAt.value);
    }
    ConfirmedIsRowAt(rows, s.changes + added, r.at, k);
  }

  lemma {:induction false} ConfirmedIsRowAt(rows: seq<Row>, changes: seq<Change>, at: int, k: Key)
    requires DistinctRows(rows)
    ensures ConfirmedKey(rows, changes, at, k) <==> RowAt(rows, k).Some? && Confirmed(RowAt(rows, k).value, changes, at)
  {
    RowAtIs(rows, k);
    if RowAt(rows, k).Some? {
      var i :| 0 <= i < |rows| && rows[i] == RowAt(rows, k).value;
      assert RowKey(rows[i]) == k;
    }
  }

  lemma {:induction false} CountRound(s: State, r: Round, mode: string, always: bool, k: Key, kind: Kind, field: string)
    requires DistinctRows(s.rows) && DistinctKeys(r.parts) && Latest(s.snaps, mode).Some?
    ensures var compared := always || Latest(s.snaps, mode).value.fingerprint != Fingerprint(r.parts);
            Count(Events(s, r, mode, always), k, kind, field, r.at)
            == if (compared && Found(s, r, k, kind, field)) || (kind == Removed && field == "" && Confirms(s, r, k))
              then 1 else 0
  {
    var compared := always || Latest(s.snaps, mode).value.fingerprint != Fingerprint(r.parts);
    var added := if compared then AddedEvents(s.rows, r.parts, r.at) else [];
    var modified := if compared then ModifiedEvents(s.rows, r.parts, r.at) else [];
    var removed := RemovedEvents(Upserted(s.rows, r.parts, r.at), s.changes + added, r.at);
    CountAdded(s.rows, r.parts, r.at, k, kind, field);
    CountModified(s.rows, r.parts, r.at, k, kind, field);
    CountRemovedRound(s, r, added, k, kind, field);
    CountSplit(added + removed, modified, k, kind, field, r.at);
    CountSplit(added, removed, k, kind, field, r.at);
  }

  /** All events of a round are of its time, and removals name no field. */
  ghost predicate OfRound(cs: seq<Change>, at: int)
  {
    forall c :: c in cs ==> c.at == at && (c.kind == Removed ==> c.field == "")
  }

  lemma OfRoundSum(a: seq<Change>, b: seq<Change>, at: int)
    requires OfRound(a, at) && OfRound(b, at)
    ensures OfRound(a + b, at)
  {
  }

  lemma {:induction false} AddedOfRound(rows: seq<Row>, parts: seq<Part>, at: int)
    ensures OfRound(AddedEvents(rows, parts, at), at)
  {
    if parts == [] {
    } else {
      var n := |parts| - 1;
      AddedOfRound(rows, parts[..n], at);
      OfRoundSum(AddedEvents(rows, parts[..n], at), NewEvents(RowAt(rows, KeyOf(parts[n])), parts[n], at), at);
    }
  }

  lemma {:induction false} FieldsOfRound(was: Part, p: Part, fields: seq<string>, at: int)
    ensures OfRound(FieldEvents(was, p, fields, at), at)
  {
    if fields == [] {
    } else {
      var n := |fields| - 1;
      FieldsOfRound(was, p, fields[..n], at);
      OfRoundSum(FieldEvents(was, p, fields[..n], at), FieldEvent(was, p, fields[n], at), at);
    }
  }

  lemma {:induction false} ModifiedOfRound(rows: seq<Row>, parts: seq<Part>, at: int)
    ensures OfRound(ModifiedEvents(rows, parts, at), at)
  {
    if parts == [] {
    } else {
      var n := |parts| - 1;
      var row := RowAt(rows, KeyOf(parts[n]));
      ModifiedOfRound(rows, parts[..n], at);
      if row.Some? { FieldsOfRound(row.value.part, parts[n], WATCHED, at); }
      OfRoundSum(ModifiedEvents(rows, parts[..n], at), PartEvents(row, parts[n], at), at);
    }
  }

  lemma {:induction false} RemovedOfRound(rows: seq<Row>, changes: seq<Change>, at: int)
    ensures OfRound(RemovedEvents(rows, changes, at), at)
  {
    if rows == [] {
    } else {
      var n := |rows| - 1;
      RemovedOfRound(rows[..n], changes, at);
      OfRoundSum(RemovedEvents(rows[..n], changes, at),
                 if Confirmed(rows[n], changes, at) then [RemovedChange(rows[n].part, at)] else [], at);
    }
  }

  lemma {:induction false} EventsOfRound(s: State, r: Round, mode: string, always: bool)
    requires Latest(s.snaps, mode).Some?
    ensures OfRound(Events(s, r, mode, always), r.at)
  {
    var compared := always || Latest(s.snaps, mode).value.fingerprint != Fingerprint(r.parts);
    var added := if compared then AddedEvents(s.rows, r.parts, r.at) else [];
    var modified := if compared then ModifiedEvents(s.rows, r.parts, r.at) else [];
    var removed := RemovedEvents(Upserted(s.rows, r.parts, r.at), s.changes + added, r.at);
    AddedOfRound(s.rows, r.parts, r.at);
    ModifiedOfRound(s.rows, r.parts, r.at);
    RemovedOfRound(Upserted(s.rows, r.parts, r.at), s.changes + added, r.at);
    OfRoundSum(added, removed, r.at);
    OfRoundSum(added + removed, modified, r.at);
  }

  lemma {:induction false} CountedIsThere(cs: seq<Change>, k: Key, kind: Kind, field: string, at: int)
    ensures Count(cs, k, kind, field, at) > 0 <==> exists i :: 0 <= i < |cs| && IsEvent(cs[i], k, kind, field, at)
  {
    if cs == [] {
    } else {
      var n := |cs| - 1;
      CountedIsThere(cs[..n], k, kind, field, at);
      assert forall i :: 0 <= i < n ==> cs[..n][i] == cs[i];
    }
  }

  lemma ReportedSplit(a: seq<Change>, b: seq<Change>, k: Key, since: int)
    ensures Reported(a + b, k, since) <==> Reported(a, k, since) || Reported(b, k, since)
  {
    var c := a + b;
    if Reported(a, k, since) {
      var i :| 0 <= i < |a| && a[i].key == k && a[i].kind == Removed && a[i].at >= since;
      assert c[i] == a[i];
    }
    if Reported(b, k, since) {
      var i :| 0 <= i < |b| && b[i].key == k && b[i].kind == Removed && b[i].at >= since;
      assert c[|a| + i] == b[i];
    }
    if Reported(c, k, since) {
      var i :| 0 <= i < |c| && c[i].key == k && c[i].kind == Removed && c[i].at >= since;
      assert if i < |a| then c[i] == a[i] else c[i] == b[i - |a|];
    }
  }

  lemma {:induction false} ReportedIsCounted(cs: seq<Change>, k: Key, at: int, since: int)
    requires since <= at && OfRound(cs, at)
    ensures Reported(cs, k, since) <==> Count(cs, k, Removed, "", at) > 0
  {
    CountedIsThere(cs, k, Removed, "", at);
    assert forall i :: 0 <= i < |cs| ==> cs[i] in cs;
  }

  lemma {:induction false} ReportedWith(before: seq<Change>, events: seq<Change>, k: Key, at: int, since: int)
    requires since <= at && OfRound(events, at)
    ensures Reported(before + events, k, since) <==> Reported(before, k, since) || Count(events, k, Removed, "", at) > 0
  {
    ReportedSplit(before, events, k, since);
    ReportedIsCounted(events, k, at, since);
  }

  /** A removal is on record after a round exactly if it was before or this round confirmed it. */
  lemma {:induction false} ReportedAfter(s: State, r: Round, mode: string, always: bool, k: Key, since: int)
    requires DistinctRows(s.rows) && DistinctKeys(r.parts) && Latest(s.snaps, mode).Some? && since <= r.at
    ensures Reported(Ingested(s, r, mode, always).changes, k, since)
            <==> Reported(s.changes, k, since) || Confirms(s, r, k)
  {
    var events := Events(s, r, mode, always);
    CountRound(s, r, mode, always, k, Removed, "");
    EventsOfRound(s, r, mode, always);
    ReportedWith(s.changes, events, k, r.at, since);
  }

  lemma NotReportedLater(changes: seq<Change>, k: Key, now: int, since: int)
    requires ChangesBy(changes, now) && now < since
    ensures !Reported(changes, k, since)
  {
  }

  /** The reference time of a row's removal reports once the round at `at` is over. */
  function Since(row: Row, at: int): int { if row.removedAt.Some? then row.removedAt.value else at }

  lemma AbsentRowOk(row: Row, changes: seq<Change>, next: seq<Change>, was: Status, part: Option<Part>, k: Key,
                    prevAt: int, at: int)
    requires RowOk(Some(row), changes, was, part, k, prevAt) && prevAt < at && ChangesBy(changes, prevAt)
             && RowKey(row) == k
    requires Reported(next, k, Since(row, at)) <==> Reported(changes, k, Since(row, at)) || Confirmed(row, changes, at)
    ensures RowOk(Some(Marked(row, at)), next, if was.Present? then Absent(1) else Absent(was.rounds + 1), part, k, at)
  {
    if was.Present? { NotReportedLater(changes, k, prevAt, at); }
  }

  lemma {:induction false} RowKept(s: State, h: History, mode: string, always: bool, k: Key)
    requires h != [] && Proper(h) && RowsOk(s, h[..|h| - 1]) && SnapsOk(s, h[..|h| - 1], mode)
    ensures var t, last := Ingested(s, h[|h| - 1], mode, always), h[|h| - 1];
            RowOk(RowAt(t.rows, k), t.changes, StatusOf(h, k), LastKnown(h, k), k, last.at)
  {
    var n := |h| - 1;
    var r, before := h[n], h[..n];
    RowAfter(s, r, mode, always, k);
    if n > 0 {
      RowKeptLater(s, before, r, mode, always, k);
    } else {
      assert StatusOf(before, k).Unknown? && LastKnown(before, k).None? && RowAt(s.rows, k).None?;
    }
  }

  lemma {:induction false} RowKeptLater(s: State, before: History, r: Round, mode: string, always: bool, k: Key)
    requires before != [] && RowsOk(s, before) && SnapsOk(s, before, mode) && before[|before| - 1].at < r.at
             && DistinctKeys(r.parts)
    ensures var t, was := Ingested(s, r, mode, always), StatusOf(before, k);
            PartAt(r.parts, k).None? && !was.Unknown? ==>
              RowOk(RowAt(t.rows, k), t.changes, if was.Present? then Absent(1) else Absent(was.rounds + 1),
                LastKnown(before, k), k, r.at)
    ensures StatusOf(before, k).Unknown? ==> RowAt(s.rows, k).None? && LastKnown(before, k).None?
  {
    var prev := before[|before| - 1];
    var was := StatusOf(before, k);
    assert RowOk(RowAt(s.rows, k), s.changes, was, LastKnown(before, k), k, prev.at);
    if PartAt(r.parts, k).None? && !was.Unknown? {
      var row := RowAt(s.rows, k).value;
      RowAtIs(s.rows, k);
      RowAfter(s, r, mode, always, k);
      ReportedAfter(s, r, mode, always, k, Since(row, r.at));
      AbsentRowOk(row, s.changes, Ingested(s, r, mode, always).changes, was, LastKnown(before, k), k, prev.at, r.at);
    }
  }

  lemma RowsKept(s: State, h: History, mode: string, always: bool)
    requires h != [] && Proper(h) && RowsOk(s, h[..|h| - 1]) && SnapsOk(s, h[..|h| - 1], mode)
    ensures RowsOk(Ingested(s, h[|h| - 1], mode, always), h)
  {
    var n := |h| - 1;
    var t := Ingested(s, h[n], mode, always);
    forall k ensures RowOk(RowAt(t.rows, k), t.changes, StatusOf(h, k), LastKnown(h, k), k, h[n].at) {
      RowKept(s, h, mode, always, k);
    }
    RowAfter(s, h[n], mode, always, ("", ""));
    if n > 0 {
      EventsOfRound(s, h[n], mode, always);
      var events := Events(s, h[n], mode, always);
      forall i | 0 <= i < |t.changes| ensures t.changes[i].at <= h[n].at {
        if i >= |s.changes| { assert t.changes[i] == events[i - |s.changes|] && t.changes[i] in events; }
        else { assert t.changes[i] == s.changes[i]; }
      }
    }
  }

  lemma {:induction false} AfterIsSound(h: History, mode: string, always: bool)
    requires Proper(h)
    ensures RowsOk(After(h, mode, always), h) && SnapsOk(After(h, mode, always), h, mode)
  {
    if h == [] {
    } else {
      var n := |h| - 1;
      ProperPrefix(h, n);
      AfterIsSound(h[..n], mode, always);
      SnapsKept(After(h[..n], mode, always), h, mode, always);
      RowsKept(After(h[..n], mode, always), h, mode, always);
    }
  }

  // ---------- main results ----------

  lemma {:induction false} InServiceIsPresent(s: State, h: History, k: Key)
    requires RowsOk(s, h) && h != []
    ensures RowAt(s.rows, k).Some? && RowAt(s.rows, k).value.removedAt.None? <==> PartAt(h[|h| - 1].parts, k).Some?
  {
    assert RowOk(RowAt(s.rows, k), s.changes, StatusOf(h, k), LastKnown(h, k), k, h[|h| - 1].at);
  }

  /** The parts in service are always those of the latest snapshot. */
  lemma {:induction false} InServiceIsLatest(h: History, mode: string, k: Key)
    requires Proper(h) && h != []
    ensures var row := RowAt(After(h, mode, false).rows, k);
            row.Some? && row.value.removedAt.None? <==> PartAt(h[|h| - 1].parts, k).Some?
  {
    AfterIsSound(h, mode, false);
    InServiceIsPresent(After(h, mode, false), h, k);
  }

  /** With an unchanged fingerprint there is nothing to find: every part is known, in service, and as its row says. */
  lemma {:induction false} UnchangedFindsNothing(rows: seq<Row>, prev: seq<Part>, parts: seq<Part>, all: seq<Part>,
                                                 at: int)
    requires DistinctKeys(prev) && DistinctKeys(all) && Fingerprint(prev) == Fingerprint(all) && parts <= all
    requires forall k {:trigger RowAt(rows, k)} :: PartAt(prev, k).Some? ==>
      RowAt(rows, k).Some? && RowAt(rows, k).value.removedAt.None? && RowAt(rows, k).value.part == PartAt(prev, k).value
    ensures AddedEvents(rows, parts, at) == [] && ModifiedEvents(rows, parts, at) == []
  {
    if parts == [] {
    } else {
      var n := |parts| - 1;
      var p := parts[n];
      UnchangedFindsNothing(rows, prev, parts[..n], all, at);
      SameFingerprint(prev, all, KeyOf(p));
      PartAtIs(all, KeyOf(p));
      assert all[n] == p;
      var row := RowAt(rows, KeyOf(p));
      NoFieldDiffers(row.value.part, p, WATCHED, at);
    }
  }

  lemma {:induction false} NoFieldDiffers(was: Part, p: Part, fields: seq<string>, at: int)
    requires MinimalOf(was) == MinimalOf(p)
    ensures FieldEvents(was, p, fields, at) == []
  {
    if fields == [] {
    } else {
      NoFieldDiffers(was, p, fields[..|fields| - 1], at);
    }
  }

  lemma SameRound(s: State, before: History, r: Round, mode: string)
    requires before != [] && Proper(before) && DistinctKeys(r.parts) && RowsOk(s, before) && SnapsOk(s, before, mode)
    ensures Ingested(s, r, mode, false) == Ingested(s, r, mode, true)
  {
    var prev := before[|before| - 1];
    forall k | PartAt(prev.parts, k).Some?
      ensures RowAt(s.rows, k).Some? && RowAt(s.rows, k).value.removedAt.None?
              && RowAt(s.rows, k).value.part == PartAt(prev.parts, k).value
    {
      assert RowOk(RowAt(s.rows, k), s.changes, StatusOf(before, k), LastKnown(before, k), k, prev.at);
    }
    if Fingerprint(prev.parts) == Fingerprint(r.parts) {
      UnchangedFindsNothing(s.rows, prev.parts, r.parts, r.parts, r.at);
    }
  }

  /** Skipping the comparison when the fingerprint is unchanged leaves every run as it would be with comparison
      always. */
  lemma {:induction false} ShortcutChangesNothing(h: History, mode: string)
    requires Proper(h)
    ensures After(h, mode, false) == After(h, mode, true)
  {
    if h == [] {
    } else {
      var n := |h| - 1;
      ProperPrefix(h, n);
      ShortcutChangesNothing(h[..n], mode);
      AfterIsSound(h[..n], mode, false);
      if n > 0 { SameRound(After(h[..n], mode, false), h[..n], h[n], mode); }
    }
  }

  lemma {:induction false} StatusByRounds(h: History, k: Key)
    ensures StatusOf(h, k).Present? <==> In(h, |h| - 1, k)
    ensures StatusOf(h, k) == Absent(1) <==> In(h, |h| - 2, k) && !In(h, |h| - 1, k)
    ensures StatusOf(h, k).Unknown? <==> forall i :: 0 <= i < |h| ==> !In(h, i, k)
  {
    if h != [] {
      var n := |h| - 1;
      StatusByRounds(h[..n], k);
      assert forall i :: 0 <= i < n ==> In(h[..n], i, k) == In(h, i, k);
    }
  }

  /** What the i-th round is expected to report about a part: its removal at the second round of an absence, its
      addition at its first appearance after the baseline, a watched field that differs from the round before. */
  ghost predicate Expected(h: History, i: int, k: Key, kind: Kind, field: string)
    requires 0 <= i < |h|
  {
    match kind
    case Removed => field == "" && In(h, i - 2, k) && !In(h, i - 1, k) && !In(h, i, k)
    case Added => field == "" && i > 0 && In(h, i, k) && forall j :: 0 <= j < i ==> !In(h, j, k)
    case Modified =>
      In(h, i - 1, k) && In(h, i, k) && field in WATCHED
      && WhitelistValue(PartAt(h[i - 1].parts, k).value, field) != WhitelistValue(PartAt(h[i].parts, k).value, field)
  }

  lemma RoundFindsExpected(s: State, h: History, k: Key, kind: Kind, field: string)
    requires Proper(h) && |h| > 1 && RowsOk(s, h[..|h| - 1])
    ensures var r := h[|h| - 1];
            Found(s, r, k, kind, field) || (kind == Removed && field == "" && Confirms(s, r, k))
            <==> Expected(h, |h| - 1, k, kind, field)
  {
    var n := |h| - 1;
    var before := h[..n];
    StatusByRounds(before, k);
    assert forall i :: 0 <= i < n ==> In(before, i, k) == In(h, i, k);
    RowAtIs(s.rows, k);
    assert RowOk(RowAt(s.rows, k), s.changes, StatusOf(before, k), LastKnown(before, k), k, before[n - 1].at);
  }

  lemma RoundReports(h: History, mode: string, k: Key, kind: Kind, field: string)
    requires Proper(h) && |h| > 1
    ensures var n := |h| - 1;
            Count(Events(After(h[..n], mode, true), h[n], mode, true), k, kind, field, h[n].at)
            == if Expected(h, n, k, kind, field) then 1 else 0
  {
    var n := |h| - 1;
    var s := After(h[..n], mode, true);
    ProperPrefix(h, n);
    AfterIsSound(h[..n], mode, true);
    CountRound(s, h[n], mode, true, k, kind, field);
    RoundFindsExpected(s, h, k, kind, field);
  }

  lemma ExpectedInPrefix(h: History, n: nat, i: int, k: Key, kind: Kind, field: string)
    requires 0 <= i < n <= |h|
    ensures Expected(h[..n], i, k, kind, field) == Expected(h, i, k, kind, field)
  {
    assert forall j :: 0 <= j < n ==> In(h[..n], j, k) == In(h, j, k);
  }

  /** The count at an earlier round's time is as it was; at the last round's time it is that round's. */
  lemma {:induction false} CountByRound(h: History, mode: string, i: int, k: Key, kind: Kind, field: string)
    requires Proper(h) && |h| > 1 && 0 <= i < |h|
    ensures var n := |h| - 1;
            var s := After(h[..n], mode, true);
            Count(After(h, mode, true).changes, k, kind, field, h[i].at)
            == if i < n then Count(s.changes, k, kind, field, h[i].at)
               else Count(Events(s, h[n], mode, true), k, kind, field, h[n].at)
  {
    var n := |h| - 1;
    var s := After(h[..n], mode, true);
    ProperPrefix(h, n);
    AfterIsSound(h[..n], mode, true);
    var events := Events(s, h[n], mode, true);
    EventsAtRound(s, h[n], mode, true);
    CountParts(s.changes, events, k, kind, field, h[n - 1].at, h[n].at, h[i].at);
  }

  lemma {:induction false} EventsAtRound(s: State, r: Round, mode: string, always: bool)
    requires DistinctRows(s.rows) && DistinctKeys(r.parts) && Latest(s.snaps, mode).Some?
    ensures forall j :: 0 <= j < |Events(s, r, mode, always)| ==> Events(s, r, mode, always)[j].at == r.at
  {
    EventsOfRound(s, r, mode, always);
    var events := Events(s, r, mode, always);
    assert forall j :: 0 <= j < |events| ==> events[j] in events;
  }

  lemma {:induction false} CountParts(a: seq<Change>, b: seq<Change>, k: Key, kind: Kind, field: string, before: int,
                                      now: int, at: int)
    requires before < now && ChangesBy(a, before) && (at <= before || at == now)
    requires forall j :: 0 <= j < |b| ==> b[j].at == now
    ensures Count(a + b, k, kind, field, at)
            == if at == now then Count(b, k, kind, field, at) else Count(a, k, kind, field, at)
  {
    CountSplit(a, b, k, kind, field, at);
    if at == now { CountNone(a, k, kind, field, at); } else { CountNone(b, k, kind, field, at); }
  }

  lemma {:induction false} ComparedReportsAreExact(h: History, mode: string, i: int, k: Key, kind: Kind, field: string)
    requires Proper(h) && 0 <= i < |h|
    ensures Count(After(h, mode, true).changes, k, kind, field, h[i].at)
            == if Expected(h, i, k, kind, field) then 1 else 0
  {
    var n := |h| - 1;
    if n > 0 {
      CountByRound(h, mode, i, k, kind, field);
      if i < n {
        ProperPrefix(h, n);
        ComparedReportsAreExact(h[..n], mode, i, k, kind, field);
        ExpectedInPrefix(h, n, i, k, kind, field);
      } else {
        RoundReports(h, mode, k, kind, field);
      }
    } else {
      assert After(h[..n], mode, true) == State([], [], []);
    }
  }

  /** Over every run with strictly increasing times and distinct parts, each kind of change is reported exactly when and
      as often as it should be; in particular an absence of one round yields no removal, and a longer one yields exactly
      one, at its second round. */
  lemma {:induction false} ReportsAreExact(h: History, mode: string, i: int, k: Key, kind: Kind, field: string)
    requires Proper(h) && 0 <= i < |h|
    ensures Count(After(h, mode, false).changes, k, kind, field, h[i].at)
            == if Expected(h, i, k, kind, field) then 1 else 0
  {
    ShortcutChangesNothing(h, mode);
    ComparedReportsAreExact(h, mode, i, k, kind, field);
  }

  /** A watched value's text differs exactly when the field does. */
  lemma TextDiffersWithField(a: Part, b: Part)
    ensures WhitelistValue(a, "capacity_bytes") == WhitelistValue(b, "capacity_bytes") <==> a.capacity == b.capacity
  {
    if a.capacity.Some? && b.capacity.Some? && FormatInt(a.capacity.value) == FormatInt(b.capacity.value) {
      FormatIntDiffers(a.capacity.value, b.capacity.value);
    }
  }

  /** Reports of this round concern other parts, so they do not hide the one at hand. */
  lemma {:induction false} OwnReportsOnly(rows: seq<Row>, before: seq<Change>, at: int, i: nat, since: int)
    requires DistinctRows(rows) && i < |rows|
    ensures Reported(before + RemovedEvents(rows[..i], before, at), RowKey(rows[i]), since)
            <==> Reported(before, RowKey(rows[i]), since)
  {
    var events := RemovedEvents(rows[..i], before, at);
    EventsOfRows(rows[..i], before, at);
    ReportedSplit(before, events, RowKey(rows[i]), since);
    forall j | 0 <= j < |events| ensures events[j].key != RowKey(rows[i]) {
      assert events[j] in events;
      var m :| 0 <= m < i && RowKey(rows[..i][m]) == events[j].key;
      assert rows[..i][m] == rows[m];
    }
  }

  lemma {:induction false} EventsOfRows(rows: seq<Row>, changes: seq<Change>, at: int)
    ensures forall c :: c in RemovedEvents(rows, changes, at)
             ==> exists m :: 0 <= m < |rows| && RowKey(rows[m]) == c.key
  {
    if rows == [] {
    } else {
      var n := |rows| - 1;
      EventsOfRows(rows[..n], changes, at);
      forall c | c in RemovedEvents(rows, changes, at) ensures exists m :: 0 <= m < |rows| && RowKey(rows[m]) == c.key {
        if c in RemovedEvents(rows[..n], changes, at) {
          var m :| 0 <= m < n && RowKey(rows[..n][m]) == c.key;
          assert RowKey(rows[m]) == c.key;
        } else {
          assert RowKey(rows[n]) == c.key;
        }
      }
    }
  }

  lemma NothingCompared(changes: seq<Change>, events: seq<Change>)
    ensures changes + [] == changes && [] + events + [] == events
  {
  }

  lemma {:induction false} IngestedFirst(s: State, r: Round, mode: string)
    requires Latest(s.snaps, mode).None?
    ensures Ingested(s, r, mode, false)
         == State(Upserted(s.rows, r.parts, r.at), s.snaps + [Taken(r, mode, None)], s.changes)
  {
  }

  lemma {:induction false} IngestedLater(s: State, r: Round, mode: string, events: seq<Change>)
    requires Latest(s.snaps, mode).Some? && events == Events(s, r, mode, false)
    ensures Ingested(s, r, mode, false)
         == State(MarkedRows(Upserted(s.rows, r.parts, r.at), r.at),
                  s.snaps + [Taken(r, mode, Latest(s.snaps, mode))], s.changes + events)
  {
  }

  /** Reports already made in this round do not change whether the next row is confirmed. */
  lemma {:induction false} ConfirmedNext(rows: seq<Row>, before: seq<Change>, at: int, i: nat)
    requires DistinctRows(rows) && i < |rows|
    ensures var events := RemovedEvents(rows[..i], before, at);
            var more := if Confirmed(rows[i], before, at) then [RemovedChange(rows[i].part, at)] else [];
            && (Confirmed(rows[i], before + events, at) <==> Confirmed(rows[i], before, at))
            && RemovedEvents(rows[..i + 1], before, at) == events + more
  {
    assert rows[..i + 1][..i] == rows[..i];
    if rows[i].removedAt.Some? { OwnReportsOnly(rows, before, at, i, rows[i].removedAt.value); }
  }
}
