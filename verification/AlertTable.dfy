/** The alert table: one firing row per active key, under any interleaving of its statements. Times are whole
    seconds. */
module AlertTable {
  import opened Ordering

  /** What the detail column says as JSON. */
  datatype Detail =
    | RuleDetail(ruleID: string, metric: string, op: string, threshold: real, object_: string, host: string,
                 value: real, message: string)
    | ChangeDetail(changeType: string, category: string, slot: string, field: string)

  /** The columns an alert brings with it. */
  datatype Alert = Alert(hostID: Option<int>, severity: string, category: string, metric: Option<string>,
                         objectName: Option<string>, value: Option<real>, threshold: Option<real>, title: string,
                         detail: Detail)

  datatype RowState = Firing | Resolved | Silenced

  /** A row of alert_event; rows stand in the order of their ids, which start at 1. */
  datatype Row = Row(alert: Alert, state: RowState, activeKey: Option<string>, firstSeen: int, lastSeen: int,
                     resolvedAt: Option<int>)

  type Rows = seq<Row>

  predicate Holds(r: Row, key: string) { r.activeKey == Some(key) && r.state == Firing }

  // ---------- statements ----------

  function RefreshedRow(r: Row, key: string, e: Alert, at: int): Row
  {
    if Holds(r, key) then
      r.(lastSeen := at, alert := r.alert.(value := e.value, severity := e.severity, title := e.title))
    else r
  }

  function TouchedRow(r: Row, key: string, value: Option<real>, at: int): Row
  {
    if Holds(r, key) then r.(lastSeen := at, alert := r.alert.(value := value)) else r
  }

  function ClosedRow(r: Row, at: int): Row
  {
    r.(state := Resolved, resolvedAt := Some(at), lastSeen := at, activeKey := None)
  }

  type Hit = Row -> bool

  function KeyHit(key: string): Hit { (r: Row) => Holds(r, key) }

  function HostHit(host: int): Hit { (r: Row) => r.alert.hostID == Some(host) && r.state == Firing }

  function Refreshed(rows: Rows, key: string, e: Alert, at: int): Rows
  {
    seq(|rows|, i requires 0 <= i < |rows| => RefreshedRow(rows[i], key, e, at))
  }

  function Touched(rows: Rows, key: string, value: Option<real>, at: int): Rows
  {
    seq(|rows|, i requires 0 <= i < |rows| => TouchedRow(rows[i], key, value, at))
  }

  function Closed(rows: Rows, hit: Hit, at: int): Rows
  {
    seq(|rows|, i requires 0 <= i < |rows| => if hit(rows[i]) then ClosedRow(rows[i], at) else rows[i])
  }

  /** The unique index on active_key; NULLs do not clash. */
  predicate Clashes(rows: Rows, key: string)
  {
    exists i :: 0 <= i < |rows| && rows[i].activeKey == Some(key)
  }

  function FiringRow(e: Alert, key: string, at: int): Row { Row(e, Firing, Some(key), at, at, None) }

  function SilencedRow(e: Alert, at: int): Row { Row(e, Silenced, None, at, at, None) }

  // ---------- the keys that fire ----------

  /** The active keys of the firing rows, with their multiplicity. */
  function FiringKeys(rows: Rows): multiset<string>
  {
    if rows == [] then multiset{}
    else
      var r := rows[|rows| - 1];
      FiringKeys(rows[..|rows| - 1])
      + (if r.state == Firing && r.activeKey.Some? then multiset{r.activeKey.value} else multiset{})
  }

  /** The active keys of the rows that are hit. */
  function HitKeys(rows: Rows, hit: Hit): multiset<string>
  {
    if rows == [] then multiset{}
    else
      var r := rows[|rows| - 1];
      HitKeys(rows[..|rows| - 1], hit)
      + (if hit(r) && r.activeKey.Some? then multiset{r.activeKey.value} else multiset{})
  }

  function CountHits(rows: Rows, hit: Hit): nat
  {
    if rows == [] then 0 else CountHits(rows[..|rows| - 1], hit) + (if hit(rows[|rows| - 1]) then 1 else 0)
  }

  /** Exactly the firing rows carry an active key, and no two the same one. */
  ghost predicate Sound(rows: Rows)
  {
    && (forall i :: 0 <= i < |rows| ==> (rows[i].state == Firing <==> rows[i].activeKey.Some?))
    && (forall i, j :: 0 <= i < j < |rows| && rows[i].activeKey.Some? ==> rows[i].activeKey != rows[j].activeKey)
  }

  lemma {:induction false} LastFires(rows: Rows, k: string)
    requires rows != []
    ensures FiringKeys(rows)[k] == FiringKeys(rows[..|rows| - 1])[k] + (if Holds(rows[|rows| - 1], k) then 1 else 0)
  {
  }

  lemma {:induction false} KeysListed(rows: Rows, key: string)
    ensures FiringKeys(rows)[key] > 0 <==> exists i :: 0 <= i < |rows| && Holds(rows[i], key)
  {
    if rows == [] {
    } else {
      var n := |rows| - 1;
      KeysListed(rows[..n], key);
      LastFires(rows, key);
      assert forall i :: 0 <= i < n ==> rows[..n][i] == rows[i];
    }
  }

  /** At most one firing row per key. */
  lemma {:induction false} KeysOnce(rows: Rows, key: string)
    requires Sound(rows)
    ensures FiringKeys(rows)[key] <= 1
  {
    if rows == [] {
    } else {
      var n := |rows| - 1;
      KeysOnce(rows[..n], key);
      KeysListed(rows[..n], key);
      assert forall i :: 0 <= i < n ==> rows[..n][i] == rows[i];
    }
  }

  lemma {:induction false} FiringKeysNext(rows: Rows, r: Row)
    ensures FiringKeys(rows + [r])
         == FiringKeys(rows)
            + (if r.state == Firing && r.activeKey.Some? then multiset{r.activeKey.value} else multiset{})
  {
    assert (rows + [r])[..|rows|] == rows;
  }

  /** Updates that keep state and key keep the firing keys. */
  lemma {:induction false} SameKeys(a: Rows, b: Rows)
    requires |a| == |b| && forall i :: 0 <= i < |a| ==> a[i].state == b[i].state && a[i].activeKey == b[i].activeKey
    ensures FiringKeys(a) == FiringKeys(b)
  {
    if a == [] {
    } else {
      SameKeys(a[..|a| - 1], b[..|b| - 1]);
    }
  }

  lemma {:induction false} RefreshKeeps(rows: Rows, key: string, e: Alert, at: int)
    requires Sound(rows)
    ensures Sound(Refreshed(rows, key, e, at)) && FiringKeys(Refreshed(rows, key, e, at)) == FiringKeys(rows)
  {
    SameKeys(Refreshed(rows, key, e, at), rows);
  }

  lemma {:induction false} TouchKeeps(rows: Rows, key: string, value: Option<real>, at: int)
    requires Sound(rows)
    ensures Sound(Touched(rows, key, value, at)) && FiringKeys(Touched(rows, key, value, at)) == FiringKeys(rows)
  {
    SameKeys(Touched(rows, key, value, at), rows);
  }

  lemma {:induction false} InsertKeeps(rows: Rows, e: Alert, key: string, at: int)
    requires Sound(rows) && !Clashes(rows, key)
    ensures Sound(rows + [FiringRow(e, key, at)])
            && FiringKeys(rows + [FiringRow(e, key, at)]) == FiringKeys(rows) + multiset{key}
  {
    FiringKeysNext(rows, FiringRow(e, key, at));
  }

  lemma {:induction false} KeylessIsSound(rows: Rows, r: Row)
    requires Sound(rows) && r.state != Firing && r.activeKey.None?
    ensures Sound(rows + [r])
  {
  }

  lemma {:induction false} SilencedKeeps(rows: Rows, e: Alert, at: int)
    requires Sound(rows)
    ensures Sound(rows + [SilencedRow(e, at)]) && FiringKeys(rows + [SilencedRow(e, at)]) == FiringKeys(rows)
  {
    KeylessIsSound(rows, SilencedRow(e, at));
    FiringKeysNext(rows, SilencedRow(e, at));
    assert FiringKeys(rows + [SilencedRow(e, at)]) == FiringKeys(rows) + multiset{};
  }

  function FiringCount(rows: Rows, k: string): nat
  {
    if rows == [] then 0 else FiringCount(rows[..|rows| - 1], k) + (if Holds(rows[|rows| - 1], k) then 1 else 0)
  }

  function HitCount(rows: Rows, hit: Hit, k: string): nat
  {
    if rows == [] then 0
    else
      HitCount(rows[..|rows| - 1], hit, k)
      + (if hit(rows[|rows| - 1]) && rows[|rows| - 1].activeKey == Some(k) then 1 else 0)
  }

  lemma {:induction false} FiringCountIs(rows: Rows, k: string)
    ensures FiringKeys(rows)[k] == FiringCount(rows, k)
  {
    if rows == [] {
    } else {
      FiringCountIs(rows[..|rows| - 1], k);
      LastFires(rows, k);
    }
  }

  lemma {:induction false} HitCountIs(rows: Rows, hit: Hit, k: string)
    ensures HitKeys(rows, hit)[k] == HitCount(rows, hit, k)
  {
    if rows == [] {
    } else {
      HitCountIs(rows[..|rows| - 1], hit, k);
    }
  }

  /** Every hit row fires. */
  ghost predicate HitsFire(rows: Rows, hit: Hit)
  {
    forall i :: 0 <= i < |rows| && hit(rows[i]) ==> rows[i].state == Firing
  }

  lemma {:induction false} CloseCounts(rows: Rows, hit: Hit, at: int, k: string)
    requires HitsFire(rows, hit)
    ensures FiringCount(Closed(rows, hit, at), k) + HitCount(rows, hit, k) == FiringCount(rows, k)
  {
    if rows == [] {
    } else {
      var n := |rows| - 1;
      assert HitsFire(rows[..n], hit);
      CloseCounts(rows[..n], hit, at, k);
      assert Closed(rows, hit, at)[..n] == Closed(rows[..n], hit, at);
    }
  }

  /** Closing rows takes exactly the hit keys out of the firing ones. */
  lemma {:induction false} CloseSplits(rows: Rows, hit: Hit, at: int)
    requires HitsFire(rows, hit)
    ensures FiringKeys(Closed(rows, hit, at)) + HitKeys(rows, hit) == FiringKeys(rows)
  {
    forall k ensures FiringKeys(Closed(rows, hit, at))[k] + HitKeys(rows, hit)[k] == FiringKeys(rows)[k] {
      CloseCounts(rows, hit, at, k);
      FiringCountIs(rows, k);
      FiringCountIs(Closed(rows, hit, at), k);
      HitCountIs(rows, hit, k);
    }
  }

  lemma CloseSound(rows: Rows, hit: Hit, at: int)
    requires Sound(rows)
    ensures Sound(Closed(rows, hit, at))
  {
  }

  /** Closing by key hits that key alone, and as often as it fires. */
  lemma {:induction false} KeyHits(rows: Rows, key: string, k: string)
    ensures HitKeys(rows, KeyHit(key))[k] == if k == key then FiringKeys(rows)[k] else 0
    ensures CountHits(rows, KeyHit(key)) == FiringKeys(rows)[key]
  {
    if rows == [] {
    } else {
      KeyHits(rows[..|rows| - 1], key, k);
    }
  }

  ghost predicate OthersKept(before: Rows, after: Rows, own: int)
  {
    |before| <= |after| && forall i :: 0 <= i < |before| && i != own ==> after[i] == before[i]
  }

  /** The firing row of the key is resolved at this time and gives up its key, and every other row stays. */
  ghost predicate ResolvedKey(before: Rows, after: Rows, key: string, at: int)
  {
    && |before| == |after|
    && forall i :: 0 <= i < |before| ==>
         var r := before[i];
         after[i] == if r.activeKey == Some(key) && r.state == Firing
                     then Row(r.alert, Resolved, None, r.firstSeen, at, Some(at)) else r
  }

  /** The firing rows of the host are resolved, and every other row stays. */
  ghost predicate ResolvedHost(before: Rows, after: Rows, host: int, at: int)
  {
    && |before| == |after|
    && forall i :: 0 <= i < |before| ==>
         var r := before[i];
         after[i] == if r.alert.hostID == Some(host) && r.state == Firing
                     then Row(r.alert, Resolved, None, r.firstSeen, at, Some(at)) else r
  }

  /** The firing row of the key gets the time and the alert's value, severity and title, and nothing else changes. */
  ghost predicate RefreshedKey(before: Rows, after: Rows, key: string, e: Alert, at: int)
  {
    && |before| == |after|
    && forall i :: 0 <= i < |before| ==>
         var r := before[i];
         after[i] == if r.activeKey == Some(key) && r.state == Firing
                     then Row(r.alert.(value := e.value, severity := e.severity, title := e.title), r.state,
                              r.activeKey, r.firstSeen, at, r.resolvedAt)
                     else r
  }

  /** The firing row of the key gets the time and the value, and nothing else changes. */
  ghost predicate TouchedKey(before: Rows, after: Rows, key: string, value: Option<real>, at: int)
  {
    && |before| == |after|
    && forall i :: 0 <= i < |before| ==>
         var r := before[i];
         after[i] == if r.activeKey == Some(key) && r.state == Firing
                     then r.(lastSeen := at, alert := r.alert.(value := value)) else r
  }

  ghost function FiringOf(rows: Rows, host: int): set<int>
  {
    set i | 0 <= i < |rows| && rows[i].alert.hostID == Some(host) && rows[i].state == Firing
  }

  lemma {:induction false} HostRows(rows: Rows, host: int)
    ensures CountHits(rows, HostHit(host)) == |FiringOf(rows, host)|
  {
    HitsAreCounted(rows, HostHit(host));
    assert HitRows(rows, HostHit(host)) == FiringOf(rows, host);
  }

  function HitRows(rows: Rows, hit: Hit): set<int> { set i | 0 <= i < |rows| && hit(rows[i]) }

  lemma {:induction false} HitsAreCounted(rows: Rows, hit: Hit)
    ensures CountHits(rows, hit) == |HitRows(rows, hit)|
  {
    if rows == [] {
    } else {
      var n := |rows| - 1;
      HitsAreCounted(rows[..n], hit);
      assert HitRows(rows, hit) == HitRows(rows[..n], hit) + (if hit(rows[n]) then {n} else {});
    }
  }

  // ---------- one caller at a time ----------

  /** The id of the firing row with the key; 0 when there is none. */
  function FiringID(rows: Rows, key: string): nat
  {
    if rows == [] then 0
    else if Holds(rows[|rows| - 1], key) then |rows|
    else FiringID(rows[..|rows| - 1], key)
  }

  lemma {:induction false} IDOfFiring(rows: Rows, key: string)
    ensures FiringID(rows, key) <= |rows|
    ensures FiringID(rows, key) > 0 ==> Holds(rows[FiringID(rows, key) - 1], key)
    ensures FiringID(rows, key) == 0 ==> FiringKeys(rows)[key] == 0
  {
    if rows == [] {
    } else {
      IDOfFiring(rows[..|rows| - 1], key);
    }
  }

  lemma {:induction false} ClashIsFiring(rows: Rows, key: string)
    requires Sound(rows)
    ensures Clashes(rows, key) <==> FiringKeys(rows)[key] > 0
  {
    KeysListed(rows, key);
    if Clashes(rows, key) {
      var i :| 0 <= i < |rows| && rows[i].activeKey == Some(key);
      assert Holds(rows[i], key);
    }
  }

  class Alerts {
    var rows: Rows

    ghost predicate Valid()
      reads this
    {
      Sound(rows)
    }

    constructor ()
      ensures Valid() && rows == []
    {
      rows := [];
    }

    /** The UPDATE of UpsertFiring. */
    method Update(e: Alert, key: string, at: int) returns (affected: nat)
      modifies this
      ensures rows == Refreshed(old(rows), key, e, at) && affected == CountHits(old(rows), KeyHit(key))
    {
      affected := CountHits(rows, KeyHit(key));
      rows := Refreshed(rows, key, e, at);
    }

    /** The INSERT of UpsertFiring; refused by the unique index when the key is taken. */
    method Insert(e: Alert, key: string, at: int) returns (ok: bool)
      modifies this
      ensures ok == !Clashes(old(rows), key)
      ensures rows == if ok then old(rows) + [FiringRow(e, key, at)] else old(rows)
    {
      ok := !Clashes(rows, key);
      if ok { rows := rows + [FiringRow(e, key, at)]; }
    }

    /** Records a firing: refreshes the key's row or creates one; the id is that row's. */
    method UpsertFiring(e: Alert, key: string, at: int) returns (created: bool, id: nat)
      requires Valid()
      modifies this
      ensures Valid()
      ensures created <==> FiringKeys(old(rows))[key] == 0
      ensures FiringKeys(rows)[key] == 1 && FiringKeys(rows)
              == FiringKeys(old(rows)) + (if created then multiset{key} else multiset{})
      ensures 0 < id <= |rows| && Holds(rows[id - 1], key)
      ensures created ==> rows == old(rows) + [Row(e, Firing, Some(key), at, at, None)] && id == |rows|
      ensures !created ==> rows == Refreshed(old(rows), key, e, at) && RefreshedKey(old(rows), rows, key, e, at)
                           && OthersKept(old(rows), rows, id - 1)
    {
      ghost var was := rows;
      created, id := UpsertRow(e, key, at);
      RefreshedIsTold(was, key, e, at);
      if !created { OneRefreshed(was, key, e, at, id - 1); }
    }

    method UpsertRow(e: Alert, key: string, at: int) returns (created: bool, id: nat)
      requires Valid()
      modifies this
      ensures Valid()
      ensures created <==> FiringKeys(old(rows))[key] == 0
      ensures FiringKeys(rows)[key] == 1 && FiringKeys(rows)
              == FiringKeys(old(rows)) + (if created then multiset{key} else multiset{})
      ensures 0 < id <= |rows| && Holds(rows[id - 1], key)
      ensures created ==> rows == old(rows) + [FiringRow(e, key, at)] && id == |rows|
      ensures !created ==> rows == Refreshed(old(rows), key, e, at)
    {
      ClashIsFiring(rows, key);
      KeysOnce(rows, key);
      KeyHits(rows, key, key);
      RefreshKeeps(rows, key, e, at);
      ghost var was := rows;
      var n := Update(e, key, at);
      IDOfFiring(rows, key);
      if n > 0 { return false, FiringID(rows, key); }
      NothingRefreshed(was, key, e, at);
      var ok := Insert(e, key, at);
      InsertKeeps(was, e, key, at);
      return true, |rows|;
    }

    /** Closes the key's firing row, if it has one. */
    method Resolve(key: string, at: int) returns (resolved: bool)
      requires Valid()
      modifies this
      ensures Valid() && rows == Closed(old(rows), KeyHit(key), at) && ResolvedKey(old(rows), rows, key, at)
      ensures resolved <==> FiringKeys(old(rows))[key] > 0
      ensures forall k :: FiringKeys(rows)[k] == if k == key then 0 else FiringKeys(old(rows))[k]
    {
      KeyHits(rows, key, key);
      CloseSound(rows, KeyHit(key), at);
      CloseSplits(rows, KeyHit(key), at);
      forall k ensures FiringKeys(Closed(rows, KeyHit(key), at))[k] == if k == key then 0 else FiringKeys(rows)[k] {
        KeyHits(rows, key, k);
        assert FiringKeys(rows)[k] == (FiringKeys(Closed(rows, KeyHit(key), at)) + HitKeys(rows, KeyHit(key)))[k];
      }
      resolved := CountHits(rows, KeyHit(key)) > 0;
      rows := Closed(rows, KeyHit(key), at);
    }

    /** Closes every firing row of a host. */
    method ResolveByHost(host: int, at: int) returns (n: nat)
      requires Valid()
      modifies this
      ensures Valid() && rows == Closed(old(rows), HostHit(host), at) && ResolvedHost(old(rows), rows, host, at)
      ensures n == |FiringOf(old(rows), host)|
      ensures FiringKeys(rows) + HitKeys(old(rows), HostHit(host)) == FiringKeys(old(rows))
    {
      CloseSound(rows, HostHit(host), at);
      CloseSplits(rows, HostHit(host), at);
      n := CountHits(rows, HostHit(host));
      HostRows(rows, host);
      rows := Closed(rows, HostHit(host), at);
    }

    method Touch(key: string, value: Option<real>, at: int)
      requires Valid()
      modifies this
      ensures Valid() && rows == Touched(old(rows), key, value, at) && FiringKeys(rows) == FiringKeys(old(rows))
      ensures TouchedKey(old(rows), rows, key, value, at)
    {
      TouchKeeps(rows, key, value, at);
      rows := Touched(rows, key, value, at);
    }

    method InsertSilenced(e: Alert, at: int)
      requires Valid()
      modifies this
      ensures Valid() && rows == old(rows) + [Row(e, Silenced, None, at, at, None)]
              && FiringKeys(rows) == FiringKeys(old(rows))
    {
      SilencedKeeps(rows, e, at);
      rows := rows + [SilencedRow(e, at)];
    }
  }

  lemma RefreshedIsTold(rows: Rows, key: string, e: Alert, at: int)
    ensures RefreshedKey(rows, Refreshed(rows, key, e, at), key, e, at)
  {
  }

  /** Only the key's own row is refreshed. */
  lemma OneRefreshed(rows: Rows, key: string, e: Alert, at: int, own: int)
    requires Sound(rows) && 0 <= own < |rows| && Holds(Refreshed(rows, key, e, at)[own], key)
    ensures OthersKept(rows, Refreshed(rows, key, e, at), own)
  {
    assert Holds(rows[own], key);
  }

  lemma {:induction false} NothingRefreshed(rows: Rows, key: string, e: Alert, at: int)
    requires FiringKeys(rows)[key] == 0
    ensures Refreshed(rows, key, e, at) == rows
  {
    KeysListed(rows, key);
  }

  // ---------- concurrent callers, one statement at a time ----------

  datatype Call =
    | Updates(e: Alert, key: string, at: int)
    | Inserts(e: Alert, key: string, at: int)
    | Retries(e: Alert, key: string, at: int)

  /** `created` counts calls that reported a new firing, `resolved` rows closed, by key. */
  datatype State = State(rows: Rows, calls: map<nat, Call>, created: multiset<string>, resolved: multiset<string>)

  datatype Step =
    | Begin(id: nat, e: Alert, key: string, at: int)
    | UpdateStep(id: nat)
    | InsertStep(id: nat)
    | RetryStep(id: nat)
    | ResolveStep(key: string, at: int)
    | ResolveByHostStep(host: int, at: int)
    | TouchStep(key: string, value: Option<real>, at: int)
    | SilencedStep(e: Alert, at: int)

  predicate Enabled(s: State, step: Step)
  {
    match step
    case Begin(id, _, _, _) => id !in s.calls
    case UpdateStep(id) => id in s.calls && s.calls[id].Updates?
    case InsertStep(id) => id in s.calls && s.calls[id].Inserts?
    case RetryStep(id) => id in s.calls && s.calls[id].Retries?
    case _ => true
  }

  function AfterUpdate(s: State, id: nat, c: Call): State
  {
    var s1 := s.(rows := Refreshed(s.rows, c.key, c.e, c.at));
    if CountHits(s.rows, KeyHit(c.key)) > 0 then s1.(calls := s.calls - {id})
    else s1.(calls := s.calls[id := Inserts(c.e, c.key, c.at)])
  }

  function AfterInsert(s: State, id: nat, c: Call): State
  {
    if Clashes(s.rows, c.key) then s.(calls := s.calls[id := Retries(c.e, c.key, c.at)])
    else s.(rows := s.rows + [FiringRow(c.e, c.key, c.at)], calls := s.calls - {id},
      created := s.created + multiset{c.key})
  }

  function AfterClose(s: State, hit: Hit, at: int): State
  {
    s.(rows := Closed(s.rows, hit, at), resolved := s.resolved + HitKeys(s.rows, hit))
  }

  function Next(s: State, step: Step): State
    requires Enabled(s, step)
  {
    match step
    case Begin(id, e, key, at) => s.(calls := s.calls[id := Updates(e, key, at)])
    case UpdateStep(id) => AfterUpdate(s, id, s.calls[id])
    case InsertStep(id) => AfterInsert(s, id, s.calls[id])
    case RetryStep(id) => s.(rows := Refreshed(s.rows, s.calls[id].key, s.calls[id].e, s.calls[id].at),
      calls := s.calls - {id})
    case ResolveStep(key, at) => AfterClose(s, KeyHit(key), at)
    case ResolveByHostStep(host, at) => AfterClose(s, HostHit(host), at)
    case TouchStep(key, value, at) => s.(rows := Touched(s.rows, key, value, at))
    case SilencedStep(e, at) => s.(rows := s.rows + [SilencedRow(e, at)])
  }

  ghost predicate Inv(s: State) { Sound(s.rows) && s.created == s.resolved + FiringKeys(s.rows) }

  lemma CloseKeeps(s: State, hit: Hit, at: int)
    requires Inv(s) && HitsFire(s.rows, hit)
    ensures Inv(AfterClose(s, hit, at))
  {
    CloseSound(s.rows, hit, at);
    CloseSplits(s.rows, hit, at);
  }

  lemma UpdateKeeps(s: State, id: nat)
    requires Inv(s) && Enabled(s, UpdateStep(id))
    ensures Inv(Next(s, UpdateStep(id)))
  {
    RefreshKeeps(s.rows, s.calls[id].key, s.calls[id].e, s.calls[id].at);
  }

  lemma InsertStepKeeps(s: State, id: nat)
    requires Inv(s) && Enabled(s, InsertStep(id))
    ensures Inv(Next(s, InsertStep(id)))
  {
    var c := s.calls[id];
    if !Clashes(s.rows, c.key) {
      InsertKeeps(s.rows, c.e, c.key, c.at);
      OneMoreKey(s.created, s.resolved, FiringKeys(s.rows), c.key);
    }
  }

  lemma OneMoreKey(created: multiset<string>, resolved: multiset<string>, firing: multiset<string>, key: string)
    requires created == resolved + firing
    ensures created + multiset{key} == resolved + (firing + multiset{key})
  {
  }

  lemma RetryKeeps(s: State, id: nat)
    requires Inv(s) && Enabled(s, RetryStep(id))
    ensures Inv(Next(s, RetryStep(id)))
  {
    RefreshKeeps(s.rows, s.calls[id].key, s.calls[id].e, s.calls[id].at);
  }

  lemma StepKeeps(s: State, step: Step)
    requires Inv(s) && Enabled(s, step)
    ensures Inv(Next(s, step))
  {
    match step
    case Begin(_, _, _, _) =>
    case UpdateStep(id) => UpdateKeeps(s, id);
    case InsertStep(id) => InsertStepKeeps(s, id);
    case RetryStep(id) => RetryKeeps(s, id);
    case ResolveStep(key, at) => CloseKeeps(s, KeyHit(key), at);
    case ResolveByHostStep(host, at) => CloseKeeps(s, HostHit(host), at);
    case TouchStep(key, value, at) => TouchKeeps(s.rows, key, value, at);
    case SilencedStep(e, at) => SilencedKeeps(s.rows, e, at);
  }

  predicate Legal(s: State, steps: seq<Step>)
    decreases |steps|
  {
    steps == [] || (Enabled(s, steps[0]) && Legal(Next(s, steps[0]), steps[1..]))
  }

  function Run(s: State, steps: seq<Step>): State
    requires Legal(s, steps)
    decreases |steps|
  {
    if steps == [] then s else Run(Next(s, steps[0]), steps[1..])
  }

  function Start(): State { State([], map[], multiset{}, multiset{}) }

  lemma {:induction false} RunKeeps(s: State, steps: seq<Step>)
    requires Inv(s) && Legal(s, steps)
    ensures Inv(Run(s, steps))
    decreases |steps|
  {
    if steps == [] {
    } else {
      StepKeeps(s, steps[0]);
      RunKeeps(Next(s, steps[0]), steps[1..]);
    }
  }

  /** In every interleaving a key has at most one firing row, and the calls that reported a new firing exceed the rows
      closed by exactly that row. */
  lemma {:induction false} CreatedMinusResolved(steps: seq<Step>, key: string)
    requires Legal(Start(), steps)
    ensures var s := Run(Start(), steps);
            && s.created[key] == s.resolved[key] + FiringKeys(s.rows)[key]
            && FiringKeys(s.rows)[key] <= 1
            && (FiringKeys(s.rows)[key] == 1 <==> exists i :: 0 <= i < |s.rows| && Holds(s.rows[i], key))
  {
    RunKeeps(Start(), steps);
    KeysOnce(Run(Start(), steps).rows, key);
    KeysListed(Run(Start(), steps).rows, key);
  }

  // ---------- a call nobody disturbs ----------

  lemma {:induction false} OneFirst(s: State, step: Step, t: State, rest: seq<Step>)
    requires Enabled(s, step) && Next(s, step) == t && Legal(t, rest)
    ensures Legal(s, [step] + rest) && Run(s, [step] + rest) == Run(t, rest)
  {
    assert ([step] + rest)[1..] == rest;
  }

  lemma RefreshesAtOnce(s: State, id: nat, e: Alert, key: string, at: int) returns (steps: seq<Step>)
    requires id !in s.calls && FiringKeys(s.rows)[key] > 0
    ensures steps == [Begin(id, e, key, at)] + [UpdateStep(id)] && Legal(s, steps)
    ensures Run(s, steps) == s.(rows := Refreshed(s.rows, key, e, at))
  {
    var s1 := s.(calls := s.calls[id := Updates(e, key, at)]);
    var s2 := s.(rows := Refreshed(s.rows, key, e, at));
    KeyHits(s.rows, key, key);
    assert s1.calls - {id} == s.calls;
    OneFirst(s1, UpdateStep(id), s2, []);
    assert [UpdateStep(id)] + [] == [UpdateStep(id)];
    OneFirst(s, Begin(id, e, key, at), s1, [UpdateStep(id)]);
    steps := [Begin(id, e, key, at)] + [UpdateStep(id)];
  }

  lemma FindsNothing(s: State, id: nat, e: Alert, key: string, at: int)
    requires FiringKeys(s.rows)[key] == 0 && Sound(s.rows)
    ensures AfterUpdate(s.(calls := s.calls[id := Updates(e, key, at)]), id, Updates(e, key, at))
         == s.(calls := s.calls[id := Inserts(e, key, at)])
    ensures !Clashes(s.rows, key)
  {
    KeyHits(s.rows, key, key);
    NothingRefreshed(s.rows, key, e, at);
    ClashIsFiring(s.rows, key);
    assert s.calls[id := Updates(e, key, at)][id := Inserts(e, key, at)] == s.calls[id := Inserts(e, key, at)];
  }

  lemma CreatesAtOnce(s: State, id: nat, e: Alert, key: string, at: int) returns (steps: seq<Step>)
    requires id !in s.calls && FiringKeys(s.rows)[key] == 0 && Sound(s.rows)
    ensures steps == [Begin(id, e, key, at)] + ([UpdateStep(id)] + [InsertStep(id)]) && Legal(s, steps)
    ensures Run(s, steps) == s.(rows := s.rows + [FiringRow(e, key, at)], created := s.created + multiset{key})
  {
    var s1, s2 := s.(calls := s.calls[id := Updates(e, key, at)]), s.(calls := s.calls[id := Inserts(e, key, at)]);
    var s3 := s.(rows := s.rows + [FiringRow(e, key, at)], created := s.created + multiset{key});
    FindsNothing(s, id, e, key, at);
    assert s2.calls - {id} == s.calls;
    OneFirst(s2, InsertStep(id), s3, []);
    assert [InsertStep(id)] + [] == [InsertStep(id)];
    OneFirst(s1, UpdateStep(id), s2, [InsertStep(id)]);
    OneFirst(s, Begin(id, e, key, at), s1, [UpdateStep(id)] + [InsertStep(id)]);
    steps := [Begin(id, e, key, at)] + ([UpdateStep(id)] + [InsertStep(id)]);
  }

  /** The statements of an undisturbed call record the firing at once: they refresh the key's row, or create it and
      report so. */
  lemma UndisturbedUpsert(s: State, id: nat, e: Alert, key: string, at: int) returns (steps: seq<Step>)
    requires id !in s.calls && Sound(s.rows)
    ensures Legal(s, steps) && Run(s, steps).calls == s.calls && Run(s, steps).resolved == s.resolved
    ensures FiringKeys(s.rows)[key] > 0 ==>
              && steps == [Begin(id, e, key, at)] + [UpdateStep(id)]
              && RefreshedKey(s.rows, Run(s, steps).rows, key, e, at) && Run(s, steps).created == s.created
    ensures FiringKeys(s.rows)[key] == 0 ==>
              && steps == [Begin(id, e, key, at)] + ([UpdateStep(id)] + [InsertStep(id)])
              && Run(s, steps).rows == s.rows + [Row(e, Firing, Some(key), at, at, None)]
              && Run(s, steps).created == s.created + multiset{key}
  {
    RefreshedIsTold(s.rows, key, e, at);
    if FiringKeys(s.rows)[key] > 0 {
      steps := RefreshesAtOnce(s, id, e, key, at);
    } else {
      steps := CreatesAtOnce(s, id, e, key, at);
    }
  }
}
