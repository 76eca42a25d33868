/** Every interleaving of the session goroutine and the collecting goroutine over their stream, lock and spool. */
module SessionSteps {
  import opened Ordering
  import opened ByteCodec
  import opened Spools
  import opened Sessions

  type Id = nat
  type Item = Entry<Id>

  datatype Thread = Session | Collector

  /** Inside drain: about to look for entries, about to delete the undecodable ones met, the send of `items[next]` under
      way, or about to acknowledge. */
  datatype Drainer =
    | Peeking
    | Discarding(items: seq<Item>, corrupt: seq<Item>)
    | Sending(items: seq<Item>, next: nat)
    | Acking(items: seq<Item>, gaveUp: bool)

  datatype Pc =
    | Idle
    | Publishes            // has a new stream to publish
    | WantsDrain
    | Drains(d: Drainer)
    | WantsSend
    | Sends                // the send of a heartbeat or of a live report is under way
    | Stores | Purges | Trims
    | Serves | Closes

  datatype Fate = Purged | Trimmed | Corrupted | NotStored

  /** `log` remembers every entry ever queued, by sequence number; `failed` that a storage operation failed. */
  datatype State = State(
    capacity: nat, mu: Option<Thread>, connected: bool, session: Pc, collector: Pc, hand: Option<Id>,
    spool: seq<Item>, sequence: nat,
    collected: set<Id>, sent: seq<Id>, dropped: map<Id, Fate>, log: map<nat, Item>, failed: bool)

  datatype Step =
    | Connect | Publish | Close | Beat | StreamEnds
    | Collect(id: Id)
    | Lock(t: Thread) | View(t: Thread, ok: bool) | Discard(t: Thread, ok: bool)
    | SendReturns(t: Thread, ok: bool) | Ack(t: Thread, ok: bool)
    | TrySend(t: Thread)
    | Store(ts: uint64, ok: bool) | Purge(cut: uint64, ok: bool) | Trim(ok: bool)
    | Corrupt(i: nat)

  function PcOf(s: State, t: Thread): Pc { if t == Session then s.session else s.collector }

  function At(s: State, t: Thread, pc: Pc): State
  {
    if t == Session then s.(session := pc) else s.(collector := pc)
  }

  /** Releases the lock and goes on. */
  function Leave(s: State, t: Thread, pc: Pc): State { At(s, t, pc).(mu := None) }

  /** Where a goroutine goes on after drain: an error ends the session but not the collector. */
  function AfterDrain(t: Thread, ok: bool): Pc
  {
    if t == Collector then WantsSend else if ok then Serves else Closes
  }

  function AfterSend(t: Thread, ok: bool): Pc
  {
    if t == Collector then (if ok then Idle else Stores) else if ok then Serves else Closes
  }

  function Dropped(dropped: map<Id, Fate>, es: seq<Item>, fate: Fate): map<Id, Fate>
  {
    dropped + map id | id in Values(es) :: fate
  }

  predicate SendsItem(pc: Pc)
  {
    pc.Drains? && pc.d.Sending? && pc.d.next < |pc.d.items| && pc.d.items[pc.d.next].value.Some?
  }

  predicate Enabled(s: State, step: Step)
  {
    match step
    case Connect => s.session == Idle
    case Publish => s.session == Publishes && s.mu == None
    case Close => s.session == Closes && s.mu == None
    case Beat => s.session == Serves
    case StreamEnds => s.session == Serves
    case Collect(id) => s.collector == Idle && id !in s.collected
    case Lock(t) => PcOf(s, t) == WantsDrain && s.mu == None
    case View(t, _) => PcOf(s, t) == Drains(Peeking)
    case Discard(t, _) => PcOf(s, t).Drains? && PcOf(s, t).d.Discarding?
    case SendReturns(t, _) => PcOf(s, t) == Sends || SendsItem(PcOf(s, t))
    case Ack(t, _) => PcOf(s, t).Drains? && PcOf(s, t).d.Acking?
    case TrySend(t) => PcOf(s, t) == WantsSend && s.mu == None
    case Store(_, _) => s.collector == Stores && s.hand.Some? && s.sequence + 1 < TWO64
    case Purge(_, _) => s.collector == Purges
    case Trim(_) => s.collector == Trims
    case Corrupt(i) => i < |s.spool|
  }

  /** What was found is sent; when nothing was, drain is done. */
  function Found(s: State, t: Thread, items: seq<Item>): State
  {
    if items == [] then Leave(s, t, AfterDrain(t, true)) else At(s, t, Drains(Sending(items, 0)))
  }

  /** The reading transaction of peek; undecodable entries are left for a transaction of their own. */
  function AfterView(s: State, t: Thread): State
  {
    var items, corrupt := Oldest(s.spool, REPLAY_BATCH), Undecodable(s.spool, REPLAY_BATCH);
    if corrupt == [] then Found(s, t, items) else At(s, t, Drains(Discarding(items, corrupt)))
  }

  function AfterDiscard(s: State, t: Thread, items: seq<Item>, corrupt: seq<Item>): State
  {
    Found(s.(spool := Without(s.spool, KeysOf(corrupt))), t, items)
  }

  /** A storage error ends the drain. */
  function DrainFails(s: State, t: Thread): State { Leave(s, t, AfterDrain(t, false)).(failed := true) }

  /** A send of the backlog returned. */
  function AfterReplay(s: State, t: Thread, items: seq<Item>, next: nat, ok: bool): State
    requires next < |items| && items[next].value.Some?
  {
    if ok then
      var s1 := s.(sent := s.sent + [items[next].value.value]);
      At(s1, t, Drains(if next + 1 == |items| then Acking(items, false) else Sending(items, next + 1)))
    else if next == 0 then Leave(s, t, AfterDrain(t, false))
    else At(s, t, Drains(Acking(items[..next], true)))
  }

  /** A heartbeat or live send returned; a live report that failed stays in hand. */
  function AfterLive(s: State, t: Thread, ok: bool): State
  {
    var s1 := if t == Collector && ok && s.hand.Some? then s.(sent := s.sent + [s.hand.value], hand := None) else s;
    Leave(s1, t, AfterSend(t, ok))
  }

  function AfterAck(s: State, t: Thread, items: seq<Item>, gaveUp: bool, ok: bool): State
  {
    var s1 := if ok then s.(spool := Without(s.spool, KeysOf(items))) else s.(failed := true);
    if gaveUp || !ok then Leave(s1, t, AfterDrain(t, false)) else At(s1, t, Drains(Peeking))
  }

  function AfterStore(s: State, id: Id, ts: uint64, ok: bool): State
    requires s.sequence + 1 < TWO64
  {
    var s1 := s.(hand := None);
    if !ok then s1.(dropped := s.dropped[id := NotStored], failed := true, collector := Idle)
    else
      var n := s.sequence + 1;
      var e := Entry(ts, n, Some(id));
      s1.(sequence := n, spool := Put(s.spool, e), log := s.log[n := e], collector := Purges)
  }

  function WithoutOldest(s: State, n: nat, fate: Fate): State
    requires n <= |s.spool|
  {
    s.(spool := s.spool[n..], dropped := Dropped(s.dropped, s.spool[..n], fate))
  }

  function Next(s: State, step: Step): State
    requires Enabled(s, step)
  {
    match step
    case Connect => s.(session := Publishes)
    case Publish => s.(session := WantsDrain, connected := true)
    case Close => s.(session := Idle, connected := false)
    case Beat => s.(session := WantsSend)
    case StreamEnds => s.(session := Closes)
    case Collect(id) => s.(collector := WantsDrain, hand := Some(id), collected := s.collected + {id})
    case Lock(t) =>
      if s.connected then At(s, t, Drains(Peeking)).(mu := Some(t)) else At(s, t, AfterDrain(t, true))
    case View(t, ok) => if ok then AfterView(s, t) else DrainFails(s, t)
    case Discard(t, ok) =>
      if ok then AfterDiscard(s, t, PcOf(s, t).d.items, PcOf(s, t).d.corrupt) else DrainFails(s, t)
    case SendReturns(t, ok) =>
      if PcOf(s, t) == Sends then AfterLive(s, t, ok)
      else AfterReplay(s, t, PcOf(s, t).d.items, PcOf(s, t).d.next, ok)
    case Ack(t, ok) => AfterAck(s, t, PcOf(s, t).d.items, PcOf(s, t).d.gaveUp, ok)
    case TrySend(t) => if s.connected then At(s, t, Sends).(mu := Some(t)) else At(s, t, AfterSend(t, false))
    case Store(ts, ok) => AfterStore(s, s.hand.value, ts, ok)
    case Purge(cut, ok) =>
      (if ok then WithoutOldest(s, Expired(s.spool, cut), Purged) else s.(failed := true)).(collector := Trims)
    case Trim(ok) =>
      (if ok then WithoutOldest(s, Overflow(s.spool, s.capacity), Trimmed) else s.(failed := true)).(collector := Idle)
    case Corrupt(i) =>
      s.(spool := s.spool[i := s.spool[i].(value := None)], dropped := Dropped(s.dropped, [s.spool[i]], Corrupted))
  }

  // ---------- control ----------

  predicate Critical(pc: Pc) { pc.Drains? || pc.Sends? }

  predicate HasReport(pc: Pc) { pc.WantsDrain? || pc.WantsSend? || pc.Stores? || Critical(pc) }

  predicate DrainerOk(pc: Pc)
  {
    pc.Drains? && pc.d.Sending? ==> pc.d.next < |pc.d.items|
  }

  /** The lock is held by the goroutine inside a critical section, and only while connected. */
  ghost predicate Control(s: State)
  {
    && (Critical(s.session) <==> s.mu == Some(Session))
    && (Critical(s.collector) <==> s.mu == Some(Collector))
    && (s.mu.Some? ==> s.connected)
    && (s.hand.Some? <==> HasReport(s.collector))
    && !s.session.Stores? && !s.session.Purges? && !s.session.Trims?
    && !s.collector.Publishes? && !s.collector.Serves? && !s.collector.Closes?
    && DrainerOk(s.session) && DrainerOk(s.collector)
  }

  /** What a drain works on: entries it has sent and not yet acknowledged, entries it is still going to send, the one
      under way first, and undecodable entries it is about to delete. */
  datatype Work = Work(delivered: seq<Item>, awaited: seq<Item>, discarded: seq<Item>)

  const NO_WORK := Work([], [], [])

  function WorkOf(pc: Pc): Work
  {
    match pc
    case Drains(Discarding(items, corrupt)) => Work([], items, corrupt)
    case Drains(Sending(items, n)) => if n <= |items| then Work(items[..n], items[n..], []) else NO_WORK
    case Drains(Acking(items, _)) => Work(items, [], [])
    case _ => NO_WORK
  }

  /** The work of the goroutine that holds the lock. */
  function WorkAt(s: State): Work
  {
    match s.mu
    case None => NO_WORK
    case Some(t) => WorkOf(PcOf(s, t))
  }

  // ---------- reports and entries ----------

  /** Everything but control. */
  datatype Facts = Facts(
    log: map<nat, Item>, sequence: nat, collected: set<Id>, hand: Option<Id>, spool: seq<Item>, sent: seq<Id>,
    dropped: map<Id, Fate>, failed: bool, work: Work)

  function FactsOf(s: State): Facts
  {
    Facts(s.log, s.sequence, s.collected, s.hand, s.spool, s.sent, s.dropped, s.failed, WorkAt(s))
  }

  /** A queued entry is the logged one, or what corruption left of it. */
  predicate Logged(log: map<nat, Item>, e: Item)
  {
    e.seqNo in log && e.ts == log[e.seqNo].ts && (e.value.Some? ==> e.value == log[e.seqNo].value)
  }

  ghost predicate LogOk(log: map<nat, Item>, sequence: nat, collected: set<Id>, hand: Option<Id>)
  {
    && (forall n {:trigger log[n]} :: n in log ==>
          n <= sequence && log[n].seqNo == n && log[n].value.Some? && log[n].value.value in collected
            && log[n].value != hand)
    && (forall m, n {:trigger log[m], log[n]} :: m in log && n in log && log[m].value == log[n].value ==> m == n)
  }

  ghost predicate SpoolOk(spool: seq<Item>, sequence: nat, log: map<nat, Item>)
  {
    Queue(spool, sequence) && forall e :: e in spool ==> Logged(log, e)
  }

  /** The entries a drain works on, in order, are as they were queued. */
  ghost predicate ItemsOk(log: map<nat, Item>, items: seq<Item>)
  {
    InOrder(items) && forall e :: e in items ==> e.value.Some? && e.seqNo in log && log[e.seqNo] == e
  }

  /** No report hides under the sequence number of an entry to be deleted. */
  ghost predicate Hopeless(spool: seq<Item>, sequence: nat, corrupt: seq<Item>)
  {
    && (forall c :: c in corrupt ==> c.seqNo <= sequence)
    && (forall c, e :: c in corrupt && e in spool && e.seqNo == c.seqNo ==> e.value.None?)
  }

  ghost predicate Queued(spool: seq<Item>, id: Id) { exists e :: e in spool && e.value == Some(id) }

  /** Every collected report was sent, is in the collector's hands, is in the spool, or was dropped for a recorded
      reason. */
  ghost predicate NothingLost(collected: set<Id>, sent: seq<Id>, hand: Option<Id>, spool: seq<Item>,
                              dropped: map<Id, Fate>)
  {
    forall id {:trigger id in collected} :: id in collected ==>
      id in sent || hand == Some(id) || Queued(spool, id) || id in dropped
  }

  ghost predicate KnownReports(collected: set<Id>, sent: seq<Id>, hand: Option<Id>)
  {
    (forall id :: id in sent ==> id in collected) && (hand.Some? ==> hand.value in collected)
  }

  ghost predicate AllSent(items: seq<Item>, sent: seq<Id>)
  {
    forall e :: e in items ==> e.value.Some? && e.value.value in sent
  }

  /** Nothing was sent twice, and what was sent is not going to be: it is in the spool only while its drain has yet to
      acknowledge it. */
  ghost predicate SentOnce(sent: seq<Id>, hand: Option<Id>, awaited: seq<Item>, delivered: seq<Item>, spool: seq<Item>)
  {
    && (forall id :: multiset(sent)[id] <= 1)
    && (hand.Some? ==> hand.value !in sent)
    && (forall e :: e in awaited ==> e.value.Some? && e.value.value !in sent)
    && (forall e :: e in spool && e.value.Some? && e.value.value in sent ==> e in delivered)
  }

  ghost predicate StorageErrorsNoted(dropped: map<Id, Fate>, failed: bool)
  {
    forall id :: id in dropped && dropped[id] == NotStored ==> failed
  }

  ghost predicate Sound(f: Facts)
  {
    && LogOk(f.log, f.sequence, f.collected, f.hand)
    && SpoolOk(f.spool, f.sequence, f.log)
    && ItemsOk(f.log, f.work.delivered + f.work.awaited)
    && Hopeless(f.spool, f.sequence, f.work.discarded)
    && NothingLost(f.collected, f.sent, f.hand, f.spool, f.dropped)
    && KnownReports(f.collected, f.sent, f.hand)
    && AllSent(f.work.delivered, f.sent)
    && StorageErrorsNoted(f.dropped, f.failed)
    && (!f.failed ==> SentOnce(f.sent, f.hand, f.work.awaited, f.work.delivered, f.spool))
  }

  predicate Named(f: Facts, g: Facts) { f == g }

  /** The facts are sound; stated over every name for them, so that they are looked into only where one is given. */
  ghost predicate Upheld(f: Facts)
  {
    forall g {:trigger Named(f, g)} :: Named(f, g) ==> Sound(g)
  }

  ghost predicate Inv(s: State) { Control(s) && Upheld(FactsOf(s)) }

  // ---------- looking for entries ----------

  lemma {:induction false} OldestInOrder(spool: seq<Item>, n: nat)
    requires InOrder(spool)
    ensures InOrder(Oldest(spool, n)) && forall e :: e in Oldest(spool, n) ==> e in spool && e.value.Some?
  {
    PeekFindsPrefix(spool, n);
    var kept, items := AfterPeek(spool, n), Oldest(spool, n);
    if spool != [] { PeekDropsCorrupt(spool, n, spool[0]); }
    assert forall i :: 0 <= i < |items| ==> items[i] == kept[i];
    forall e | e in items ensures e in spool {
      PeekDropsCorrupt(spool, n, e);
      var i :| 0 <= i < |items| && items[i] == e;
      assert kept[i] == e;
    }
  }

  lemma {:induction false} UndecodableIsHopeless(spool: seq<Item>, n: nat, sequence: nat, log: map<nat, Item>)
    requires SpoolOk(spool, sequence, log)
    ensures Hopeless(spool, sequence, Undecodable(spool, n))
  {
    forall c, e | c in Undecodable(spool, n) && e in spool && e.seqNo == c.seqNo ensures e.value.None? {
      assert Logged(log, c) && Logged(log, e);
      var i :| 0 <= i < |spool| && spool[i] == c;
      var j :| 0 <= j < |spool| && spool[j] == e;
      assert i < j ==> Before(c, e);
      assert j < i ==> Before(e, c);
    }
  }

  lemma {:induction false} ViewFinds(spool: seq<Item>, n: nat, sequence: nat, log: map<nat, Item>)
    requires SpoolOk(spool, sequence, log)
    requires forall m {:trigger log[m]} :: m in log ==> log[m].seqNo == m
    ensures ItemsOk(log, Oldest(spool, n)) && forall e :: e in Oldest(spool, n) ==> e in spool
  {
    OldestInOrder(spool, n);
    forall e | e in Oldest(spool, n) ensures e.seqNo in log && log[e.seqNo] == e { assert Logged(log, e); }
  }

  lemma {:induction false} ViewUpholds(f: Facts, n: nat)
    requires Upheld(f) && f.work == NO_WORK
    ensures Upheld(f.(work := Work([], Oldest(f.spool, n), Undecodable(f.spool, n))))
  {
    assert Named(f, f);
    ViewFinds(f.spool, n, f.sequence, f.log);
    UndecodableIsHopeless(f.spool, n, f.sequence, f.log);
    assert [] + Oldest(f.spool, n) == Oldest(f.spool, n);
  }

  /** Deleting hopeless entries takes no report out of the spool. */
  lemma {:induction false} DiscardKeepsSpool(spool: seq<Item>, corrupt: seq<Item>, sequence: nat, log: map<nat, Item>)
    requires SpoolOk(spool, sequence, log) && Hopeless(spool, sequence, corrupt)
    ensures var kept := Without(spool, KeysOf(corrupt));
            && SpoolOk(kept, sequence, log) && (forall e :: e in kept ==> e in spool)
            && (forall e :: e in spool && e.value.Some? ==> e in kept)
  {
    WithoutKeeps(spool, corrupt, sequence, log);
    forall e | e in spool && KeyOf(e) in KeysOf(corrupt) ensures e.value.None? {
      var i :| 0 <= i < |corrupt| && KeysOf(corrupt)[i] == KeyOf(e);
      KeyOrder(corrupt[i], e);
      assert corrupt[i] in corrupt;
    }
  }

  lemma {:induction false} WithoutKeeps(spool: seq<Item>, items: seq<Item>, sequence: nat, log: map<nat, Item>)
    requires SpoolOk(spool, sequence, log)
    ensures var kept := Without(spool, KeysOf(items));
            && SpoolOk(kept, sequence, log) && forall e :: e in kept <==> e in spool && KeyOf(e) !in KeysOf(items)
  {
    var keys := KeysOf(items);
    var kept := Without(spool, keys);
    WithoutInOrder(spool, keys);
    forall e ensures e in kept <==> e in spool && KeyOf(e) !in keys { WithoutMembers(spool, keys, e); }
    forall i | 0 <= i < |kept| ensures kept[i].seqNo <= sequence { assert kept[i] in spool; }
  }

  /** The same reports in the spool: none is lost. */
  lemma SameReports(collected: set<Id>, sent: seq<Id>, hand: Option<Id>, before: seq<Item>, after: seq<Item>,
                    dropped: map<Id, Fate>)
    requires NothingLost(collected, sent, hand, before, dropped)
    requires forall e :: e in before && e.value.Some? ==> e in after
    ensures NothingLost(collected, sent, hand, after, dropped)
  {
    forall id | id in collected ensures id in sent || hand == Some(id) || Queued(after, id) || id in dropped {
      if Queued(before, id) {
        var e :| e in before && e.value == Some(id);
        assert e in after;
      }
    }
  }

  lemma DiscardUpholds(f: Facts)
    requires Upheld(f) && f.work.delivered == []
    ensures Upheld(f.(spool := Without(f.spool, KeysOf(f.work.discarded)), work := f.work.(discarded := [])))
  {
    assert Named(f, f);
    DiscardKeepsSpool(f.spool, f.work.discarded, f.sequence, f.log);
    SameReports(f.collected, f.sent, f.hand, f.spool, Without(f.spool, KeysOf(f.work.discarded)), f.dropped);
  }

  // ---------- giving up ----------

  lemma ItemsOkPrefix(log: map<nat, Item>, a: seq<Item>, b: seq<Item>)
    requires ItemsOk(log, a + b)
    ensures ItemsOk(log, a + [])
  {
    assert a + [] == a;
    assert forall i :: 0 <= i < |a| ==> (a + b)[i] == a[i];
    forall e | e in a ensures e in a + b {}
  }

  /** A drain may give up what it was still going to send and to delete. */
  lemma GivingUpUpholds(f: Facts, failed: bool)
    requires Upheld(f) && (f.failed ==> failed)
    ensures Upheld(f.(failed := failed, work := Work(f.work.delivered, [], [])))
  {
    assert Named(f, f);
    ItemsOkPrefix(f.log, f.work.delivered, f.work.awaited);
  }

  // ---------- replaying one entry ----------

  /** Two logged entries with the same report are the same entry. */
  lemma SameItem(log: map<nat, Item>, sequence: nat, collected: set<Id>, hand: Option<Id>, e: Item, f: Item)
    requires LogOk(log, sequence, collected, hand) && Logged(log, e) && Logged(log, f)
    requires e.value.Some? && e.value == f.value
    ensures e == f
  {
    assert log[e.seqNo].value == log[f.seqNo].value;
  }

  lemma SendSentOnce(sent: seq<Id>, hand: Option<Id>, items: seq<Item>, next: nat, spool: seq<Item>,
                     log: map<nat, Item>, sequence: nat, collected: set<Id>)
    requires next < |items| && ItemsOk(log, items) && LogOk(log, sequence, collected, hand)
             && SpoolOk(spool, sequence, log)
    requires SentOnce(sent, hand, items[next..], items[..next], spool)
    ensures items[next].value.Some?
    ensures SentOnce(sent + [items[next].value.value], hand, items[next + 1..], items[..next + 1], spool)
  {
    var e := items[next];
    assert e in items && e in items[next..];
    var id := e.value.value;
    assert log[e.seqNo] == e;
    forall f | f in items[next + 1..] ensures f.value.value != id {
      var j :| next < j < |items| && items[j] == f;
      assert Before(e, f);
      if f.value == e.value { SameItem(log, sequence, collected, hand, e, f); }
    }
    forall f | f in spool && f.value == Some(id) ensures f in items[..next + 1] {
      SameItem(log, sequence, collected, hand, e, f);
      assert items[..next + 1][next] == e;
    }
    assert forall f :: f in items[..next] ==> f in items[..next + 1];
    assert forall f :: f in items[next + 1..] ==> f in items[next..];
  }

  lemma Halves<T>(a: seq<T>, n: nat)
    requires n <= |a|
    ensures a[..n] + a[n..] == a
  {
  }

  lemma SentGrows(f: Facts, items: seq<Item>, next: nat)
    requires next < |items| && ItemsOk(f.log, items) && LogOk(f.log, f.sequence, f.collected, f.hand)
    requires AllSent(items[..next], f.sent) && KnownReports(f.collected, f.sent, f.hand)
    requires NothingLost(f.collected, f.sent, f.hand, f.spool, f.dropped)
    ensures items[next].value.Some?
    ensures var sent := f.sent + [items[next].value.value];
            && AllSent(items[..next + 1], sent) && KnownReports(f.collected, sent, f.hand)
            && NothingLost(f.collected, sent, f.hand, f.spool, f.dropped)
  {
    assert items[next] in items;
    assert f.log[items[next].seqNo] == items[next];
    TakeNext(items, next);
  }

  /** The work of a drain that has sent the first `n` of its items. */
  function SentSoFar(items: seq<Item>, n: nat): Work
    requires n <= |items|
  {
    Work(items[..n], items[n..], [])
  }

  lemma ReplayUpholds(f: Facts, items: seq<Item>, next: nat)
    requires Upheld(f) && next < |items| && items[next].value.Some? && f.work == SentSoFar(items, next)
    ensures Upheld(f.(sent := f.sent + [items[next].value.value], work := SentSoFar(items, next + 1)))
  {
    assert Named(f, f);
    Halves(items, next);
    Halves(items, next + 1);
    SentGrows(f, items, next);
    if !f.failed { SendSentOnce(f.sent, f.hand, items, next, f.spool, f.log, f.sequence, f.collected); }
  }

  // ---------- live sends ----------

  lemma HandNotQueued(f: Facts)
    requires LogOk(f.log, f.sequence, f.collected, f.hand) && SpoolOk(f.spool, f.sequence, f.log)
    ensures forall e :: e in f.spool && e.value.Some? ==> e.value != f.hand
  {
    forall e | e in f.spool && e.value.Some? ensures e.value != f.hand { assert f.log[e.seqNo].value != f.hand; }
  }

  lemma LiveUpholds(f: Facts)
    requires Upheld(f) && f.work == NO_WORK && f.hand.Some?
    ensures Upheld(f.(sent := f.sent + [f.hand.value], hand := None))
  {
    assert Named(f, f);
    HandNotQueued(f);
  }

  // ---------- acknowledging ----------

  /** Only entries that were sent are acknowledged. */
  lemma {:induction false} AckRemovesSent(spool: seq<Item>, items: seq<Item>, sequence: nat, log: map<nat, Item>,
                                          sent: seq<Id>)
    requires SpoolOk(spool, sequence, log) && ItemsOk(log, items) && AllSent(items, sent)
    ensures var kept := Without(spool, KeysOf(items));
            && SpoolOk(kept, sequence, log) && (forall e :: e in kept ==> e in spool)
            && (forall e :: e in spool && e !in kept && e.value.Some? ==> e.value.value in sent)
            && (forall e :: e in kept ==> e !in items)
  {
    var keys := KeysOf(items);
    WithoutKeeps(spool, items, sequence, log);
    forall e | e in spool && KeyOf(e) in keys && e.value.Some? ensures e.value.value in sent {
      var i :| 0 <= i < |items| && keys[i] == KeyOf(e);
      KeyOrder(items[i], e);
      assert items[i] in items;
    }
    forall e | e in items ensures KeyOf(e) in keys {
      var i :| 0 <= i < |items| && items[i] == e;
      assert keys[i] == KeyOf(e);
    }
  }

  lemma AckLosesNothing(collected: set<Id>, sent: seq<Id>, hand: Option<Id>, before: seq<Item>, after: seq<Item>,
                        dropped: map<Id, Fate>)
    requires NothingLost(collected, sent, hand, before, dropped)
    requires forall e :: e in before && e !in after && e.value.Some? ==> e.value.value in sent
    ensures NothingLost(collected, sent, hand, after, dropped)
  {
    forall id | id in collected ensures id in sent || hand == Some(id) || Queued(after, id) || id in dropped {
      if Queued(before, id) {
        var e :| e in before && e.value == Some(id);
        assert e in after ==> Queued(after, id);
      }
    }
  }

  lemma AckUpholds(f: Facts, items: seq<Item>)
    requires Upheld(f) && f.work == Work(items, [], [])
    ensures Upheld(f.(spool := Without(f.spool, KeysOf(items)), work := NO_WORK))
  {
    assert Named(f, f);
    assert items + [] == items;
    AckRemovesSent(f.spool, items, f.sequence, f.log, f.sent);
    AckLosesNothing(f.collected, f.sent, f.hand, f.spool, Without(f.spool, KeysOf(items)), f.dropped);
  }

  /** After a storage error what was sent may be sent again. */
  lemma AckFailedUpholds(f: Facts, items: seq<Item>)
    requires Upheld(f) && f.work == Work(items, [], [])
    ensures Upheld(f.(failed := true, work := NO_WORK))
  {
    assert Named(f, f);
  }

  // ---------- storing ----------

  lemma {:induction false} StoreKeepsSpool(spool: seq<Item>, sequence: nat, log: map<nat, Item>, e: Item)
    requires SpoolOk(spool, sequence, log) && e.seqNo == sequence + 1 < TWO64 && e.value.Some?
    requires forall n {:trigger log[n]} :: n in log ==> n <= sequence
    ensures SpoolOk(Put(spool, e), sequence + 1, log[e.seqNo := e])
    ensures forall f :: f in Put(spool, e) <==> f in spool || f == e
  {
    PutInOrder(spool, e);
    var next := Put(spool, e);
    forall f ensures f in next <==> f in spool || f == e {
      assert f in next <==> f in multiset(next);
      assert f in spool <==> f in multiset(spool);
    }
    forall i | 0 <= i < |next| ensures next[i].seqNo <= sequence + 1 { assert next[i] in next; }
  }

  lemma StoreKeepsLog(log: map<nat, Item>, sequence: nat, collected: set<Id>, id: Id, e: Item)
    requires LogOk(log, sequence, collected, Some(id)) && e.seqNo == sequence + 1 && e.value == Some(id)
             && id in collected
    ensures LogOk(log[e.seqNo := e], sequence + 1, collected, None)
  {
    var next := log[e.seqNo := e];
    forall m, n | m in next && n in next && next[m].value == next[n].value ensures m == n {
      assert m != e.seqNo ==> log[m].value != Some(id);
      assert n != e.seqNo ==> log[n].value != Some(id);
    }
  }

  lemma StoreKeepsItems(log: map<nat, Item>, sequence: nat, items: seq<Item>, e: Item)
    requires ItemsOk(log, items) && e.seqNo == sequence + 1
    requires forall n {:trigger log[n]} :: n in log ==> n <= sequence
    ensures ItemsOk(log[e.seqNo := e], items)
  {
    forall f | f in items ensures log[e.seqNo := e][f.seqNo] == f { assert log[f.seqNo] == f; }
  }

  lemma StoreKeepsReports(f: Facts, e: Item, spool: seq<Item>)
    requires f.hand.Some? && e.value == f.hand && forall g :: g in spool <==> g in f.spool || g == e
    requires NothingLost(f.collected, f.sent, f.hand, f.spool, f.dropped)
    ensures NothingLost(f.collected, f.sent, None, spool, f.dropped)
  {
    forall id | id in f.collected ensures id in f.sent || Queued(spool, id) || id in f.dropped {
      if Queued(f.spool, id) {
        var g :| g in f.spool && g.value == Some(id);
        assert g in spool;
      }
      assert e in spool;
    }
  }

  lemma StoreKeepsWork(f: Facts, e: Item, spool: seq<Item>)
    requires e.seqNo == f.sequence + 1 && e.value == f.hand && forall g :: g in spool <==> g in f.spool || g == e
    requires Hopeless(f.spool, f.sequence, f.work.discarded)
    ensures Hopeless(spool, e.seqNo, f.work.discarded)
    ensures SentOnce(f.sent, f.hand, f.work.awaited, f.work.delivered, f.spool)
        ==> SentOnce(f.sent, None, f.work.awaited, f.work.delivered, spool)
  {
  }

  function StoredFacts(f: Facts, e: Item): Facts
  {
    f.(hand := None, sequence := e.seqNo, spool := Put(f.spool, e), log := f.log[e.seqNo := e])
  }

  lemma StoreUpholds(f: Facts, e: Item)
    requires Upheld(f) && f.hand.Some? && e.value == f.hand && e.seqNo == f.sequence + 1 < TWO64
    ensures Upheld(StoredFacts(f, e))
  {
    assert Named(f, f);
    StoreKeepsSpool(f.spool, f.sequence, f.log, e);
    StoreKeepsLog(f.log, f.sequence, f.collected, f.hand.value, e);
    StoreKeepsItems(f.log, f.sequence, f.work.delivered + f.work.awaited, e);
    StoreKeepsReports(f, e, Put(f.spool, e));
    StoreKeepsWork(f, e, Put(f.spool, e));
  }

  lemma NotStoredUpholds(f: Facts)
    requires Upheld(f) && f.hand.Some?
    ensures Upheld(f.(hand := None, dropped := f.dropped[f.hand.value := NotStored], failed := true))
  {
    assert Named(f, f);
  }

  // ---------- dropping ----------

  lemma {:induction false} ValueListed(es: seq<Item>, e: Item)
    requires e in es && e.value.Some?
    ensures e.value.value in Values(es)
  {
    if es[0] == e {
    } else {
      ValueListed(es[1..], e);
    }
  }

  lemma DropLosesNothing(f: Facts, spool: seq<Item>, dropped: map<Id, Fate>)
    requires NothingLost(f.collected, f.sent, f.hand, f.spool, f.dropped)
    requires forall id :: id in f.dropped ==> id in dropped
    requires forall e :: e in f.spool && e.value.Some? ==> e in spool || e.value.value in dropped
    ensures NothingLost(f.collected, f.sent, f.hand, spool, dropped)
  {
    forall id | id in f.collected ensures id in f.sent || f.hand == Some(id) || Queued(spool, id) || id in dropped {
      if Queued(f.spool, id) {
        var e :| e in f.spool && e.value == Some(id);
        assert e in spool ==> Queued(spool, id);
      }
    }
  }

  /** `spool` lacks the entries `gone`, or their values. */
  ghost predicate Shrunk(f: Facts, spool: seq<Item>, gone: seq<Item>)
  {
    && SpoolOk(spool, f.sequence, f.log)
    && (forall e :: e in spool && e.value.Some? ==> e in f.spool)
    && (forall e :: e in spool ==> exists g :: g in f.spool && g.seqNo == e.seqNo && (g.value.None? ==> e.value.None?))
    && (forall e :: e in f.spool && e.value.Some? ==> e in spool || e in gone)
  }

  /** Some entries leave the spool, or lose their value, and their reports are recorded as dropped. */
  lemma DropUpholds(f: Facts, spool: seq<Item>, gone: seq<Item>, fate: Fate)
    requires Upheld(f) && fate != NotStored && Shrunk(f, spool, gone)
    ensures Upheld(f.(spool := spool, dropped := Dropped(f.dropped, gone, fate)))
  {
    assert Named(f, f);
    var dropped := Dropped(f.dropped, gone, fate);
    forall e | e in gone && e.value.Some? ensures e.value.value in dropped { ValueListed(gone, e); }
    DropLosesNothing(f, spool, dropped);
    ShrunkIsHopeless(f, spool, gone);
  }

  lemma ShrunkIsHopeless(f: Facts, spool: seq<Item>, gone: seq<Item>)
    requires Shrunk(f, spool, gone) && Hopeless(f.spool, f.sequence, f.work.discarded)
    ensures Hopeless(spool, f.sequence, f.work.discarded)
  {
    forall c, e | c in f.work.discarded && e in spool && e.seqNo == c.seqNo ensures e.value.None? {
      var g :| g in f.spool && g.seqNo == e.seqNo && (g.value.None? ==> e.value.None?);
    }
  }

  lemma OldestShrinks(f: Facts, n: nat)
    requires SpoolOk(f.spool, f.sequence, f.log) && n <= |f.spool|
    ensures Shrunk(f, f.spool[n..], f.spool[..n])
  {
    Halves(f.spool, n);
    assert forall e :: e in f.spool[n..] ==> e in f.spool;
  }

  lemma DropOldestUpholds(f: Facts, n: nat, fate: Fate)
    requires Upheld(f) && n <= |f.spool| && fate != NotStored
    ensures Upheld(f.(spool := f.spool[n..], dropped := Dropped(f.dropped, f.spool[..n], fate)))
  {
    assert Named(f, f);
    OldestShrinks(f, n);
    DropUpholds(f, f.spool[n..], f.spool[..n], fate);
  }

  lemma CorruptShrinks(f: Facts, i: nat)
    requires SpoolOk(f.spool, f.sequence, f.log) && i < |f.spool|
    ensures Shrunk(f, f.spool[i := f.spool[i].(value := None)], [f.spool[i]])
  {
    var bad := f.spool[i].(value := None);
    var spool := f.spool[i := bad];
    assert f.spool[i] in f.spool;
    forall e | e in spool ensures Logged(f.log, e) && (e == bad || e in f.spool) {
      var j :| 0 <= j < |spool| && spool[j] == e;
      assert j != i ==> f.spool[j] == e;
    }
    forall e | e in f.spool ensures e in spool || e == f.spool[i] {
      var j :| 0 <= j < |f.spool| && f.spool[j] == e;
      assert j != i ==> spool[j] == e;
    }
  }

  lemma CorruptUpholds(f: Facts, i: nat)
    requires Upheld(f) && i < |f.spool|
    ensures Upheld(f.(spool := f.spool[i := f.spool[i].(value := None)],
                      dropped := Dropped(f.dropped, [f.spool[i]], Corrupted)))
  {
    assert Named(f, f);
    CorruptShrinks(f, i);
    DropUpholds(f, f.spool[i := f.spool[i].(value := None)], [f.spool[i]], Corrupted);
  }

  // ---------- collecting ----------

  lemma CollectUpholds(f: Facts, id: Id)
    requires Upheld(f) && f.hand == None && id !in f.collected
    ensures Upheld(f.(hand := Some(id), collected := f.collected + {id}))
  {
    assert Named(f, f);
    forall n | n in f.log ensures f.log[n].value != Some(id) { assert f.log[n].value.value in f.collected; }
    forall x | x in f.collected + {id} ensures x in f.sent || x == id || Queued(f.spool, x) || x in f.dropped {
      if x != id { assert x in f.collected; }
    }
  }

  // ---------- every step ----------

  predicate IsMove(step: Step)
  {
    step.Connect? || step.Publish? || step.Close? || step.Beat? || step.StreamEnds? || step.Lock? || step.TrySend?
  }

  lemma MoveKeeps(s: State, step: Step)
    requires Control(s) && Enabled(s, step) && IsMove(step)
    ensures var u := Next(s, step); Control(u) && FactsOf(u) == FactsOf(s)
  {
    match step
    case Lock(t) => LockKeeps(s, t);
    case TrySend(t) => TrySendKeeps(s, t);
    case _ =>
  }

  lemma LockKeeps(s: State, t: Thread)
    requires Control(s) && Enabled(s, Lock(t))
    ensures var u := Next(s, Lock(t)); Control(u) && FactsOf(u) == FactsOf(s)
  {
  }

  lemma TrySendKeeps(s: State, t: Thread)
    requires Control(s) && Enabled(s, TrySend(t))
    ensures var u := Next(s, TrySend(t)); Control(u) && FactsOf(u) == FactsOf(s)
  {
  }

  /** Leaving drain puts its work down; staying in it takes up that of the next stage. */
  lemma LeavesDrain(s: State, t: Thread, ok: bool)
    requires Control(s) && PcOf(s, t).Drains?
    ensures var u := Leave(s, t, AfterDrain(t, ok)); Control(u) && FactsOf(u) == FactsOf(s).(work := NO_WORK)
  {
  }

  lemma StaysInDrain(s: State, t: Thread, d: Drainer)
    requires Control(s) && PcOf(s, t).Drains? && DrainerOk(Drains(d))
    ensures var u := At(s, t, Drains(d)); Control(u) && FactsOf(u) == FactsOf(s).(work := WorkOf(Drains(d)))
  {
  }

  lemma WorksAt(s: State, t: Thread)
    requires Control(s) && Critical(PcOf(s, t))
    ensures WorkAt(s) == WorkOf(PcOf(s, t))
  {
  }

  lemma FoundMoves(s: State, t: Thread, items: seq<Item>)
    requires Control(s) && PcOf(s, t).Drains?
    ensures var u := Found(s, t, items); Control(u) && FactsOf(u) == FactsOf(s).(work := Work([], items, []))
  {
    if items == [] {
      LeavesDrain(s, t, true);
    } else {
      StaysInDrain(s, t, Sending(items, 0));
      assert items[..0] == [] && items[0..] == items;
    }
  }

  lemma FailsMoves(s: State, t: Thread)
    requires Control(s) && PcOf(s, t).Drains?
    ensures var u := DrainFails(s, t); Control(u) && FactsOf(u) == FactsOf(s).(failed := true, work := NO_WORK)
  {
    LeavesDrain(s, t, false);
  }

  lemma ViewMoves(s: State, t: Thread)
    requires Control(s) && PcOf(s, t) == Drains(Peeking)
    ensures var u := AfterView(s, t);
            && Control(u) && WorkAt(s) == NO_WORK
            && FactsOf(u)
               == FactsOf(s).(work := Work([], Oldest(s.spool, REPLAY_BATCH), Undecodable(s.spool, REPLAY_BATCH)))
  {
    var items, corrupt := Oldest(s.spool, REPLAY_BATCH), Undecodable(s.spool, REPLAY_BATCH);
    WorksAt(s, t);
    if corrupt == [] { FoundMoves(s, t, items); } else { StaysInDrain(s, t, Discarding(items, corrupt)); }
  }

  lemma ViewKeeps(s: State, t: Thread, ok: bool)
    requires Inv(s) && Enabled(s, View(t, ok))
    ensures Inv(Next(s, View(t, ok)))
  {
    if ok {
      ViewUpholds(FactsOf(s), REPLAY_BATCH);
      ViewMoves(s, t);
    } else {
      GivingUpUpholds(FactsOf(s), true);
      FailsMoves(s, t);
    }
  }

  lemma DiscardMoves(s: State, t: Thread)
    requires Control(s) && PcOf(s, t).Drains? && PcOf(s, t).d.Discarding?
    ensures var items, corrupt := PcOf(s, t).d.items, PcOf(s, t).d.corrupt;
            var u := AfterDiscard(s, t, items, corrupt);
            && Control(u) && WorkAt(s) == Work([], items, corrupt)
            && FactsOf(u) == FactsOf(s).(spool := Without(s.spool, KeysOf(corrupt)), work := Work([], items, []))
  {
    WorksAt(s, t);
    FoundMoves(s.(spool := Without(s.spool, KeysOf(PcOf(s, t).d.corrupt))), t, PcOf(s, t).d.items);
  }

  lemma DiscardKeeps(s: State, t: Thread, ok: bool)
    requires Inv(s) && Enabled(s, Discard(t, ok))
    ensures Inv(Next(s, Discard(t, ok)))
  {
    if ok {
      DiscardUpholds(FactsOf(s));
      DiscardMoves(s, t);
    } else {
      GivingUpUpholds(FactsOf(s), true);
      FailsMoves(s, t);
    }
  }

  lemma ReplayMoves(s: State, t: Thread)
    requires Control(s) && SendsItem(PcOf(s, t))
    ensures var items, next := PcOf(s, t).d.items, PcOf(s, t).d.next;
            var u := AfterReplay(s, t, items, next, true);
            && Control(u) && WorkAt(s) == SentSoFar(items, next)
            && FactsOf(u) == FactsOf(s).(sent := s.sent + [items[next].value.value], work := SentSoFar(items, next + 1))
  {
    var items, next := PcOf(s, t).d.items, PcOf(s, t).d.next;
    WorksAt(s, t);
    TakeAll(items);
    var d := if next + 1 == |items| then Acking(items, false) else Sending(items, next + 1);
    StaysInDrain(s.(sent := s.sent + [items[next].value.value]), t, d);
  }

  lemma ReplayStops(s: State, t: Thread)
    requires Control(s) && SendsItem(PcOf(s, t))
    ensures var items, next := PcOf(s, t).d.items, PcOf(s, t).d.next;
            var u := AfterReplay(s, t, items, next, false);
            && Control(u) && WorkAt(s) == SentSoFar(items, next)
            && FactsOf(u) == FactsOf(s).(work := Work(items[..next], [], []))
  {
    var items, next := PcOf(s, t).d.items, PcOf(s, t).d.next;
    WorksAt(s, t);
    if next == 0 { LeavesDrain(s, t, false); } else { StaysInDrain(s, t, Acking(items[..next], true)); }
  }

  lemma LiveMoves(s: State, t: Thread, ok: bool)
    requires Control(s) && PcOf(s, t) == Sends
    ensures var u := AfterLive(s, t, ok);
            && Control(u) && WorkAt(s) == NO_WORK
            && FactsOf(u) == if t == Collector && ok then FactsOf(s).(sent := s.sent + [s.hand.value], hand := None)
              else FactsOf(s)
  {
  }

  lemma SendKeeps(s: State, t: Thread, ok: bool)
    requires Inv(s) && Enabled(s, SendReturns(t, ok))
    ensures Inv(Next(s, SendReturns(t, ok)))
  {
    if PcOf(s, t) == Sends {
      LiveMoves(s, t, ok);
      if t == Collector && ok { LiveUpholds(FactsOf(s)); }
    } else {
      if ok {
        ReplayMoves(s, t);
        ReplayUpholds(FactsOf(s), PcOf(s, t).d.items, PcOf(s, t).d.next);
      } else {
        ReplayStops(s, t);
        GivingUpUpholds(FactsOf(s), s.failed);
      }
    }
  }

  lemma AckMoves(s: State, t: Thread, ok: bool)
    requires Control(s) && PcOf(s, t).Drains? && PcOf(s, t).d.Acking?
    ensures var items := PcOf(s, t).d.items;
            var u := AfterAck(s, t, items, PcOf(s, t).d.gaveUp, ok);
            && Control(u) && WorkAt(s) == Work(items, [], [])
            && FactsOf(u) == if ok then FactsOf(s).(spool := Without(s.spool, KeysOf(items)), work := NO_WORK)
                             else FactsOf(s).(failed := true, work := NO_WORK)
  {
    var items := PcOf(s, t).d.items;
    var s1 := if ok then s.(spool := Without(s.spool, KeysOf(items))) else s.(failed := true);
    WorksAt(s, t);
    if PcOf(s, t).d.gaveUp || !ok { LeavesDrain(s1, t, false); } else { StaysInDrain(s1, t, Peeking); }
  }

  lemma AckKeeps(s: State, t: Thread, ok: bool)
    requires Inv(s) && Enabled(s, Ack(t, ok))
    ensures Inv(Next(s, Ack(t, ok)))
  {
    AckMoves(s, t, ok);
    if ok { AckUpholds(FactsOf(s), PcOf(s, t).d.items); } else { AckFailedUpholds(FactsOf(s), PcOf(s, t).d.items); }
  }

  lemma FailureUpholds(f: Facts)
    requires Upheld(f)
    ensures Upheld(f.(failed := true))
  {
    assert Named(f, f);
  }

  lemma CollectKeeps(s: State, id: Id)
    requires Inv(s) && Enabled(s, Collect(id))
    ensures Inv(Next(s, Collect(id)))
  {
    CollectUpholds(FactsOf(s), id);
  }

  lemma StoreMoves(s: State, ts: uint64, ok: bool)
    requires Control(s) && Enabled(s, Store(ts, ok))
    ensures var u := Next(s, Store(ts, ok));
            && Control(u)
            && FactsOf(u)
               == if ok then StoredFacts(FactsOf(s), Entry(ts, s.sequence + 1, s.hand))
                  else FactsOf(s).(hand := None, dropped := s.dropped[s.hand.value := NotStored], failed := true)
  {
  }

  lemma StoreKeeps(s: State, ts: uint64, ok: bool)
    requires Inv(s) && Enabled(s, Store(ts, ok))
    ensures Inv(Next(s, Store(ts, ok)))
  {
    StoreMoves(s, ts, ok);
    if ok { StoreUpholds(FactsOf(s), Entry(ts, s.sequence + 1, s.hand)); } else { NotStoredUpholds(FactsOf(s)); }
  }

  lemma PurgeKeeps(s: State, cut: uint64, ok: bool)
    requires Inv(s) && Enabled(s, Purge(cut, ok))
    ensures Inv(Next(s, Purge(cut, ok)))
  {
    if ok { DropOldestUpholds(FactsOf(s), Expired(s.spool, cut), Purged); } else { FailureUpholds(FactsOf(s)); }
  }

  lemma TrimKeeps(s: State, ok: bool)
    requires Inv(s) && Enabled(s, Trim(ok))
    ensures Inv(Next(s, Trim(ok)))
  {
    if ok {
      DropOldestUpholds(FactsOf(s), Overflow(s.spool, s.capacity), Trimmed);
    } else {
      FailureUpholds(FactsOf(s));
    }
  }

  lemma StepKeeps(s: State, step: Step)
    requires Inv(s) && Enabled(s, step)
    ensures Inv(Next(s, step))
  {
    match step
    case View(t, ok) => ViewKeeps(s, t, ok);
    case Discard(t, ok) => DiscardKeeps(s, t, ok);
    case SendReturns(t, ok) => SendKeeps(s, t, ok);
    case Ack(t, ok) => AckKeeps(s, t, ok);
    case Collect(id) => CollectKeeps(s, id);
    case Store(ts, ok) => StoreKeeps(s, ts, ok);
    case Purge(cut, ok) => PurgeKeeps(s, cut, ok);
    case Trim(ok) => TrimKeeps(s, ok);
    case Corrupt(i) => CorruptUpholds(FactsOf(s), i);
    case _ => MoveKeeps(s, step);
  }

  function Start(capacity: nat): State
  {
    State(capacity, None, false, Idle, Idle, None, [], 0, {}, [], map[], map[], false)
  }

  predicate Legal(s: State, steps: seq<Step>)
    decreases |steps|
  {
    steps == [] || (Enabled(s, steps[0]) && Legal(Next(s, steps[0]), steps[1..]))
  }

  function Run(s: State, steps: seq<Step>): State
    requires Legal(s, steps)
    decreases |steps|
  {
    if steps == [] then s else Run(Next(s, steps[0]), steps[1..])
  }

  lemma {:induction false} RunKeeps(s: State, steps: seq<Step>)
    requires Inv(s) && Legal(s, steps)
    ensures Inv(Run(s, steps))
    decreases |steps|
  {
    if steps == [] {
    } else {
      StepKeeps(s, steps[0]);
      RunKeeps(Next(s, steps[0]), steps[1..]);
    }
  }

  lemma {:induction false} RunIsSound(capacity: nat, steps: seq<Step>)
    requires Legal(Start(capacity), steps)
    ensures var s := Run(Start(capacity), steps); Inv(s) && Sound(FactsOf(s))
  {
    RunKeeps(Start(capacity), steps);
    var f := FactsOf(Run(Start(capacity), steps));
    assert Named(f, f);
  }

  /** A send on the stream is under way. */
  predicate InSend(pc: Pc) { pc.Sends? || (pc.Drains? && pc.d.Sending?) }

  /** In every interleaving at most one send is in progress, and only on a live stream. */
  lemma {:induction false} OneSendAtATime(capacity: nat, steps: seq<Step>)
    requires Legal(Start(capacity), steps)
    ensures var s := Run(Start(capacity), steps);
            && !(InSend(s.session) && InSend(s.collector))
            && (InSend(s.session) || InSend(s.collector) ==> s.connected)
            && forall t, ok :: Enabled(s, SendReturns(t, ok)) ==> InSend(PcOf(s, t))
  {
    RunIsSound(capacity, steps);
  }

  /** In every interleaving every collected report was sent, is in hand, is in the spool, or was dropped by age,
      capacity or corruption, or else its storage failed. */
  lemma {:induction false} EveryReportIsAccountedFor(capacity: nat, steps: seq<Step>, id: Id)
    requires Legal(Start(capacity), steps) && id in Run(Start(capacity), steps).collected
    ensures var s := Run(Start(capacity), steps);
            && (id in s.sent || s.hand == Some(id) || Queued(s.spool, id) || id in s.dropped)
            && (id in s.dropped && s.dropped[id] == NotStored ==> s.failed)
  {
    RunIsSound(capacity, steps);
  }

  /** A storage transaction of a drain or of the collector fails. */
  predicate StorageFails(step: Step)
  {
    match step
    case View(_, ok) => !ok
    case Discard(_, ok) => !ok
    case Ack(_, ok) => !ok
    case Store(_, ok) => !ok
    case Purge(_, ok) => !ok
    case Trim(ok) => !ok
    case _ => false
  }

  lemma LiveFailsNothing(s: State, t: Thread, ok: bool)
    ensures AfterLive(s, t, ok).failed == s.failed
  {
  }

  lemma ReplayFailsNothing(s: State, t: Thread, items: seq<Item>, next: nat, ok: bool)
    requires next < |items| && items[next].value.Some?
    ensures AfterReplay(s, t, items, next, ok).failed == s.failed
  {
  }

  lemma SendFailsNothing(s: State, t: Thread, ok: bool)
    requires Enabled(s, SendReturns(t, ok))
    ensures Next(s, SendReturns(t, ok)).failed == s.failed
  {
    if PcOf(s, t) == Sends {
      LiveFailsNothing(s, t, ok);
    } else {
      ReplayFailsNothing(s, t, PcOf(s, t).d.items, PcOf(s, t).d.next, ok);
    }
  }

  lemma LookFails(s: State, t: Thread, ok: bool)
    ensures Enabled(s, View(t, ok)) ==> Next(s, View(t, ok)).failed == (s.failed || !ok)
    ensures Enabled(s, Discard(t, ok)) ==> Next(s, Discard(t, ok)).failed == (s.failed || !ok)
  {
  }

  lemma FailedNext(s: State, step: Step)
    requires Enabled(s, step)
    ensures Next(s, step).failed == (s.failed || StorageFails(step))
  {
    match step
    case SendReturns(t, ok) => SendFailsNothing(s, t, ok);
    case View(t, ok) => LookFails(s, t, ok);
    case Discard(t, ok) => LookFails(s, t, ok);
    case _ =>
  }

  lemma {:induction false} FailedTells(s: State, steps: seq<Step>)
    requires Legal(s, steps) && forall i :: 0 <= i < |steps| ==> !StorageFails(steps[i])
    ensures Run(s, steps).failed == s.failed
    decreases |steps|
  {
    if steps == [] {
    } else {
      FailedNext(s, steps[0]);
      FailedTells(Next(s, steps[0]), steps[1..]);
    }
  }

  /** In every interleaving in which no storage transaction fails no report is sent successfully twice. */
  lemma {:induction false} NoReportIsSentTwice(capacity: nat, steps: seq<Step>, id: Id)
    requires Legal(Start(capacity), steps) && forall i :: 0 <= i < |steps| ==> !StorageFails(steps[i])
    ensures multiset(Run(Start(capacity), steps).sent)[id] <= 1
  {
    RunIsSound(capacity, steps);
    FailedTells(Start(capacity), steps);
  }

  /** In every interleaving drain takes a report out of the spool only after its send succeeded, be it by acknowledging
      or by deleting what it could not decode. */
  lemma {:induction false} RemovedOnlyAfterSend(capacity: nat, steps: seq<Step>, step: Step, e: Item)
    requires Legal(Start(capacity), steps)
    requires (step.Ack? || step.Discard? || step.View?) && Enabled(Run(Start(capacity), steps), step)
    requires e in Run(Start(capacity), steps).spool && e.value.Some?
    ensures var s := Run(Start(capacity), steps);
            e in Next(s, step).spool || (step.Ack? && e.value.value in s.sent)
  {
    RunIsSound(capacity, steps);
    DrainTakesSent(Run(Start(capacity), steps), step, e);
  }

  lemma DrainTakesSent(s: State, step: Step, e: Item)
    requires Control(s) && Sound(FactsOf(s)) && Enabled(s, step) && e in s.spool && e.value.Some?
    requires step.Ack? || step.Discard? || step.View?
    ensures e in Next(s, step).spool || (step.Ack? && e.value.value in s.sent)
  {
    match step
    case Ack(t, ok) => AckTakesSent(s, t, ok, e);
    case Discard(t, ok) => DiscardTakesNothing(s, t, ok, e);
    case View(t, ok) => ViewTakesNothing(s, t, ok);
  }

  lemma ViewTakesNothing(s: State, t: Thread, ok: bool)
    requires Control(s) && Enabled(s, View(t, ok))
    ensures Next(s, View(t, ok)).spool == s.spool
  {
    if ok { ViewMoves(s, t); } else { FailsMoves(s, t); }
  }

  lemma DiscardTakesNothing(s: State, t: Thread, ok: bool, e: Item)
    requires Control(s) && Sound(FactsOf(s)) && Enabled(s, Discard(t, ok)) && e in s.spool && e.value.Some?
    ensures e in Next(s, Discard(t, ok)).spool
  {
    DiscardMoves(s, t);
    DiscardKeepsSpool(s.spool, PcOf(s, t).d.corrupt, s.sequence, s.log);
  }

  lemma AckTakesSent(s: State, t: Thread, ok: bool, e: Item)
    requires Control(s) && Sound(FactsOf(s)) && Enabled(s, Ack(t, ok)) && e in s.spool && e.value.Some?
    ensures e in Next(s, Ack(t, ok)).spool || e.value.value in s.sent
  {
    AckMoves(s, t, ok);
    AckedWereSent(FactsOf(s), PcOf(s, t).d.items, e);
  }

  lemma AckedWereSent(f: Facts, items: seq<Item>, e: Item)
    requires Sound(f) && f.work == Work(items, [], []) && e in f.spool && e.value.Some?
    ensures e in Without(f.spool, KeysOf(items)) || e.value.value in f.sent
  {
    assert items + [] == items;
    AckRemovesSent(f.spool, items, f.sequence, f.log, f.sent);
  }

  lemma NextInItems(log: map<nat, Item>, items: seq<Item>, next: nat)
    requires next < |items| && ItemsOk(log, items[..next] + items[next..])
    ensures items[next].value.Some?
  {
    Halves(items, next);
    assert items[next] in items;
  }

  /** A send that is under way can always return, either way: no data is missing. */
  lemma {:induction false} SendsCanReturn(capacity: nat, steps: seq<Step>, t: Thread, ok: bool)
    requires Legal(Start(capacity), steps) && InSend(PcOf(Run(Start(capacity), steps), t))
    ensures Enabled(Run(Start(capacity), steps), SendReturns(t, ok))
  {
    RunIsSound(capacity, steps);
    var s := Run(Start(capacity), steps);
    if PcOf(s, t).Drains? { NextInItems(s.log, PcOf(s, t).d.items, PcOf(s, t).d.next); }
  }

  // ---------- why reports are dropped ----------

  /** Neither the capacity nor a fate changes. */
  predicate Settled(s: State, u: State) { u.capacity == s.capacity && u.dropped == s.dropped }

  lemma LeavingSettles(s: State, t: Thread, pc: Pc)
    ensures Settled(s, At(s, t, pc)) && Settled(s, Leave(s, t, pc))
    ensures Settled(s, DrainFails(s, t))
  {
  }

  lemma FoundSettles(s: State, t: Thread, items: seq<Item>)
    ensures Settled(s, Found(s, t, items))
  {
    LeavingSettles(s, t, AfterDrain(t, true));
    LeavingSettles(s, t, Drains(Sending(items, 0)));
  }

  lemma ViewSettles(s: State, t: Thread)
    ensures Settled(s, AfterView(s, t))
  {
    FoundSettles(s, t, Oldest(s.spool, REPLAY_BATCH));
    LeavingSettles(s, t, Drains(Discarding(Oldest(s.spool, REPLAY_BATCH), Undecodable(s.spool, REPLAY_BATCH))));
  }

  /** A goroutine's moves within drain settle nothing. */
  lemma DrainMoves(s: State, step: Step)
    requires Enabled(s, step) && (step.View? || step.Discard?)
    ensures Settled(s, Next(s, step))
  {
    match step
    case View(t, ok) => if ok { ViewSettles(s, t); } else { LeavingSettles(s, t, AfterDrain(t, false)); }
    case Discard(t, ok) =>
      LeavingSettles(s, t, AfterDrain(t, false));
      if ok {
        var spool := Without(s.spool, KeysOf(PcOf(s, t).d.corrupt));
        FoundSettles(s.(spool := spool), t, PcOf(s, t).d.items);
      }
  }

  lemma AckSettles(s: State, t: Thread, items: seq<Item>, gaveUp: bool, ok: bool)
    ensures Settled(s, AfterAck(s, t, items, gaveUp, ok))
  {
    var s1 := if ok then s.(spool := Without(s.spool, KeysOf(items))) else s.(failed := true);
    LeavingSettles(s1, t, AfterDrain(t, false));
    LeavingSettles(s1, t, Drains(Peeking));
  }

  lemma SendMoves(s: State, t: Thread, ok: bool)
    requires Enabled(s, SendReturns(t, ok))
    ensures var u := Next(s, SendReturns(t, ok)); u.capacity == s.capacity && u.dropped == s.dropped
  {
    if PcOf(s, t) != Sends { assert SendsItem(PcOf(s, t)); }
  }

  lemma StepKeepsCapacity(s: State, step: Step)
    requires Enabled(s, step)
    ensures Next(s, step).capacity == s.capacity
    ensures Next(s, step).dropped == s.dropped || step.Store? || step.Purge? || step.Trim? || step.Corrupt?
  {
    match step
    case View(_, _) => DrainMoves(s, step);
    case Discard(_, _) => DrainMoves(s, step);
    case Ack(t, ok) => AckSettles(s, t, PcOf(s, t).d.items, PcOf(s, t).d.gaveUp, ok);
    case SendReturns(t, ok) => SendMoves(s, t, ok);
    case Connect =>
    case Publish =>
    case Close =>
    case Beat =>
    case StreamEnds =>
    case Collect(_) =>
    case Lock(_) =>
    case TrySend(_) =>
    case Store(_, _) =>
    case Purge(_, _) =>
    case Trim(_) =>
    case Corrupt(_) =>
  }

  lemma {:induction false} CapacityStays(s: State, steps: seq<Step>)
    requires Legal(s, steps)
    ensures Run(s, steps).capacity == s.capacity
    decreases |steps|
  {
    if steps == [] {
    } else {
      StepKeepsCapacity(s, steps[0]);
      CapacityStays(Next(s, steps[0]), steps[1..]);
    }
  }

  lemma {:induction false} SpoolInOrder(capacity: nat, steps: seq<Step>)
    requires Legal(Start(capacity), steps)
    ensures InOrder(Run(Start(capacity), steps).spool)
  {
    RunIsSound(capacity, steps);
  }

  /** Every purge takes exactly the entries older than its cutoff, and every trim exactly the oldest ones beyond the
      capacity. */
  lemma {:induction false} CutsAreExact(capacity: nat, steps: seq<Step>, cut: uint64)
    requires Legal(Start(capacity), steps)
    ensures var s := Run(Start(capacity), steps);
            && (s.collector == Purges ==> PurgedExactly(s.spool, Next(s, Purge(cut, true)).spool, cut))
            && (s.collector == Trims ==> TrimmedExactly(s.spool, Next(s, Trim(true)).spool, capacity))
  {
    SpoolInOrder(capacity, steps);
    CapacityStays(Start(capacity), steps);
    var s := Run(Start(capacity), steps);
    if s.collector == Purges { PurgeIsExact(s, cut); }
    if s.collector == Trims { TrimIsExact(s); }
  }

  lemma PurgeIsExact(s: State, cut: uint64)
    requires InOrder(s.spool) && s.collector == Purges
    ensures PurgedExactly(s.spool, Next(s, Purge(cut, true)).spool, cut)
  {
    ExpiredIsExact(s.spool, cut);
  }

  lemma TrimIsExact(s: State)
    requires s.collector == Trims
    ensures TrimmedExactly(s.spool, Next(s, Trim(true)).spool, s.capacity)
  {
  }

  ghost predicate PurgedExactly(before: seq<Item>, after: seq<Item>, cut: uint64)
  {
    && |after| <= |before| && after == before[|before| - |after|..]
    && forall i :: 0 <= i < |before| ==> (i < |before| - |after| <==> before[i].ts < cut)
  }

  ghost predicate TrimmedExactly(before: seq<Item>, after: seq<Item>, capacity: nat)
  {
    && |after| == (if |before| < capacity then |before| else capacity)
    && after == before[|before| - |after|..]
  }

  /** The step gives this report a fate it did not have. */
  predicate Sealed(s: State, t: State, id: Id)
  {
    id in t.dropped && (id !in s.dropped || s.dropped[id] != t.dropped[id])
  }

  /** An entry with the report that one transaction takes out. */
  ghost predicate TakenOut(s: State, t: State, id: Id)
  {
    exists e :: e in s.spool && e !in t.spool && e.value == Some(id)
  }

  ghost predicate Deserved(s: State, step: Step, t: State, id: Id, fate: Fate)
  {
    match fate
    case Purged => step.Purge? && step.ok && TakenOut(s, t, id)
    case Trimmed => step.Trim? && step.ok && TakenOut(s, t, id)
    case Corrupted => step.Corrupt? && 0 <= step.i < |s.spool| && s.spool[step.i].value == Some(id)
    case NotStored => step.Store? && !step.ok && s.hand == Some(id)
  }

  /** In every interleaving a report's fate is what happened to it: purged by a purge and trimmed by a trim that took
      its entry out, corrupted by the loss of its entry's contents, or not stored because storing it failed. */
  lemma {:induction false} FatesAreDeserved(capacity: nat, steps: seq<Step>, step: Step, id: Id)
    requires Legal(Start(capacity), steps) && Enabled(Run(Start(capacity), steps), step)
    ensures var s := Run(Start(capacity), steps);
            var t := Next(s, step);
            Sealed(s, t, id) ==> Deserved(s, step, t, id, t.dropped[id])
  {
    SpoolInOrder(capacity, steps);
    FateOfStep(Run(Start(capacity), steps), step, id);
  }

  lemma FateOfStep(s: State, step: Step, id: Id)
    requires InOrder(s.spool) && Enabled(s, step)
    ensures var t := Next(s, step); Sealed(s, t, id) ==> Deserved(s, step, t, id, t.dropped[id])
  {
    match step
    case Purge(cut, ok) => if ok { OldestTakenOut(s, Expired(s.spool, cut), Purged, id); }
    case Trim(ok) => if ok { OldestTakenOut(s, Overflow(s.spool, s.capacity), Trimmed, id); }
    case Corrupt(i) => OneValue(s.spool[i], id);
    case Store(_, _) =>
    case _ => StepKeepsCapacity(s, step);
  }

  lemma OneValue(e: Item, id: Id)
    ensures id in Values([e]) <==> e.value == Some(id)
  {
    ValuesOfOne(e);
  }

  lemma {:induction false} ValuesAreTheirs(es: seq<Item>, id: Id)
    ensures id in Values(es) <==> exists i :: 0 <= i < |es| && es[i].value == Some(id)
  {
    if es == [] {
    } else {
      ValuesAreTheirs(es[1..], id);
      assert forall i :: 1 <= i < |es| ==> es[i] == es[1..][i - 1];
    }
  }

  lemma OldestTakenOut(s: State, n: nat, fate: Fate, id: Id)
    requires n <= |s.spool| && InOrder(s.spool)
    ensures var t := WithoutOldest(s, n, fate);
            Sealed(s, t, id) ==> t.dropped[id] == fate && TakenOut(s, t, id)
  {
    var t := WithoutOldest(s, n, fate);
    if Sealed(s, t, id) {
      ValuesAreTheirs(s.spool[..n], id);
      var i :| 0 <= i < n && s.spool[..n][i].value == Some(id);
      assert s.spool[i] !in t.spool;
    }
  }
}
