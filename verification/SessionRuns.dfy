/** What the goroutines get done when nothing disturbs them: the steps of a drain, of a report sent live and of a report
    stored while offline, from any state. */
module SessionRuns {
  import opened Ordering
  import opened ByteCodec
  import opened Spools
  import opened Sessions
  import opened SessionSteps

  predicate Same(a: seq<Step>, b: seq<Step>) { a == b }

  /** These steps can be taken and lead from one state to the other; stated over every name for them, so that the run is
      looked into only where one is given. */
  ghost predicate Leads(s: State, steps: seq<Step>, u: State)
  {
    forall x {:trigger Same(steps, x)} :: Same(steps, x) ==> Legal(s, x) && Run(s, x) == u
  }

  lemma {:induction false} LedTo(s: State, steps: seq<Step>, u: State)
    requires Leads(s, steps, u)
    ensures Legal(s, steps) && Run(s, steps) == u
  {
    assert Same(steps, steps);
  }

  lemma LeadsNowhere(s: State)
    ensures Leads(s, [], s)
  {
  }

  lemma RunFirst(s: State, step: Step, t: State, rest: seq<Step>, u: State)
    requires Enabled(s, step) && Next(s, step) == t && Leads(t, rest, u)
    ensures Leads(s, [step] + rest, u)
  {
    LedTo(t, rest, u);
    assert ([step] + rest)[1..] == rest;
  }

  lemma OneStep(s: State, step: Step, t: State)
    requires Enabled(s, step) && Next(s, step) == t
    ensures Leads(s, [step], t)
  {
    LeadsNowhere(t);
    RunFirst(s, step, t, [], t);
    assert [step] + [] == [step];
  }

  lemma FirstStep(s: State, a: seq<Step>, u: State) returns (t: State)
    requires a != [] && Leads(s, a, u)
    ensures Enabled(s, a[0]) && t == Next(s, a[0]) && Leads(t, a[1..], u)
  {
    LedTo(s, a, u);
    t := Next(s, a[0]);
  }

  lemma {:induction false} RunJoined(s: State, a: seq<Step>, u: State, b: seq<Step>, v: State)
    requires Leads(s, a, u) && Leads(u, b, v)
    ensures Leads(s, a + b, v)
    decreases |a|
  {
    if a == [] {
      LedTo(s, a, u);
      assert a + b == b;
    } else {
      var t := FirstStep(s, a, u);
      RunJoined(t, a[1..], u, b, v);
      RunFirst(s, a[0], t, a[1..] + b, v);
      assert a + b == [a[0]] + (a[1..] + b);
    }
  }

  // ---------- a drain ----------

  lemma AtAgain(s: State, t: Thread, a: Pc, b: Pc)
    ensures PcOf(At(s, t, a), t) == a && At(At(s, t, a), t, b) == At(s, t, b)
    ensures Leave(At(s, t, a), t, b) == Leave(s, t, b)
  {
  }

  /** The state with this spool and these reports sent. */
  function After(s: State, spool: seq<Item>, sent: seq<Id>): State { s.(spool := spool, sent := sent) }

  /** Deleting the undecodable entries met leaves what the search leaves. */
  lemma {:induction false} DiscardLeaves(es: seq<Item>, n: nat)
    requires InOrder(es)
    ensures Without(es, KeysOf(Undecodable(es, n))) == AfterPeek(es, n)
  {
    if es == [] || n == 0 {
      assert KeysOf(Undecodable(es, n)) == [];
      NothingListed(es, []);
    } else {
      var m := if es[0].value.Some? then n - 1 else n;
      var later := Undecodable(es[1..], m);
      DiscardLeaves(es[1..], m);
      forall k | k in KeysOf(later) ensures k != KeyOf(es[0]) { LaterKey(es, later, k); }
      if es[0].value.Some? {
        assert Undecodable(es, n) == later;
      } else {
        assert KeysOf([es[0]] + later) == [KeyOf(es[0])] + KeysOf(later);
        FirstKeyIsApart(es, KeysOf(later));
      }
    }
  }

  lemma LaterKey(es: seq<Item>, later: seq<Item>, k: Bytes)
    requires es != [] && InOrder(es) && k in KeysOf(later) && forall e :: e in later ==> e in es[1..]
    ensures k != KeyOf(es[0])
  {
    var i :| 0 <= i < |later| && KeysOf(later)[i] == k;
    assert later[i] in es[1..];
    var j :| 0 <= j < |es[1..]| && es[1..][j] == later[i];
    KeyOrder(es[0], es[j + 1]);
  }

  lemma {:induction false} FirstKeyIsApart(es: seq<Item>, keys: seq<Bytes>)
    requires es != [] && InOrder(es)
    ensures Without(es[1..], [KeyOf(es[0])] + keys) == Without(es[1..], keys)
  {
    forall i | 0 <= i < |es[1..]| ensures KeyOf(es[1..][i]) != KeyOf(es[0]) { KeyOrder(es[0], es[i + 1]); }
    SameWithout(es[1..], [KeyOf(es[0])] + keys, keys);
  }

  /** The sends of a batch, one after the other. */
  lemma {:induction false} BatchIsSent(s: State, t: Thread, items: seq<Item>, next: nat) returns (steps: seq<Step>)
    requires next < |items| && forall i :: 0 <= i < |items| ==> items[i].value.Some?
    ensures forall i :: 0 <= i < |steps| ==> steps[i] == SendReturns(t, true)
    ensures Leads(At(s, t, Drains(Sending(items, next))), steps,
              At(s.(sent := s.sent + Values(items[next..])), t, Drains(Acking(items, false))))
    decreases |items| - next
  {
    var s0 := At(s, t, Drains(Sending(items, next)));
    var v := items[next].value.value;
    var s1 := s.(sent := s.sent + [v]);
    OneIsSent(s, t, items, next);
    assert items[next..] == [items[next]] + items[next + 1..];
    ValuesSplit([items[next]], items[next + 1..]);
    ValuesOfOne(items[next]);
    if next + 1 < |items| {
      var rest := BatchIsSent(s1, t, items, next + 1);
      SumOfSent(s.sent, v, Values(items[next + 1..]));
      RunFirst(s0, SendReturns(t, true), At(s1, t, Drains(Sending(items, next + 1))), rest,
               At(s.(sent := s.sent + Values(items[next..])), t, Drains(Acking(items, false))));
      steps := [SendReturns(t, true)] + rest;
    } else {
      assert items[next + 1..] == [] && s.sent + [v] == s.sent + Values(items[next..]);
      OneStep(s0, SendReturns(t, true), At(s1, t, Drains(Acking(items, false))));
      steps := [SendReturns(t, true)];
    }
  }

  lemma SumOfSent(a: seq<Id>, v: Id, b: seq<Id>)
    ensures (a + [v]) + b == a + ([v] + b)
  {
  }

  lemma OneIsSent(s: State, t: Thread, items: seq<Item>, next: nat)
    requires next < |items| && items[next].value.Some?
    ensures var s0, s1 := At(s, t, Drains(Sending(items, next))), s.(sent := s.sent + [items[next].value.value]);
            && Enabled(s0, SendReturns(t, true))
            && Next(s0, SendReturns(t, true))
               == At(s1, t, Drains(if next + 1 == |items| then Acking(items, false) else Sending(items, next + 1)))
  {
    AtAgain(s, t, Drains(Sending(items, next)), Idle);
  }

  /** What a batch comes to: the undecodable entries met are gone, and the entries found are sent and gone. */
  lemma BatchGoes(s: State, t: Thread) returns (steps: seq<Step>)
    requires InOrder(s.spool) && Oldest(s.spool, REPLAY_BATCH) != []
    ensures var items, kept := Oldest(s.spool, REPLAY_BATCH), AfterPeek(s.spool, REPLAY_BATCH);
            && items <= kept && Values(items) + Values(kept[|items|..]) == Values(s.spool)
            && |kept[|items|..]| < |s.spool| && InOrder(kept[|items|..])
            && Leads(At(s, t, Drains(Peeking)), steps,
                     At(After(s, kept[|items|..], s.sent + Values(items)), t, Drains(Peeking)))
  {
    var items, kept := Oldest(s.spool, REPLAY_BATCH), AfterPeek(s.spool, REPLAY_BATCH);
    PeekFindsPrefix(s.spool, REPLAY_BATCH);
    PeekDropsCorrupt(s.spool, REPLAY_BATCH, s.spool[0]);
    AckSent(kept, items, |items|);
    assert items[..|items|] == items && items[0..] == items;
    var found := BatchIsFound(s, t);
    var s1 := s.(spool := kept);
    var sends := BatchIsSent(s1, t, items, 0);
    var s2 := s1.(sent := s.sent + Values(items));
    BatchIsAcked(s2, t, items, kept[|items|..]);
    var sent, acked := At(s2, t, Drains(Acking(items, false))), At(s2.(spool := kept[|items|..]), t, Drains(Peeking));
    OneStep(sent, Ack(t, true), acked);
    RunJoined(At(s1, t, Drains(Sending(items, 0))), sends, sent, [Ack(t, true)], acked);
    RunJoined(At(s, t, Drains(Peeking)), found, At(s1, t, Drains(Sending(items, 0))), sends + [Ack(t, true)], acked);
    steps := found + (sends + [Ack(t, true)]);
  }

  lemma BatchIsAcked(s: State, t: Thread, items: seq<Item>, rest: seq<Item>)
    requires Without(s.spool, KeysOf(items)) == rest
    ensures var s0 := At(s, t, Drains(Acking(items, false)));
            Enabled(s0, Ack(t, true)) && Next(s0, Ack(t, true)) == At(s.(spool := rest), t, Drains(Peeking))
  {
    AtAgain(s, t, Drains(Acking(items, false)), Drains(Peeking));
  }

  /** Looking for entries and deleting the undecodable ones. */
  lemma BatchIsFound(s: State, t: Thread) returns (steps: seq<Step>)
    requires InOrder(s.spool)
    ensures var items, kept := Oldest(s.spool, REPLAY_BATCH), AfterPeek(s.spool, REPLAY_BATCH);
            Leads(At(s, t, Drains(Peeking)), steps, Found(s.(spool := kept), t, items))
  {
    var items, corrupt := Oldest(s.spool, REPLAY_BATCH), Undecodable(s.spool, REPLAY_BATCH);
    var kept := AfterPeek(s.spool, REPLAY_BATCH);
    DiscardLeaves(s.spool, REPLAY_BATCH);
    var s0 := At(s, t, Drains(Peeking));
    AtAgain(s, t, Drains(Peeking), Drains(Discarding(items, corrupt)));
    FoundFrom(s, t, Drains(Peeking), items);
    if corrupt == [] {
      assert KeysOf(corrupt) == [];
      NothingListed(s.spool, []);
      OneStep(s0, View(t, true), Found(s, t, items));
      steps := [View(t, true)];
    } else {
      var s1 := At(s, t, Drains(Discarding(items, corrupt)));
      DiscardFinds(s, t, items, corrupt, kept);
      OneStep(s1, Discard(t, true), Found(s.(spool := kept), t, items));
      RunFirst(s0, View(t, true), s1, [Discard(t, true)], Found(s.(spool := kept), t, items));
      steps := [View(t, true)] + [Discard(t, true)];
    }
  }

  lemma FoundFrom(s: State, t: Thread, pc: Pc, items: seq<Item>)
    ensures Found(At(s, t, pc), t, items) == Found(s, t, items)
  {
    AtAgain(s, t, pc, AfterDrain(t, true));
    AtAgain(s, t, pc, Drains(Sending(items, 0)));
  }

  lemma DiscardFinds(s: State, t: Thread, items: seq<Item>, corrupt: seq<Item>, kept: seq<Item>)
    requires Without(s.spool, KeysOf(corrupt)) == kept
    ensures var s1 := At(s, t, Drains(Discarding(items, corrupt)));
            Enabled(s1, Discard(t, true)) && Next(s1, Discard(t, true)) == Found(s.(spool := kept), t, items)
  {
    AtAgain(s, t, Drains(Discarding(items, corrupt)), Idle);
    FoundFrom(s.(spool := kept), t, Drains(Discarding(items, corrupt)), items);
  }

  lemma {:induction false} DrainEmpties(s: State, t: Thread) returns (steps: seq<Step>)
    requires InOrder(s.spool)
    ensures Leads(At(s, t, Drains(Peeking)), steps,
              Leave(After(s, [], s.sent + Values(s.spool)), t, AfterDrain(t, true)))
    decreases |s.spool|
  {
    var items, kept := Oldest(s.spool, REPLAY_BATCH), AfterPeek(s.spool, REPLAY_BATCH);
    if items == [] {
      PeekFindsPrefix(s.spool, REPLAY_BATCH);
      assert Values(s.spool) == [] && s.sent + Values(s.spool) == s.sent;
      steps := BatchIsFound(s, t);
    } else {
      var batch := BatchGoes(s, t);
      var s1 := After(s, kept[|items|..], s.sent + Values(items));
      var rest := DrainEmpties(s1, t);
      SumsOfSent(s.sent, Values(items), Values(kept[|items|..]));
      RunJoined(At(s, t, Drains(Peeking)), batch, At(s1, t, Drains(Peeking)), rest,
                Leave(After(s, [], s.sent + Values(s.spool)), t, AfterDrain(t, true)));
      steps := batch + rest;
    }
  }

  lemma SumsOfSent(a: seq<Id>, b: seq<Id>, c: seq<Id>)
    ensures (a + b) + c == a + (b + c)
  {
  }

  /** A drain that nothing disturbs sends everything there is to send, in order, leaves the spool empty and goes on. */
  lemma UndisturbedDrainEmpties(s: State, t: Thread) returns (steps: seq<Step>)
    requires PcOf(s, t) == Drains(Peeking) && InOrder(s.spool)
    ensures Legal(s, steps)
    ensures var u := Run(s, steps);
            && u.spool == [] && u.sent == s.sent + Values(s.spool) && u.mu == None
            && PcOf(u, t) == (if t == Collector then WantsSend else Serves) && u.collected == s.collected
            && u.dropped == s.dropped && u.hand == s.hand && u.failed == s.failed
  {
    steps := DrainEmpties(s, t);
    assert At(s, t, Drains(Peeking)) == s;
    LedTo(s, steps, Leave(After(s, [], s.sent + Values(s.spool)), t, AfterDrain(t, true)));
  }

  // ---------- a report ----------

  /** Nobody holds the lock and the collector waits for its next tick. */
  predicate Ready(s: State, id: Id) { s.mu == None && s.collector == Idle && id !in s.collected }

  /** Online, a report goes out behind the whole backlog. */
  lemma OnlineReportIsSent(s: State, id: Id) returns (steps: seq<Step>)
    requires Ready(s, id) && s.connected && InOrder(s.spool)
    ensures Legal(s, steps)
    ensures Run(s, steps)
         == s.(spool := [], sent := s.sent + Values(s.spool) + [id], collected := s.collected + {id}, hand := None)
  {
    var s1 := s.(collected := s.collected + {id}, hand := Some(id));
    var sent := s.sent + Values(s.spool);
    var s2, s3 := At(s1, Collector, WantsDrain), At(s1.(mu := Some(Collector)), Collector, Drains(Peeking));
    var s4 := At(After(s1, [], sent), Collector, WantsSend);
    var drain := DrainEmpties(s1.(mu := Some(Collector)), Collector);
    var last := LiveReportGoes(s, id, sent);
    var s6 := s.(spool := [], sent := sent + [id], collected := s.collected + {id}, hand := None);
    RunJoined(s3, drain, s4, last, s6);
    RunFirst(s2, Lock(Collector), s3, drain + last, s6);
    RunFirst(s, Collect(id), s2, [Lock(Collector)] + (drain + last), s6);
    steps := [Collect(id)] + ([Lock(Collector)] + (drain + last));
    LedTo(s, steps, s6);
  }

  lemma LiveReportGoes(s: State, id: Id, sent: seq<Id>) returns (steps: seq<Step>)
    requires Ready(s, id) && s.connected
    ensures var s1 := After(s, [], sent).(collected := s.collected + {id}, hand := Some(id));
            Leads(At(s1, Collector, WantsSend), steps, s1.(sent := sent + [id], hand := None))
  {
    var s1 := After(s, [], sent).(collected := s.collected + {id}, hand := Some(id));
    var s4, s5 := At(s1, Collector, WantsSend), At(s1.(mu := Some(Collector)), Collector, Sends);
    OneStep(s5, SendReturns(Collector, true), s1.(sent := sent + [id], hand := None));
    RunFirst(s4, TrySend(Collector), s5, [SendReturns(Collector, true)], s1.(sent := sent + [id], hand := None));
    steps := [TrySend(Collector)] + [SendReturns(Collector, true)];
  }

  lemma {:induction false} CutTells(all: seq<Item>, cut: uint64, capacity: nat)
    requires InOrder(all)
    ensures var young := all[Expired(all, cut)..];
            PurgedExactly(all, young, cut) && TrimmedExactly(young, young[Overflow(young, capacity)..], capacity)
  {
    ExpiredIsExact(all, cut);
  }

  /** The rest of the tick after a report was stored. */
  lemma CutAfterStore(s: State, cut: uint64) returns (u: State, young: seq<Item>)
    requires s.collector == Purges
    ensures young == s.spool[Expired(s.spool, cut)..] && u.spool == young[Overflow(young, s.capacity)..]
    ensures u.sent == s.sent && u.collected == s.collected && u.hand == s.hand && u.sequence == s.sequence
            && u.mu == s.mu && u.collector == Idle && u.session == s.session
    ensures Leads(s, [Purge(cut, true)] + [Trim(true)], u)
  {
    var s6 := WithoutOldest(s, Expired(s.spool, cut), Purged).(collector := Trims);
    young := s6.spool;
    u := WithoutOldest(s6, Overflow(s6.spool, s.capacity), Trimmed).(collector := Idle);
    OneStep(s6, Trim(true), u);
    RunFirst(s, Purge(cut, true), s6, [Trim(true)], u);
  }

  lemma FindsNoStream(s: State, id: Id) returns (steps: seq<Step>)
    requires Ready(s, id) && !s.connected
    ensures Leads(s, steps, At(s.(collected := s.collected + {id}, hand := Some(id)), Collector, Stores))
  {
    var s1 := s.(collected := s.collected + {id}, hand := Some(id));
    var s2, s3, s4 := At(s1, Collector, WantsDrain), At(s1, Collector, WantsSend), At(s1, Collector, Stores);
    OneStep(s3, TrySend(Collector), s4);
    RunFirst(s2, Lock(Collector), s3, [TrySend(Collector)], s4);
    RunFirst(s, Collect(id), s2, [Lock(Collector)] + [TrySend(Collector)], s4);
    steps := [Collect(id)] + ([Lock(Collector)] + [TrySend(Collector)]);
  }

  lemma StoredOffline(s: State, id: Id, ts: uint64, cut: uint64) returns (u: State, steps: seq<Step>, young: seq<Item>)
    requires s.collector == Stores && s.hand == Some(id) && s.sequence + 1 < TWO64
    ensures var all := Put(s.spool, Entry(ts, s.sequence + 1, Some(id)));
            young == all[Expired(all, cut)..] && u.spool == young[Overflow(young, s.capacity)..]
    ensures u.sent == s.sent && u.collected == s.collected && u.hand == None && u.sequence == s.sequence + 1
            && u.mu == s.mu && u.collector == Idle && u.session == s.session
    ensures Leads(s, steps, u)
  {
    var s5 := AfterStore(s, id, ts, true);
    u, young := CutAfterStore(s5, cut);
    RunFirst(s, Store(ts, true), s5, [Purge(cut, true)] + [Trim(true)], u);
    steps := [Store(ts, true)] + ([Purge(cut, true)] + [Trim(true)]);
  }

  lemma GoesToSpool(s: State, id: Id, ts: uint64, cut: uint64)
      returns (u: State, steps: seq<Step>, all: seq<Item>, young: seq<Item>)
    requires Ready(s, id) && !s.connected && s.sequence + 1 < TWO64
    ensures Leads(s, steps, u)
    ensures all == Put(s.spool, Entry(ts, s.sequence + 1, Some(id))) && young == all[Expired(all, cut)..]
    ensures u.spool == young[Overflow(young, s.capacity)..]
    ensures u.sent == s.sent && u.collected == s.collected + {id} && u.hand == None && u.sequence == s.sequence + 1
            && u.mu == None && u.collector == Idle && u.session == s.session
  {
    var s4 := At(s.(collected := s.collected + {id}, hand := Some(id)), Collector, Stores);
    var before := FindsNoStream(s, id);
    var after;
    u, after, young := StoredOffline(s4, id, ts, cut);
    RunJoined(s, before, s4, after, u);
    steps := before + after;
    all := Put(s4.spool, Entry(ts, s4.sequence + 1, Some(id)));
  }

  /** Offline, a report is stored under its time, and what is too old or too much goes. */
  lemma OfflineReportIsStored(s: State, id: Id, ts: uint64, cut: uint64)
      returns (u: State, steps: seq<Step>, all: seq<Item>, young: seq<Item>)
    requires Ready(s, id) && !s.connected && s.sequence + 1 < TWO64 && Queue(s.spool, s.sequence)
    ensures Leads(s, steps, u)
    ensures InOrder(all) && multiset(all) == multiset(s.spool) + multiset{Entry(ts, s.sequence + 1, Some(id))}
    ensures PurgedExactly(all, young, cut) && TrimmedExactly(young, u.spool, s.capacity)
    ensures u.sent == s.sent && u.collected == s.collected + {id} && u.hand == None && u.sequence == s.sequence + 1
            && u.mu == None && u.collector == Idle && u.session == s.session
  {
    u, steps, all, young := GoesToSpool(s, id, ts, cut);
    PutInOrder(s.spool, Entry(ts, s.sequence + 1, Some(id)));
    CutTells(all, cut, s.capacity);
  }

  // ---------- the life of a stream ----------

  /** The stream is there from when it is published until it is closed. */
  predicate Live(s: State)
  {
    && s.connected == !(s.session.Idle? || s.session.Publishes?)
    && !s.session.Stores? && !s.session.Purges? && !s.session.Trims?
  }

  /** About to close the stream, once what went through is acknowledged. */
  predicate GivesUp(pc: Pc) { pc.Closes? || (pc.Drains? && pc.d.Acking? && pc.d.gaveUp) }

  /** The server ends the stream, or a send or a storage operation of the session fails. */
  predicate EndsStream(step: Step)
  {
    match step
    case StreamEnds => true
    case View(t, ok) => t == Session && !ok
    case Discard(t, ok) => t == Session && !ok
    case SendReturns(t, ok) => t == Session && !ok
    case Ack(t, ok) => t == Session && !ok
    case _ => false
  }

  /** The stream ended at this step and has not been closed since. */
  predicate EndedAt(steps: seq<Step>, i: int) { 0 <= i < |steps| && EndsStream(steps[i]) && Close !in steps[i + 1..] }

  lemma SendGivesUp(s: State, t: Thread, ok: bool)
    requires Live(s) && Enabled(s, SendReturns(t, ok))
    ensures var u := Next(s, SendReturns(t, ok));
            Live(u) && (GivesUp(u.session) <==> GivesUp(s.session) || (t == Session && !ok))
  {
  }

  lemma FoundGoesOn(s: State, t: Thread, items: seq<Item>)
    requires Live(s) && PcOf(s, t).Drains? && !GivesUp(PcOf(s, t))
    ensures var u := Found(s, t, items); Live(u) && (GivesUp(u.session) <==> GivesUp(s.session))
  {
  }

  lemma LookingGivesUp(s: State, t: Thread, ok: bool)
    requires Live(s) && Enabled(s, View(t, ok))
    ensures var u := Next(s, View(t, ok));
            Live(u) && (GivesUp(u.session) <==> GivesUp(s.session) || (t == Session && !ok))
  {
    if ok {
      FoundGoesOn(s, t, Oldest(s.spool, REPLAY_BATCH));
    } else {
      assert Next(s, View(t, ok)) == DrainFails(s, t);
    }
  }

  lemma DiscardGivesUp(s: State, t: Thread, ok: bool)
    requires Live(s) && Enabled(s, Discard(t, ok))
    ensures var u := Next(s, Discard(t, ok));
            Live(u) && (GivesUp(u.session) <==> GivesUp(s.session) || (t == Session && !ok))
  {
  }

  lemma AckGivesUp(s: State, t: Thread, ok: bool)
    requires Live(s) && Enabled(s, Ack(t, ok))
    ensures var u := Next(s, Ack(t, ok));
            Live(u) && (GivesUp(u.session) <==> GivesUp(s.session) || (t == Session && !ok))
  {
  }

  lemma CollectorLeaves(s: State, step: Step)
    requires Enabled(s, step) && (step.Store? || step.Purge? || step.Trim? || step.Corrupt? || step.Collect?)
    ensures Next(s, step).session == s.session && Next(s, step).connected == s.connected
  {
  }

  lemma GivesUpNext(s: State, step: Step)
    requires Live(s) && Enabled(s, step)
    ensures Live(Next(s, step))
    ensures GivesUp(Next(s, step).session) <==> step != Close && (GivesUp(s.session) || EndsStream(step))
  {
    if step.SendReturns? {
      SendGivesUp(s, step.t, step.ok);
    } else if step.View? {
      LookingGivesUp(s, step.t, step.ok);
    } else if step.Discard? {
      DiscardGivesUp(s, step.t, step.ok);
    } else if step.Ack? {
      AckGivesUp(s, step.t, step.ok);
    } else if step.Store? || step.Purge? || step.Trim? || step.Corrupt? || step.Collect? {
      CollectorLeaves(s, step);
    }
  }

  lemma EndedLater(steps: seq<Step>)
    requires steps != []
    ensures (exists i :: EndedAt(steps, i))
       <==> (exists i :: EndedAt(steps[1..], i)) || (EndsStream(steps[0]) && Close !in steps[1..])
  {
    forall i | 0 <= i < |steps[1..]| ensures EndedAt(steps[1..], i) == EndedAt(steps, i + 1) {
      assert steps[1..][i + 1..] == steps[i + 2..];
    }
    assert EndedAt(steps, 0) == (EndsStream(steps[0]) && Close !in steps[1..]);
    if i :| EndedAt(steps, i) && i > 0 { assert EndedAt(steps[1..], i - 1); }
  }

  lemma {:induction false} GivenUp(s: State, steps: seq<Step>)
    requires Live(s) && Legal(s, steps)
    ensures GivesUp(Run(s, steps).session)
       <==> (exists i :: EndedAt(steps, i)) || (GivesUp(s.session) && Close !in steps)
    decreases |steps|
  {
    if steps == [] {
    } else {
      GivesUpNext(s, steps[0]);
      GivenUp(Next(s, steps[0]), steps[1..]);
      EndedLater(steps);
      assert steps == [steps[0]] + steps[1..];
    }
  }

  /** In every interleaving the session gives its stream up exactly when the stream ended, or one of its sends or
      storage operations failed, since it last closed one; and from then on it sends nothing before it has closed it. */
  lemma {:induction false} StreamIsGivenUpOnFailure(capacity: nat, steps: seq<Step>)
    requires Legal(Start(capacity), steps)
    ensures var u := Run(Start(capacity), steps);
            && (GivesUp(u.session) <==> exists i :: EndedAt(steps, i))
            && (GivesUp(u.session) ==> u.connected && !Enabled(u, Beat) && !Enabled(u, TrySend(Session))
                                       && forall ok :: !Enabled(u, SendReturns(Session, ok)))
  {
    GivenUp(Start(capacity), steps);
    StaysLive(Start(capacity), steps);
  }

  lemma {:induction false} StaysLive(s: State, steps: seq<Step>)
    requires Live(s) && Legal(s, steps)
    ensures Live(Run(s, steps))
    decreases |steps|
  {
    if steps == [] {
    } else {
      GivesUpNext(s, steps[0]);
      StaysLive(Next(s, steps[0]), steps[1..]);
    }
  }
}
