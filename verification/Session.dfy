/** The agent's stream session: the collecting and the session goroutine share one stream under a lock and one spool. */
module Sessions {
  import opened Ordering
  import opened Spools

  const REPLAY_BATCH := 100  // replayBatchSize

  // ---------- replaying the backlog ----------

  /** A stream whose n-th send fails when `fails(n)`. */
  class Conn<R> {
    const fails: nat -> bool
    var attempts: nat
    var sent: seq<R>

    constructor (fails: nat -> bool)
      ensures this.fails == fails && attempts == 0 && sent == []
    {
      this.fails := fails;
      attempts, sent := 0, [];
    }

    method Send(r: R) returns (ok: bool)
      modifies this
      ensures attempts == old(attempts) + 1 && ok == !fails(old(attempts))
      ensures sent == old(sent) + (if ok then [r] else [])
    {
      ok := !fails(attempts);
      attempts := attempts + 1;
      if ok { sent := sent + [r]; }
    }
  }

  /** Sends entries in order until one fails; says how many went through. */
  method SendAll<R>(items: seq<Entry<R>>, st: Conn<R>) returns (done: nat)
    requires forall i :: 0 <= i < |items| ==> items[i].value.Some?
    modifies st
    ensures done <= |items| && st.sent == old(st.sent) + Values(items[..done]) && |Values(items[..done])| == done
    ensures done < |items| ==> exists n :: n >= old(st.attempts) && st.fails(n)
    ensures st.attempts >= old(st.attempts)
  {
    done := 0;
    while done < |items|
      invariant done <= |items| && st.sent == old(st.sent) + Values(items[..done])
      invariant |Values(items[..done])| == done
      invariant st.attempts >= old(st.attempts)
    {
      var ok := st.Send(items[done].value.value);
      if !ok { return; }
      TakeNext(items, done);
      ValuesSplit(items[..done], [items[done]]);
      ValuesOfOne(items[done]);
      done := done + 1;
    }
  }

  datatype Outcome = Emptied | Advanced | Failed

  lemma {:induction false} AckSent<R>(queue: seq<Entry<R>>, items: seq<Entry<R>>, done: nat)
    requires InOrder(queue) && items <= queue && done <= |items|
    ensures Without(queue, KeysOf(items[..done])) == queue[done..]
    ensures Values(items[..done]) + Values(queue[done..]) == Values(queue)
    ensures done == 0 ==> queue[done..] == queue
  {
    assert items[..done] == queue[..done];
    AckPrefix(queue, done);
    ValuesSplit(queue[..done], queue[done..]);
    assert queue == queue[..done] + queue[done..];
  }

  /** What was acknowledged and what is still queued are together what was queued, in order; what was acknowledged had
      been sent; and everything sent was acknowledged unless a storage transaction failed. */
  ghost predicate Replayed<R>(before: seq<Entry<R>>, after: seq<Entry<R>>, sent: seq<R>, acked: seq<R>, fault: bool)
  {
    acked + Values(after) == Values(before) && acked <= sent && (!fault ==> acked == sent)
  }

  lemma ReplayedThen<R>(a: seq<Entry<R>>, b: seq<Entry<R>>, c: seq<Entry<R>>, sent: seq<R>, acked: seq<R>, more: seq<R>,
                        moreAcked: seq<R>, fault: bool)
    requires Replayed(a, b, sent, acked, false) && Replayed(b, c, more, moreAcked, fault)
    ensures Replayed(a, c, sent + more, acked + moreAcked, fault)
  {
  }

  /** One round: the oldest entries are sent and those that went through are acknowledged. */
  method ReplayBatch<R>(sp: Spool<R>, st: Conn<R>) returns (outcome: Outcome, ghost sent: seq<R>, ghost acked: seq<R>)
    requires sp.Valid()
    modifies sp, st
    ensures sp.Valid() && sp.sequence == old(sp.sequence) && sp.transactions >= old(sp.transactions)
    ensures st.sent == old(st.sent) + sent && st.attempts >= old(st.attempts)
    ensures Replayed(old(sp.entries), sp.entries, sent, acked, sp.FaultSince(old(sp.transactions)))
    ensures outcome.Emptied? ==> sp.entries == []
    ensures outcome.Advanced? ==> |sp.entries| < |old(sp.entries)|
    ensures |sent| <= 100 && (outcome.Advanced? ==> |sent| == Min(100, |old(Values(sp.entries))|))
    ensures !outcome.Failed? ==> !sp.FaultSince(old(sp.transactions))
    ensures outcome.Failed? ==>
              sp.FaultSince(old(sp.transactions)) || exists n :: n >= old(st.attempts) && st.fails(n)
  {
    sent, acked := [], [];
    PeekFindsPrefix(sp.entries, REPLAY_BATCH);
    var items, peeked := sp.Peek(REPLAY_BATCH);
    if !peeked { return Failed, sent, acked; }
    if |items| == 0 { return Emptied, sent, acked; }
    var done := SendAll(items, st);
    sent := Values(items[..done]);
    var ok := AckDone(sp, items, done);
    if ok { acked := sent; }
    outcome := if done < |items| || !ok then Failed else Advanced;
  }

  /** Acknowledges the first `done` items, the oldest of the queue. */
  method AckDone<R>(sp: Spool<R>, items: seq<Entry<R>>, done: nat) returns (ok: bool)
    requires sp.Valid() && items <= sp.entries && done <= |items|
    modifies sp`entries, sp`transactions
    ensures sp.Valid() && sp.transactions >= old(sp.transactions) && ok == !sp.FaultSince(old(sp.transactions))
    ensures sp.entries == if ok then old(sp.entries)[done..] else old(sp.entries)
    ensures ok ==> Values(items[..done]) + Values(sp.entries) == Values(old(sp.entries))
  {
    AckSent(sp.entries, items, done);
    ok := true;
    if done > 0 {
      ghost var now := sp.transactions;
      ok := sp.Ack(KeysOf(items[..done]));
      assert !ok ==> sp.faults(now);
    }
  }

  /** Replays the backlog, oldest first; without a stream or a spool there is nothing to do. */
  method Drain<R>(sp: Spool?<R>, st: Conn?<R>) returns (ok: bool, ghost sent: seq<R>, ghost acked: seq<R>)
    requires sp != null ==> sp.Valid()
    modifies if sp != null && st != null then {sp as object, st} else {}
    ensures sp == null || st == null ==> ok && sent == []
    ensures sp != null && st != null ==> Drained(sp, st, old(sp.entries), old(sp.transactions), old(st.attempts), ok,
            sent, acked)
    ensures sp != null && st != null ==> sp.sequence == old(sp.sequence) && st.sent == old(st.sent) + sent
  {
    sent, acked := [], [];
    if sp == null || st == null { return true, sent, acked; }
    ok, sent, acked := DrainAll(sp, st);
  }

  /** Nothing is lost, only what was sent is gone, and unless a send or a storage transaction fails all of it is sent
      and the spool is left empty. */
  ghost predicate Drained<R>(sp: Spool<R>, st: Conn<R>, before: seq<Entry<R>>, transactions: nat, attempts: nat,
                             ok: bool,
                             sent: seq<R>, acked: seq<R>)
    reads sp, st
  {
    && sp.Valid() && Replayed(before, sp.entries, sent, acked, sp.FaultSince(transactions))
    && (ok ==> sp.entries == [])
    && (!sp.FaultSince(transactions) && (forall n :: n >= attempts ==> !st.fails(n)) ==> ok)
  }

  method DrainAll<R>(sp: Spool<R>, st: Conn<R>) returns (ok: bool, ghost sent: seq<R>, ghost acked: seq<R>)
    requires sp.Valid()
    modifies sp, st
    ensures Drained(sp, st, old(sp.entries), old(sp.transactions), old(st.attempts), ok, sent, acked)
    ensures sp.sequence == old(sp.sequence) && st.sent == old(st.sent) + sent
  {
    sent, acked := [], [];
    while true
      invariant sp.Valid() && sp.sequence == old(sp.sequence) && sp.transactions >= old(sp.transactions)
      invariant st.sent == old(st.sent) + sent && st.attempts >= old(st.attempts)
      invariant !sp.FaultSince(old(sp.transactions))
      invariant Replayed(old(sp.entries), sp.entries, sent, acked, false)
      decreases |sp.entries|
    {
      ghost var before, from := sp.entries, sp.transactions;
      var outcome, more, moreAcked := ReplayBatch(sp, st);
      ReplayedThen(old(sp.entries), before, sp.entries, sent, acked, more, moreAcked, sp.FaultSince(from));
      sent, acked := sent + more, acked + moreAcked;
      if outcome.Emptied? { return true, sent, acked; }
      if outcome.Failed? { return false, sent, acked; }
    }
  }
}
