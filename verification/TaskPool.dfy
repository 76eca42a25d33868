/** The collection task pool: a global concurrency limit, one task per target, and exponential backoff after repeated
    failures. Times and durations are nanoseconds. */
module TaskPool {
  import opened Ordering
  import opened ByteCodec

  // ---------- the backoff delay ----------

  const TWO62: int := TWO63 / 2

  /** Signed 64-bit multiplication by two, which wraps around. */
  function Doubled(d: int64): int64
  {
    if d >= TWO62 then 2 * d - TWO64 else if d < -TWO62 then 2 * d + TWO64 else 2 * d
  }

  /** The delay after `shift` more loop turns from `delay`. */
  function DelayFrom(delay: int64, max: int64, shift: nat): int64
    decreases shift
  {
    if shift > 0 && delay < max then DelayFrom(Doubled(delay), max, shift - 1) else if delay > max then max else delay
  }

  lemma {:induction false} PowerPositive(n: nat)
    ensures Pow2(n) >= 1
  {
    if n == 0 {
    } else {
      PowerPositive(n - 1);
    }
  }

  lemma Regroup(a: int, b: int)
    ensures (2 * a) * b == a * (2 * b)
  {
  }

  lemma AtLeast(a: int, b: int)
    requires a > 0 && b >= 1
    ensures a * b >= a
  {
  }

  /** How many doublings take `base` to the maximum. */
  function Doublings(base: int, max: int): (k: nat)
    requires base > 0
    ensures base * Pow2(k) >= max && forall j: nat :: j < k ==> base * Pow2(j) < max
    decreases max - base
  {
    if base >= max then 0
    else
      var k := Doublings(2 * base, max);
      Regroup(base, Pow2(k));
      FewerDoublings(base, max, k);
      1 + k
  }

  lemma FewerDoublings(base: int, max: int, k: nat)
    requires 0 < base < max && forall j: nat :: j < k ==> 2 * base * Pow2(j) < max
    ensures forall j: nat :: j < k + 1 ==> base * Pow2(j) < max
  {
    forall j: nat | j < k + 1 ensures base * Pow2(j) < max {
      if j > 0 {
        Regroup(base, Pow2(j - 1));
        assert 2 * base * Pow2(j - 1) < max;
      }
    }
  }

  /** The doubling that reaches the maximum stays in the 64-bit range. */
  predicate LastDoublingFits(base: int64, max: int64)
    requires 0 < base
  {
    base * Pow2(Doublings(base, max)) < TWO63
  }

  lemma {:induction false} HalfRangeFits(base: int64, max: int64)
    requires 0 < base && max <= TWO62
    ensures LastDoublingFits(base, max)
    decreases max - base
  {
    if base >= max {
    } else {
      HalfRangeFits(2 * base, max);
      Regroup(base, Pow2(Doublings(2 * base, max)));
    }
  }

  /** Every number of failures: the documented delay. */
  ghost predicate ExactFor(base: int64, max: int64)
  {
    forall shift: nat {:trigger DelayFrom(base, max, shift)} ::
      DelayFrom(base, max, shift) == Min(max, base * Pow2(shift))
  }

  lemma {:induction false} ExactWhileFitting(base: int64, max: int64, shift: nat)
    requires 0 < base && 0 < max && LastDoublingFits(base, max)
    ensures DelayFrom(base, max, shift) == Min(max, base * Pow2(shift))
    decreases shift
  {
    if base >= max {
      PowerPositive(shift);
      AtLeast(base, Pow2(shift));
    } else {
      var k := Doublings(2 * base, max);
      Regroup(base, Pow2(k));
      PowerPositive(k);
      AtLeast(2 * base, Pow2(k));
      if shift > 0 {
        ExactWhileFitting(2 * base, max, shift - 1);
        Regroup(base, Pow2(shift - 1));
      }
    }
  }

  lemma {:induction false} LastDoublingOverflows(base: int64, max: int64)
    requires 0 < base < max && !LastDoublingFits(base, max)
    ensures DelayFrom(base, max, Doublings(base, max)) < 0
    decreases max - base
  {
    if 2 * base < max {
      Regroup(base, Pow2(Doublings(2 * base, max)));
      LastDoublingOverflows(2 * base, max);
    } else {
      assert Doublings(2 * base, max) == 0 && Pow2(1) == 2;
      assert DelayFrom(base, max, 1) == DelayFrom(Doubled(base), max, 0);
    }
  }

  /** For a given base and maximum the delay is the capped power for every number of failures exactly when the doubling
      that reaches the maximum stays in range. */
  lemma DelaysExactWhenLastDoublingFits(base: int64, max: int64)
    requires 0 < base && 0 < max
    ensures ExactFor(base, max) <==> LastDoublingFits(base, max)
  {
    var k := Doublings(base, max);
    if LastDoublingFits(base, max) {
      forall shift: nat ensures DelayFrom(base, max, shift) == Min(max, base * Pow2(shift)) {
        ExactWhileFitting(base, max, shift);
      }
    } else {
      LastDoublingOverflows(base, max);
      assert DelayFrom(base, max, k) != Min(max, base * Pow2(k));
    }
  }

  /** A maximum serves every base exactly up to half the range. */
  lemma DelaysExactUpToHalfRange(max: int64)
    requires max > 0
    ensures (forall base: int64 :: 0 < base ==> ExactFor(base, max)) <==> max <= TWO62
  {
    if max <= TWO62 {
      forall base: int64 | 0 < base ensures ExactFor(base, max) {
        HalfRangeFits(base, max);
        DelaysExactWhenLastDoublingFits(base, max);
      }
    } else {
      assert Pow2(1) == 2;
      assert DelayFrom(TWO62, max, 1) == DelayFrom(-TWO63, max, 0) == -TWO63;
      assert !ExactFor(TWO62, max);
    }
  }

  method BackoffDelay(base: int64, max: int64, shift: nat) returns (delay: int64)
    ensures delay == DelayFrom(base, max, shift)
    ensures 0 < base && 0 < max && LastDoublingFits(base, max) ==> delay == Min(max, base * Pow2(shift))
  {
    delay := base;
    var i := 0;
    while i < shift && delay < max
      invariant i <= shift && DelayFrom(delay, max, shift - i) == DelayFrom(base, max, shift)
    {
      delay := Doubled(delay);
      i := i + 1;
    }
    if delay > max { delay := max; }
    if 0 < base && 0 < max && LastDoublingFits(base, max) { ExactWhileFitting(base, max, shift); }
  }

  // ---------- failures and windows ----------

  datatype Options = Options(concurrency: nat, timeout: int64, threshold: nat, base: int64, max: int64)

  ghost predicate Proper(o: Options)
  {
    o.concurrency > 0 && o.timeout > 0 && o.threshold > 0 && o.base > 0 && o.max > 0
  }

  /** Failure counts and the ends of the backoff windows, by target. */
  datatype Record = Record(fails: map<string, nat>, blocked: map<string, int>)

  function Fails(r: Record, target: string): nat { if target in r.fails then r.fails[target] else 0 }

  predicate InBackoff(r: Record, target: string, now: int) { target in r.blocked && now <= r.blocked[target] }

  /** An expired window is forgotten when it is looked at. */
  function Checked(r: Record, target: string, now: int): Record
  {
    if InBackoff(r, target, now) then r else r.(blocked := r.blocked - {target})
  }

  function Recorded(r: Record, o: Options, target: string, ok: bool, now: int): Record
  {
    if ok then Record(r.fails - {target}, r.blocked - {target})
    else
      var n := Fails(r, target) + 1;
      var fails := r.fails[target := n];
      if n < o.threshold then Record(fails, r.blocked)
      else Record(fails, r.blocked[target := now + DelayFrom(o.base, o.max, n - o.threshold)])
  }

  class Mutex { constructor () {} }

  class Pool {
    const opt: Options
    var fails: map<string, nat>
    var blocked: map<string, int>
    var locks: map<string, Mutex>

    /** Each target has a lock of its own. */
    ghost predicate Valid()
      reads this
    {
      Proper(opt) && forall a, b :: a in locks && b in locks && locks[a] == locks[b] ==> a == b
    }

    ghost function Contents(): Record
      reads this
    {
      Record(fails, blocked)
    }

    constructor (concurrency: int, timeout: int64, threshold: int, base: int64, max: int64)
      ensures Valid() && Contents() == Record(map[], map[]) && locks == map[]
      ensures opt.concurrency == (if concurrency <= 0 then 1 else concurrency)
      ensures opt.timeout == (if timeout <= 0 then 30_000_000_000 else timeout)
      ensures opt.threshold == (if threshold <= 0 then 3 else threshold)
      ensures opt.base == (if base <= 0 then 30_000_000_000 else base)
      ensures opt.max == (if max <= 0 then 1_800_000_000_000 else max)
    {
      opt := Options(if concurrency <= 0 then 1 else concurrency, if timeout <= 0 then 30_000_000_000 else timeout,
                     if threshold <= 0 then 3 else threshold, if base <= 0 then 30_000_000_000 else base,
                     if max <= 0 then 1_800_000_000_000 else max);
      fails, blocked, locks := map[], map[], map[];
    }

    /** None when the target may be tried; otherwise how long it stays blocked. */
    method CheckBackoff(target: string, now: int) returns (wait: Option<int>)
      requires Valid()
      modifies `blocked
      ensures Valid() && Contents() == Checked(old(Contents()), target, now)
      ensures wait.None? <==> target !in old(blocked) || now > old(blocked)[target]
      ensures wait.None? ==> blocked == old(blocked) - {target}
      ensures wait.Some? ==> wait.value == old(blocked)[target] - now >= 0 && blocked == old(blocked)
    {
      if target !in blocked {
        assert blocked - {target} == blocked;
        return None;
      }
      if now > blocked[target] {
        blocked := blocked - {target};
        return None;
      }
      return Some(blocked[target] - now);
    }

    /** Counts a failure, or forgets them all on success; from the threshold on a failure opens a backoff window. */
    method RecordResult(target: string, ok: bool, now: int)
      requires Valid()
      modifies `fails, `blocked
      ensures Valid() && Contents() == Recorded(old(Contents()), opt, target, ok, now)
    {
      if ok {
        fails, blocked := fails - {target}, blocked - {target};
        return;
      }
      var n := (if target in fails then fails[target] else 0) + 1;
      fails := fails[target := n];
      if n < opt.threshold { return; }
      var delay := BackoffDelay(opt.base, opt.max, n - opt.threshold);
      blocked := blocked[target := now + delay];
    }

    method LockFor(target: string) returns (lock: Mutex)
      requires Valid()
      modifies `locks
      ensures Valid() && target in locks && lock == locks[target]
      ensures target in old(locks) ==> locks == old(locks)
      ensures target !in old(locks) ==> fresh(lock) && locks == old(locks)[target := lock]
    {
      if target in locks { return locks[target]; }
      lock := new Mutex();
      locks := locks[target := lock];
    }
  }

  // ---------- concurrent calls ----------

  datatype Pc =
    | Checks(target: string)
    | WantsSlot(target: string)
    | WantsLock(target: string)
    | Rechecks(target: string)
    | Runs(target: string)
    | Unlocks(target: string)
    | FreesSlot(target: string)

  /** `slots` counts tokens in the semaphore channel; `results` and `window` remember outcomes and the last window
      opened since a target's last success. */
  datatype State = State(now: int, record: Record, slots: nat, held: map<string, nat>, calls: map<nat, Pc>,
                         results: map<string, seq<bool>>, window: map<string, int>)

  datatype Step =
    | Tick(ns: nat)
    | Call(id: nat, target: string)
    | Check(id: nat)
    | TakeSlot(id: nat)
    | Cancel(id: nat)     // the context ends while waiting for a slot
    | TakeLock(id: nat)
    | Recheck(id: nat)
    | Finish(id: nat, ok: bool)
    | Unlock(id: nat)
    | FreeSlot(id: nat)

  predicate Enabled(s: State, o: Options, step: Step)
  {
    match step
    case Tick(_) => true
    case Call(id, _) => id !in s.calls
    case Check(id) => id in s.calls && s.calls[id].Checks?
    case TakeSlot(id) => id in s.calls && s.calls[id].WantsSlot? && s.slots < o.concurrency
    case Cancel(id) => id in s.calls && s.calls[id].WantsSlot?
    case TakeLock(id) => id in s.calls && s.calls[id].WantsLock? && s.calls[id].target !in s.held
    case Recheck(id) => id in s.calls && s.calls[id].Rechecks?
    case Finish(id, _) => id in s.calls && s.calls[id].Runs?
    case Unlock(id) => id in s.calls && s.calls[id].Unlocks?
    case FreeSlot(id) => id in s.calls && s.calls[id].FreesSlot? && s.slots > 0
  }

  function Goes(s: State, id: nat, pc: Pc): State { s.(calls := s.calls[id := pc]) }

  function ResultsOf(s: State, target: string): seq<bool> { if target in s.results then s.results[target] else [] }

  function AfterCheck(s: State, id: nat, target: string): State
  {
    var s1 := s.(record := Checked(s.record, target, s.now));
    if InBackoff(s.record, target, s.now) then s1.(calls := s.calls - {id}) else Goes(s1, id, WantsSlot(target))
  }

  function AfterRecheck(s: State, id: nat, target: string): State
  {
    var s1 := s.(record := Checked(s.record, target, s.now));
    Goes(s1, id, if InBackoff(s.record, target, s.now) then Unlocks(target) else Runs(target))
  }

  function AfterFinish(s: State, o: Options, id: nat, target: string, ok: bool): State
  {
    var r := Recorded(s.record, o, target, ok, s.now);
    var s1 := s.(record := r, results := s.results[target := ResultsOf(s, target) + [ok]],
      window := if ok then s.window - {target}
                else if target in r.blocked then s.window[target := r.blocked[target]]
                else s.window);
    Goes(s1, id, Unlocks(target))
  }

  function Next(s: State, o: Options, step: Step): State
    requires Enabled(s, o, step)
  {
    match step
    case Tick(ns) => s.(now := s.now + ns)
    case Call(id, target) => Goes(s, id, Checks(target))
    case Check(id) => AfterCheck(s, id, s.calls[id].target)
    case TakeSlot(id) => Goes(s, id, WantsLock(s.calls[id].target)).(slots := s.slots + 1)
    case Cancel(id) => s.(calls := s.calls - {id})
    case TakeLock(id) => Goes(s, id, Rechecks(s.calls[id].target)).(held := s.held[s.calls[id].target := id])
    case Recheck(id) => AfterRecheck(s, id, s.calls[id].target)
    case Finish(id, ok) => AfterFinish(s, o, id, s.calls[id].target, ok)
    case Unlock(id) => Goes(s, id, FreesSlot(s.calls[id].target)).(held := s.held - {s.calls[id].target})
    case FreeSlot(id) => s.(slots := s.slots - 1, calls := s.calls - {id})
  }

  predicate HoldsSlot(pc: Pc) { pc.WantsLock? || pc.Rechecks? || pc.Runs? || pc.Unlocks? || pc.FreesSlot? }

  predicate HoldsLock(pc: Pc) { pc.Rechecks? || pc.Runs? || pc.Unlocks? }

  function Holders(calls: map<nat, Pc>): set<nat> { set id | id in calls && HoldsSlot(calls[id]) }

  function Running(calls: map<nat, Pc>): set<nat> { set id | id in calls && calls[id].Runs? }

  /** The failures since the last success. */
  function Trailing(results: seq<bool>): nat
  {
    if results == [] || results[|results| - 1] then 0 else 1 + Trailing(results[..|results| - 1])
  }

  ghost predicate SlotsOk(s: State, o: Options)
  {
    s.slots == |Holders(s.calls)| <= o.concurrency
  }

  ghost predicate LocksOk(calls: map<nat, Pc>, held: map<string, nat>)
  {
    && (forall id {:trigger calls[id]} :: id in calls && HoldsLock(calls[id])
         ==> calls[id].target in held && held[calls[id].target] == id)
    && (forall t {:trigger held[t]} :: t in held
         ==> held[t] in calls && HoldsLock(calls[held[t]]) && calls[held[t]].target == t)
  }

  /** A window that is still open is in the table; a running task's target has none. */
  ghost predicate WindowsOk(now: int, r: Record, calls: map<nat, Pc>, window: map<string, int>)
  {
    && (forall t {:trigger window[t]} :: t in window
         ==> if t in r.blocked then r.blocked[t] == window[t] else now > window[t])
    && (forall t {:trigger r.blocked[t]} :: t in r.blocked ==> t in window)
    && (forall id {:trigger calls[id]} :: id in calls && calls[id].Runs? ==> calls[id].target !in r.blocked)
  }

  ghost predicate CountsOk(s: State)
  {
    forall t {:trigger ResultsOf(s, t)} :: Fails(s.record, t) == Trailing(ResultsOf(s, t))
  }

  ghost predicate Inv(s: State, o: Options)
  {
    SlotsOk(s, o) && LocksOk(s.calls, s.held) && WindowsOk(s.now, s.record, s.calls, s.window) && CountsOk(s)
  }

  // ---------- steps keep the invariant ----------

  /** A call that takes a slot on its way adds one holder, one that leaves its slot takes one away. */
  lemma HoldersMove(calls: map<nat, Pc>, id: nat, pc: Pc)
    ensures var before, after := id in calls && HoldsSlot(calls[id]), HoldsSlot(pc);
            |Holders(calls[id := pc])| == |Holders(calls)| + (if after then 1 else 0) - (if before then 1 else 0)
  {
    if HoldsSlot(pc) {
      assert Holders(calls[id := pc]) == Holders(calls) + {id};
    } else {
      assert Holders(calls[id := pc]) == Holders(calls) - {id};
    }
  }

  lemma HoldersLeave(calls: map<nat, Pc>, id: nat)
    requires id in calls
    ensures |Holders(calls - {id})| == |Holders(calls)| - (if HoldsSlot(calls[id]) then 1 else 0)
  {
    assert Holders(calls - {id}) == Holders(calls) - {id};
  }

  lemma SlotsKept(s: State, o: Options, step: Step)
    requires SlotsOk(s, o) && Enabled(s, o, step)
    ensures SlotsOk(Next(s, o, step), o)
  {
    match step
    case Tick(_) =>
    case Call(id, target) => HoldersMove(s.calls, id, Checks(target));
    case Check(id) => HoldersMove(s.calls, id, WantsSlot(s.calls[id].target)); HoldersLeave(s.calls, id);
    case TakeSlot(id) => HoldersMove(s.calls, id, WantsLock(s.calls[id].target));
    case Cancel(id) => HoldersLeave(s.calls, id);
    case TakeLock(id) => HoldersMove(s.calls, id, Rechecks(s.calls[id].target));
    case Recheck(id) =>
      HoldersMove(s.calls, id, Unlocks(s.calls[id].target));
      HoldersMove(s.calls, id, Runs(s.calls[id].target));
    case Finish(id, _) => HoldersMove(s.calls, id, Unlocks(s.calls[id].target));
    case Unlock(id) => HoldersMove(s.calls, id, FreesSlot(s.calls[id].target));
    case FreeSlot(id) => HoldersLeave(s.calls, id);
  }

  /** A call moves on without taking or releasing its target's lock. */
  lemma LocksAfterMove(calls: map<nat, Pc>, held: map<string, nat>, id: nat, pc: Pc)
    requires LocksOk(calls, held)
    requires id in calls ==> (HoldsLock(calls[id]) <==> HoldsLock(pc)) && calls[id].target == pc.target
    requires id !in calls ==> !HoldsLock(pc)
    ensures LocksOk(calls[id := pc], held)
    ensures !HoldsLock(pc) ==> LocksOk(calls - {id}, held)
  {
  }

  lemma LocksKept(s: State, o: Options, step: Step)
    requires LocksOk(s.calls, s.held) && Enabled(s, o, step)
    ensures var t := Next(s, o, step); LocksOk(t.calls, t.held)
  {
    match step
    case Tick(_) =>
    case TakeLock(id) =>
    case Unlock(id) =>
    case Call(id, target) => LocksAfterMove(s.calls, s.held, id, Checks(target));
    case Check(id) => LocksAfterMove(s.calls, s.held, id, WantsSlot(s.calls[id].target));
    case TakeSlot(id) => LocksAfterMove(s.calls, s.held, id, WantsLock(s.calls[id].target));
    case Cancel(id) => LocksAfterMove(s.calls, s.held, id, s.calls[id]);
    case Recheck(id) =>
      LocksAfterMove(s.calls, s.held, id, Unlocks(s.calls[id].target));
      LocksAfterMove(s.calls, s.held, id, Runs(s.calls[id].target));
    case Finish(id, _) => LocksAfterMove(s.calls, s.held, id, Unlocks(s.calls[id].target));
    case FreeSlot(id) => LocksAfterMove(s.calls, s.held, id, s.calls[id]);
  }

  lemma WindowsAfterCheck(s: State, target: string, calls: map<nat, Pc>)
    requires WindowsOk(s.now, s.record, s.calls, s.window)
    requires forall id :: id in calls && calls[id].Runs? ==>
      (id in s.calls && s.calls[id] == calls[id]) || (calls[id].target == target && !InBackoff(s.record, target, s.now))
    ensures WindowsOk(s.now, Checked(s.record, target, s.now), calls, s.window)
  {
  }

  lemma WindowsAfterFinish(s: State, o: Options, id: nat, ok: bool)
    requires WindowsOk(s.now, s.record, s.calls, s.window) && LocksOk(s.calls, s.held) && id in s.calls
             && s.calls[id].Runs?
    ensures var t := AfterFinish(s, o, id, s.calls[id].target, ok); WindowsOk(t.now, t.record, t.calls, t.window)
  {
    var target := s.calls[id].target;
    var t := AfterFinish(s, o, id, target, ok);
    forall j | j in t.calls && t.calls[j].Runs? ensures t.calls[j].target !in t.record.blocked {
      assert s.calls[j] == t.calls[j] && s.held[s.calls[j].target] == j;
    }
  }

  lemma WindowsKept(s: State, o: Options, step: Step)
    requires WindowsOk(s.now, s.record, s.calls, s.window) && LocksOk(s.calls, s.held) && Enabled(s, o, step)
    ensures var t := Next(s, o, step); WindowsOk(t.now, t.record, t.calls, t.window)
  {
    match step
    case Check(id) => WindowsAfterCheck(s, s.calls[id].target, Next(s, o, step).calls);
    case Recheck(id) => WindowsAfterCheck(s, s.calls[id].target, Next(s, o, step).calls);
    case Finish(id, ok) => WindowsAfterFinish(s, o, id, ok);
    case _ =>
  }

  lemma CountsKept(s: State, o: Options, step: Step)
    requires CountsOk(s) && Enabled(s, o, step)
    ensures CountsOk(Next(s, o, step))
  {
    var u := Next(s, o, step);
    forall t ensures Fails(u.record, t) == Trailing(ResultsOf(u, t)) {
      assert Fails(s.record, t) == Trailing(ResultsOf(s, t));
      if step.Finish? && s.calls[step.id].target == t {
        var before := ResultsOf(s, t);
        assert (before + [step.ok])[..|before|] == before;
      }
    }
  }

  lemma StepKeeps(s: State, o: Options, step: Step)
    requires Inv(s, o) && Enabled(s, o, step)
    ensures Inv(Next(s, o, step), o)
  {
    SlotsKept(s, o, step);
    LocksKept(s, o, step);
    WindowsKept(s, o, step);
    CountsKept(s, o, step);
  }

  // ---------- every run ----------

  function Start(now: int): State { State(now, Record(map[], map[]), 0, map[], map[], map[], map[]) }

  predicate Legal(s: State, o: Options, steps: seq<Step>)
    decreases |steps|
  {
    steps == [] || (Enabled(s, o, steps[0]) && Legal(Next(s, o, steps[0]), o, steps[1..]))
  }

  function Run(s: State, o: Options, steps: seq<Step>): State
    requires Legal(s, o, steps)
    decreases |steps|
  {
    if steps == [] then s else Run(Next(s, o, steps[0]), o, steps[1..])
  }

  lemma {:induction false} RunKeeps(s: State, o: Options, steps: seq<Step>)
    requires Inv(s, o) && Legal(s, o, steps)
    ensures Inv(Run(s, o, steps), o)
    decreases |steps|
  {
    if steps == [] {
    } else {
      StepKeeps(s, o, steps[0]);
      RunKeeps(Next(s, o, steps[0]), o, steps[1..]);
    }
  }

  lemma {:induction false} Reached(o: Options, now: int, steps: seq<Step>)
    requires Legal(Start(now), o, steps)
    ensures Inv(Run(Start(now), o, steps), o)
  {
    assert Holders(Start(now).calls) == {};
    RunKeeps(Start(now), o, steps);
  }

  lemma SubsetIsSmaller(a: set<nat>, b: set<nat>)
    requires a <= b
    ensures |a| <= |b|
  {
    if a != {} {
      var x :| x in a;
      SubsetIsSmaller(a - {x}, b - {x});
    }
  }

  /** In every interleaving at most `concurrency` tasks run. */
  lemma {:induction false} AtMostConcurrencyRun(o: Options, now: int, steps: seq<Step>)
    requires Legal(Start(now), o, steps)
    ensures |Running(Run(Start(now), o, steps).calls)| <= o.concurrency
  {
    Reached(o, now, steps);
    var calls := Run(Start(now), o, steps).calls;
    SubsetIsSmaller(Running(calls), Holders(calls));
  }

  /** In every interleaving two running tasks have different targets. */
  lemma {:induction false} OneTaskPerTarget(o: Options, now: int, steps: seq<Step>, a: nat, b: nat)
    requires Legal(Start(now), o, steps)
    requires a in Running(Run(Start(now), o, steps).calls) && b in Running(Run(Start(now), o, steps).calls)
    ensures var calls := Run(Start(now), o, steps).calls; calls[a].target == calls[b].target ==> a == b
  {
    Reached(o, now, steps);
  }

  /** In every interleaving a task starts only after the last backoff window of its target has ended, and while it runs
      no window is open. */
  lemma {:induction false} NoTaskWhileBlocked(o: Options, now: int, steps: seq<Step>, id: nat)
    requires Legal(Start(now), o, steps) && id in Running(Run(Start(now), o, steps).calls)
    ensures var s := Run(Start(now), o, steps);
            var target := s.calls[id].target;
            target !in s.record.blocked && (target in s.window ==> s.now > s.window[target])
  {
    Reached(o, now, steps);
  }

  /** In every interleaving a window ends: a look at the backoff lets a call on exactly when its target's last window,
      if it has one, is over. */
  lemma {:induction false} TriedOnceWindowEnds(o: Options, now: int, steps: seq<Step>, id: nat)
    requires Legal(Start(now), o, steps) && id in Run(Start(now), o, steps).calls
    ensures var s := Run(Start(now), o, steps);
            var target := s.calls[id].target;
            var open := target in s.window && s.now <= s.window[target];
            && (s.calls[id] == Checks(target) ==>
                  var t := Next(s, o, Check(id));
                  if open then id !in t.calls
                  else id in t.calls && t.calls[id] == WantsSlot(target) && target !in t.record.blocked)
            && (s.calls[id] == Rechecks(target) ==>
                  var t := Next(s, o, Recheck(id));
                  if open then t.calls[id] == Unlocks(target)
                  else t.calls[id] == Runs(target) && target !in t.record.blocked)
  {
    Reached(o, now, steps);
  }

  lemma FailureRecorded(r: Record, o: Options, target: string, now: int)
    requires target !in r.blocked
    ensures var t, n := Recorded(r, o, target, false, now), Fails(r, target) + 1;
            && (target in t.blocked <==> n >= o.threshold)
            && (n >= o.threshold ==> t.blocked[target] == now + DelayFrom(o.base, o.max, n - o.threshold))
  {
  }

  lemma {:induction false} OneMoreFailure(results: seq<bool>)
    ensures Trailing(results + [false]) == Trailing(results) + 1
  {
    assert (results + [false])[..|results|] == results;
  }

  lemma RunsUnblocked(s: State, o: Options, id: nat)
    requires Inv(s, o) && Enabled(s, o, Finish(id, false))
    ensures var target := s.calls[id].target;
            target !in s.record.blocked && Fails(s.record, target) == Trailing(ResultsOf(s, target))
  {
  }

  lemma FailureIsNoted(s: State, o: Options, id: nat)
    requires Enabled(s, o, Finish(id, false))
    ensures var t, target := Next(s, o, Finish(id, false)), s.calls[id].target;
            && t.record == Recorded(s.record, o, target, false, s.now)
            && ResultsOf(t, target) == ResultsOf(s, target) + [false]
  {
  }

  lemma FailureBlocks(s: State, o: Options, id: nat)
    requires Inv(s, o) && Enabled(s, o, Finish(id, false))
    ensures var t, target := Next(s, o, Finish(id, false)), s.calls[id].target;
            var n := Trailing(ResultsOf(s, target)) + 1;
            && Trailing(ResultsOf(t, target)) == n
            && (target in t.record.blocked <==> n >= o.threshold)
            && (n >= o.threshold ==> t.record.blocked[target] == s.now + DelayFrom(o.base, o.max, n - o.threshold))
  {
    var target := s.calls[id].target;
    RunsUnblocked(s, o, id);
    FailureIsNoted(s, o, id);
    FailureRecorded(s.record, o, target, s.now);
    OneMoreFailure(ResultsOf(s, target));
  }

  /** In every interleaving, when the n-th consecutive failure of a target is recorded and n reaches the threshold, the
      target is blocked for exactly min(max, base * 2^(n - threshold)), unless doubling overflows. */
  lemma {:induction false} ConsecutiveFailuresBlock(o: Options, now: int, steps: seq<Step>, id: nat)
    requires Proper(o) && LastDoublingFits(o.base, o.max)
    requires Legal(Start(now), o, steps) && Enabled(Run(Start(now), o, steps), o, Finish(id, false))
    ensures var s := Run(Start(now), o, steps);
            var t, target := Next(s, o, Finish(id, false)), s.calls[id].target;
            var n := Trailing(ResultsOf(s, target)) + 1;
            && Trailing(ResultsOf(t, target)) == n
            && (target in t.record.blocked <==> n >= o.threshold)
            && (n >= o.threshold ==> t.record.blocked[target] == s.now + Min(o.max, o.base * Pow2(n - o.threshold)))
  {
    Reached(o, now, steps);
    var s := Run(Start(now), o, steps);
    FailureBlocks(s, o, id);
    var n := Trailing(ResultsOf(s, s.calls[id].target)) + 1;
    if n >= o.threshold { ExactWhileFitting(o.base, o.max, n - o.threshold); }
  }

  // ---------- a call nobody disturbs ----------

  lemma {:induction false} RunFirst(s: State, o: Options, step: Step, t: State, rest: seq<Step>)
    requires Enabled(s, o, step) && Next(s, o, step) == t && Legal(t, o, rest)
    ensures Legal(s, o, [step] + rest) && Run(s, o, [step] + rest) == Run(t, o, rest)
  {
    assert ([step] + rest)[1..] == rest;
  }

  /** A state with one call on its way. */
  function With(s: State, id: nat, pc: Pc, taken: nat, locked: bool, r: Record): State
  {
    s.(calls := s.calls[id := pc], slots := s.slots + taken, record := r,
       held := if locked then s.held[pc.target := id] else s.held)
  }

  /** The record once an expired window of the target is forgotten. */
  function Cleared(r: Record, target: string): Record { r.(blocked := r.blocked - {target}) }

  lemma ComesIn(s: State, o: Options, id: nat, target: string)
    requires id !in s.calls && (target in s.record.blocked ==> s.now > s.record.blocked[target])
    ensures Next(s, o, Call(id, target)) == With(s, id, Checks(target), 0, false, s.record)
    ensures var s1 := With(s, id, Checks(target), 0, false, s.record);
            && Enabled(s1, o, Check(id))
            && Next(s1, o, Check(id)) == With(s, id, WantsSlot(target), 0, false, Cleared(s.record, target))
  {
    var s1 := With(s, id, Checks(target), 0, false, s.record);
    assert s1.calls[id := WantsSlot(target)] == s.calls[id := WantsSlot(target)];
  }

  lemma GetsThrough(s: State, o: Options, id: nat, target: string, r: Record)
    requires id !in s.calls && s.slots < o.concurrency && target !in s.held
    ensures var s2, s3 := With(s, id, WantsSlot(target), 0, false, r), With(s, id, WantsLock(target), 1, false, r);
            Enabled(s2, o, TakeSlot(id)) && Next(s2, o, TakeSlot(id)) == s3
    ensures var s3, s4 := With(s, id, WantsLock(target), 1, false, r), With(s, id, Rechecks(target), 1, true, r);
            Enabled(s3, o, TakeLock(id)) && Next(s3, o, TakeLock(id)) == s4
  {
    assert s.calls[id := WantsSlot(target)][id := WantsLock(target)] == s.calls[id := WantsLock(target)];
    assert s.calls[id := WantsLock(target)][id := Rechecks(target)] == s.calls[id := Rechecks(target)];
  }

  lemma StartsTask(s: State, o: Options, id: nat, target: string, r: Record)
    requires target !in r.blocked
    ensures var s4, s5 := With(s, id, Rechecks(target), 1, true, r), With(s, id, Runs(target), 1, true, r);
            Enabled(s4, o, Recheck(id)) && Next(s4, o, Recheck(id)) == s5
  {
    assert r.blocked - {target} == r.blocked;
    assert s.calls[id := Rechecks(target)][id := Runs(target)] == s.calls[id := Runs(target)];
  }

  lemma EndsTask(s: State, o: Options, id: nat, target: string, r: Record, ok: bool)
    requires id !in s.calls && target !in s.held
    ensures var s5 := With(s, id, Runs(target), 1, true, r);
            var s6 := AfterFinish(s5, o, id, target, ok);
            var s7 := Goes(s6, id, FreesSlot(target)).(held := s.held);
            && Enabled(s5, o, Finish(id, ok)) && Next(s5, o, Finish(id, ok)) == s6
            && Enabled(s6, o, Unlock(id)) && Next(s6, o, Unlock(id)) == s7
            && Enabled(s7, o, FreeSlot(id))
            && Next(s7, o, FreeSlot(id)) == s6.(held := s.held, slots := s.slots, calls := s.calls)
            && s6.record == Recorded(r, o, target, ok, s.now)
            && s6.results == s.results[target := ResultsOf(s, target) + [ok]] && s6.now == s.now
  {
    var s5 := With(s, id, Runs(target), 1, true, r);
    assert s5.held - {target} == s.held;
    assert s5.calls[id := Unlocks(target)][id := FreesSlot(target)] - {id} == s.calls;
  }

  /** With a free slot, a free target and no open window, a call goes through: its task runs, its outcome is recorded,
      and slot and lock are free again. */
  lemma UndisturbedCallRuns(s: State, o: Options, id: nat, target: string, ok: bool) returns (steps: seq<Step>)
    requires id !in s.calls && s.slots < o.concurrency && target !in s.held
    requires target in s.record.blocked ==> s.now > s.record.blocked[target]
    ensures steps == [Call(id, target), Check(id), TakeSlot(id), TakeLock(id)]
                     + [Recheck(id), Finish(id, ok), Unlock(id), FreeSlot(id)]
    ensures Legal(s, o, steps)
    ensures var t := Run(s, o, steps);
            && t.slots == s.slots && t.held == s.held && t.calls == s.calls && t.now == s.now
            && t.results == s.results[target := ResultsOf(s, target) + [ok]]
            && t.record == Recorded(s.record.(blocked := s.record.blocked - {target}), o, target, ok, s.now)
  {
    var r := Cleared(s.record, target);
    var s1, s2 := With(s, id, Checks(target), 0, false, s.record), With(s, id, WantsSlot(target), 0, false, r);
    var s3, s4 := With(s, id, WantsLock(target), 1, false, r), With(s, id, Rechecks(target), 1, true, r);
    var s5 := With(s, id, Runs(target), 1, true, r);
    var last := RunsToTheEnd(s, o, id, target, r, ok);
    StartsTask(s, o, id, target, r);
    GetsThrough(s, o, id, target, r);
    ComesIn(s, o, id, target);
    RunFirst(s4, o, Recheck(id), s5, last);
    var rest := [Recheck(id)] + last;
    RunFirst(s3, o, TakeLock(id), s4, rest);
    rest := [TakeLock(id)] + rest;
    RunFirst(s2, o, TakeSlot(id), s3, rest);
    rest := [TakeSlot(id)] + rest;
    RunFirst(s1, o, Check(id), s2, rest);
    rest := [Check(id)] + rest;
    RunFirst(s, o, Call(id, target), s1, rest);
    steps := [Call(id, target)] + rest;
  }

  lemma RunsToTheEnd(s: State, o: Options, id: nat, target: string, r: Record, ok: bool) returns (steps: seq<Step>)
    requires id !in s.calls && target !in s.held
    ensures var s5, s6 := With(s, id, Runs(target), 1, true, r),
            AfterFinish(With(s, id, Runs(target), 1, true, r), o, id, target, ok);
            && steps == [Finish(id, ok), Unlock(id), FreeSlot(id)] && Legal(s5, o, steps)
            && Run(s5, o, steps) == s6.(held := s.held, slots := s.slots, calls := s.calls)
            && s6.record == Recorded(r, o, target, ok, s.now)
            && s6.results == s.results[target := ResultsOf(s, target) + [ok]] && s6.now == s.now
  {
    var s5 := With(s, id, Runs(target), 1, true, r);
    var s6 := AfterFinish(s5, o, id, target, ok);
    var s7 := Goes(s6, id, FreesSlot(target)).(held := s.held);
    EndsTask(s, o, id, target, r, ok);
    var t := s6.(held := s.held, slots := s.slots, calls := s.calls);
    RunFirst(s7, o, FreeSlot(id), t, []);
    RunFirst(s6, o, Unlock(id), s7, [FreeSlot(id)] + []);
    RunFirst(s5, o, Finish(id, ok), s6, [Unlock(id)] + ([FreeSlot(id)] + []));
    steps := [Finish(id, ok)] + ([Unlock(id)] + ([FreeSlot(id)] + []));
  }
}
