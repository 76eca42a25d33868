/** The agent's durable queue: entries under 16-byte keys in byte order, replayed oldest first. */
module Spools {
  import opened Ordering
  import opened ByteCodec

  // ---------- keys ----------

  function Pow256(w: nat): nat
  {
    if w == 0 then 1 else 256 * Pow256(w - 1)
  }

  /** The `w` bytes of `n`, most significant first. */
  function BigEndian(n: nat, w: nat): (r: Bytes)
    requires n < Pow256(w)
    ensures |r| == w
  {
    if w == 0 then [] else BigEndian(n / 256, w - 1) + [n % 256]
  }

  /** The order of `bytes.Compare`: a proper prefix comes first. */
  predicate BytesLess(a: Bytes, b: Bytes)
  {
    b != [] && (a == [] || a[0] < b[0] || (a[0] == b[0] && BytesLess(a[1..], b[1..])))
  }

  lemma {:induction false} SameHead(h: byte, x: Bytes, g: byte, y: Bytes)
    ensures BytesLess([h] + x, [g] + y) <==> h < g || (h == g && BytesLess(x, y))
  {
    assert ([h] + x)[1..] == x && ([g] + y)[1..] == y;
  }

  lemma LastByteFirst(n: nat, w: nat, x: Bytes)
    requires w > 0 && n < Pow256(w)
    ensures BigEndian(n, w) + x == BigEndian(n / 256, w - 1) + ([n % 256] + x)
  {
  }

  /** Numbers written with equal width compare as their bytes do, and what follows them decides ties. */
  lemma {:induction false} BigEndianOrder(a: nat, b: nat, w: nat, x: Bytes, y: Bytes)
    requires a < Pow256(w) && b < Pow256(w)
    ensures BytesLess(BigEndian(a, w) + x, BigEndian(b, w) + y) <==> a < b || (a == b && BytesLess(x, y))
  {
    if w == 0 {
      assert BigEndian(a, w) + x == x && BigEndian(b, w) + y == y;
    } else {
      LastByteFirst(a, w, x);
      LastByteFirst(b, w, y);
      BigEndianOrder(a / 256, b / 256, w - 1, [a % 256] + x, [b % 256] + y);
      SameHead(a % 256, x, b % 256, y);
    }
  }

  lemma EightBytes()
    ensures Pow256(8) == TWO64
  {
    assert Pow256(2) == 65536;
    assert Pow256(4) == 0x1_0000_0000;
    assert Pow256(6) == 0x1_0000_0000_0000;
  }

  function EightBytesOf(n: uint64): (r: Bytes)
    ensures |r| == 8
  {
    EightBytes();
    BigEndian(n, 8)
  }

  // ---------- entries ----------

  /** An entry whose value does not decode has value None. */
  datatype Entry<R> = Entry(ts: uint64, seqNo: uint64, value: Option<R>)

  function MakeKey(ts: uint64, seqNo: uint64): Bytes { EightBytesOf(ts) + EightBytesOf(seqNo) }

  function KeyOf<R>(e: Entry<R>): Bytes { MakeKey(e.ts, e.seqNo) }

  /** Older, or equally old and queued earlier. */
  predicate Before<R>(a: Entry<R>, b: Entry<R>)
  {
    a.ts < b.ts || (a.ts == b.ts && a.seqNo < b.seqNo)
  }

  /** The byte order of keys is the order of (time, sequence number). */
  lemma KeyOrder<R>(a: Entry<R>, b: Entry<R>)
    ensures BytesLess(KeyOf(a), KeyOf(b)) <==> Before(a, b)
    ensures KeyOf(a) == KeyOf(b) <==> a.ts == b.ts && a.seqNo == b.seqNo
  {
    EightBytes();
    BigEndianOrder(a.seqNo, b.seqNo, 8, [], []);
    BigEndianOrder(b.seqNo, a.seqNo, 8, [], []);
    assert EightBytesOf(a.seqNo) + [] == EightBytesOf(a.seqNo) && EightBytesOf(b.seqNo) + [] == EightBytesOf(b.seqNo);
    BigEndianOrder(a.ts, b.ts, 8, EightBytesOf(a.seqNo), EightBytesOf(b.seqNo));
    BigEndianOrder(b.ts, a.ts, 8, EightBytesOf(b.seqNo), EightBytesOf(a.seqNo));
    if KeyOf(a) == KeyOf(b) { BytesLessIrreflexive(KeyOf(a)); }
  }

  lemma {:induction false} BytesLessIrreflexive(a: Bytes)
    ensures !BytesLess(a, a)
  {
    if a == [] {
    } else {
      BytesLessIrreflexive(a[1..]);
    }
  }

  /** A 16-byte key against an 8-byte cutoff: only the time counts, and an equal time is not below. */
  lemma CutoffOrder<R>(e: Entry<R>, cut: uint64)
    ensures BytesLess(KeyOf(e), EightBytesOf(cut)) <==> e.ts < cut
  {
    EightBytes();
    BigEndianOrder(e.ts, cut, 8, EightBytesOf(e.seqNo), []);
    assert EightBytesOf(cut) + [] == EightBytesOf(cut);
  }

  predicate InOrder<R>(es: seq<Entry<R>>)
  {
    forall i, j :: 0 <= i < j < |es| ==> Before(es[i], es[j])
  }

  /** Stores under the key: in its place in byte order, or over the entry with the same key. */
  function Put<R>(es: seq<Entry<R>>, e: Entry<R>): seq<Entry<R>>
  {
    if es == [] || BytesLess(KeyOf(e), KeyOf(es[0])) then [e] + es
    else if KeyOf(e) == KeyOf(es[0]) then [e] + es[1..]
    else [es[0]] + Put(es[1..], e)
  }

  lemma {:induction false} PutAdds<R>(es: seq<Entry<R>>, e: Entry<R>)
    requires forall i :: 0 <= i < |es| ==> es[i].seqNo != e.seqNo
    ensures multiset(Put(es, e)) == multiset(es) + multiset{e}
  {
    if es == [] {
    } else {
      KeyOrder(e, es[0]);
      PutAdds(es[1..], e);
      assert es == [es[0]] + es[1..];
    }
  }

  /** Storing under a fresh key adds the entry in its place. */
  lemma {:induction false} PutInOrder<R>(es: seq<Entry<R>>, e: Entry<R>)
    requires InOrder(es) && forall i :: 0 <= i < |es| ==> es[i].seqNo != e.seqNo
    ensures InOrder(Put(es, e)) && multiset(Put(es, e)) == multiset(es) + multiset{e}
  {
    PutAdds(es, e);
    if es == [] {
    } else {
      KeyOrder(e, es[0]);
      if Before(es[0], e) {
        PutInOrder(es[1..], e);
        FollowsAll(es[0], es[1..], Put(es[1..], e), e);
      }
    }
  }

  lemma FollowsAll<R>(first: Entry<R>, rest: seq<Entry<R>>, t: seq<Entry<R>>, e: Entry<R>)
    requires multiset(t) == multiset(rest) + multiset{e} && Before(first, e)
    requires forall i :: 0 <= i < |rest| ==> Before(first, rest[i])
    ensures forall j :: 0 <= j < |t| ==> Before(first, t[j])
  {
    forall j | 0 <= j < |t| ensures Before(first, t[j]) {
      assert t[j] in multiset(t);
      assert t[j] == e || t[j] in rest;
    }
  }

  /** The decodable values, in order. */
  function Values<R>(es: seq<Entry<R>>): seq<R>
  {
    if es == [] then []
    else (if es[0].value.Some? then [es[0].value.value] else []) + Values(es[1..])
  }

  /** The oldest at most `n` decodable entries. */
  function Oldest<R>(es: seq<Entry<R>>, n: nat): (r: seq<Entry<R>>)
    ensures |r| <= n && forall i :: 0 <= i < |r| ==> r[i].value.Some?
  {
    if es == [] || n == 0 then []
    else if es[0].value.Some? then [es[0]] + Oldest(es[1..], n - 1)
    else Oldest(es[1..], n)
  }

  /** The undecodable entries met while looking for `n` decodable ones. */
  function Undecodable<R>(es: seq<Entry<R>>, n: nat): (r: seq<Entry<R>>)
    ensures forall e :: e in r ==> e in es && e.value.None?
  {
    if es == [] || n == 0 then []
    else if es[0].value.Some? then Undecodable(es[1..], n - 1)
    else [es[0]] + Undecodable(es[1..], n)
  }

  /** What is left after looking for `n` decodable entries: the undecodable ones met on the way are gone. */
  function AfterPeek<R>(es: seq<Entry<R>>, n: nat): seq<Entry<R>>
  {
    if es == [] || n == 0 then es
    else if es[0].value.Some? then [es[0]] + AfterPeek(es[1..], n - 1)
    else AfterPeek(es[1..], n)
  }

  /** What is found is a prefix of what is left, and no decodable entry is lost. */
  lemma {:induction false} PeekFindsPrefix<R>(es: seq<Entry<R>>, n: nat)
    ensures Oldest(es, n) <= AfterPeek(es, n)
    ensures Values(AfterPeek(es, n)) == Values(es)
    ensures Oldest(es, n) == [] && n > 0 ==> AfterPeek(es, n) == []
    ensures |AfterPeek(es, n)| <= |es|
  {
    if es == [] || n == 0 {
    } else {
      if es[0].value.Some? {
        PeekFindsPrefix(es[1..], n - 1);
        assert ([es[0]] + AfterPeek(es[1..], n - 1))[1..] == AfterPeek(es[1..], n - 1);
      } else {
        PeekFindsPrefix(es[1..], n);
      }
    }
  }

  lemma ValuesOfOne<R>(e: Entry<R>)
    ensures Values([e]) == match e.value case None => [] case Some(v) => [v]
  {
  }

  /** The values found are the first `n` there are, or all of them. */
  lemma {:induction false} OldestAreFirst<R>(es: seq<Entry<R>>, n: nat)
    ensures |Oldest(es, n)| == Min(n, |Values(es)|)
    ensures Values(Oldest(es, n)) == Values(es)[..Min(n, |Values(es)|)]
  {
    if es == [] || n == 0 {
    } else {
      OldestAreFirst(es[1..], if es[0].value.Some? then n - 1 else n);
    }
  }

  /** An undecodable entry stays only behind the `n` decodable ones that were looked for. */
  lemma {:induction false} CorruptStaysBehind<R>(es: seq<Entry<R>>, n: nat, i: nat)
    requires InOrder(es) && i < |es| && es[i].value.None?
    ensures es[i] in AfterPeek(es, n) <==> |Values(es[..i])| >= n
  {
    if n == 0 {
    } else if i == 0 {
      PeekDropsCorrupt(es[1..], n, es[0]);
      assert forall j :: 0 <= j < |es[1..]| ==> es[1..][j] == es[j + 1];
    } else {
      CorruptStaysBehind(es[1..], if es[0].value.Some? then n - 1 else n, i - 1);
      assert es[..i][1..] == es[1..][..i - 1];
      assert es[0] != es[i];
    }
  }

  /** Looking for entries takes out undecodable ones only. */
  lemma {:induction false} PeekDropsCorrupt<R>(es: seq<Entry<R>>, n: nat, e: Entry<R>)
    ensures e in AfterPeek(es, n) ==> e in es
    ensures e in es && e.value.Some? ==> e in AfterPeek(es, n)
    ensures InOrder(es) ==> InOrder(AfterPeek(es, n))
  {
    if es == [] || n == 0 {
    } else {
      var m := if es[0].value.Some? then n - 1 else n;
      PeekDropsCorrupt(es[1..], m, e);
      var t := AfterPeek(es[1..], m);
      if InOrder(es) {
        forall j | 0 <= j < |t| ensures Before(es[0], t[j]) {
          PeekDropsCorrupt(es[1..], m, t[j]);
          var i :| 0 <= i < |es[1..]| && es[1..][i] == t[j];
        }
      }
    }
  }

  /** The entries whose keys are not listed. */
  function Without<R>(es: seq<Entry<R>>, keys: seq<Bytes>): seq<Entry<R>>
  {
    if es == [] then []
    else (if KeyOf(es[0]) in keys then [] else [es[0]]) + Without(es[1..], keys)
  }

  function KeysOf<R>(es: seq<Entry<R>>): seq<Bytes>
  {
    seq(|es|, i requires 0 <= i < |es| => KeyOf(es[i]))
  }

  lemma {:induction false} NothingListed<R>(es: seq<Entry<R>>, keys: seq<Bytes>)
    requires forall i :: 0 <= i < |es| ==> KeyOf(es[i]) !in keys
    ensures Without(es, keys) == es
  {
    if es == [] {
    } else {
      NothingListed(es[1..], keys);
      assert es == [es[0]] + es[1..];
    }
  }

  lemma {:induction false} WithoutMembers<R>(es: seq<Entry<R>>, keys: seq<Bytes>, e: Entry<R>)
    ensures e in Without(es, keys) <==> e in es && KeyOf(e) !in keys
  {
    if es == [] {
    } else {
      WithoutMembers(es[1..], keys, e);
      assert e in es <==> e == es[0] || e in es[1..];
    }
  }

  lemma {:induction false} WithoutInOrder<R>(es: seq<Entry<R>>, keys: seq<Bytes>)
    requires InOrder(es)
    ensures InOrder(Without(es, keys))
  {
    if es == [] {
    } else {
      WithoutInOrder(es[1..], keys);
      var t := Without(es[1..], keys);
      forall j | 0 <= j < |t| ensures Before(es[0], t[j]) {
        WithoutMembers(es[1..], keys, t[j]);
        var i :| 0 <= i < |es[1..]| && es[1..][i] == t[j];
      }
    }
  }

  /** Acknowledging the first entries of the queue drops exactly them. */
  lemma {:induction false} AckPrefix<R>(es: seq<Entry<R>>, n: nat)
    requires InOrder(es) && n <= |es|
    ensures Without(es, KeysOf(es[..n])) == es[n..]
  {
    forall i | n <= i < |es| ensures KeyOf(es[i]) !in KeysOf(es[..n]) {
      forall j | 0 <= j < n ensures KeyOf(es[j]) != KeyOf(es[i]) { KeyOrder(es[j], es[i]); }
    }
    NothingListed(es[n..], KeysOf(es[..n]));
    forall j | 0 <= j < n ensures KeyOf(es[j]) in KeysOf(es[..n]) { assert KeysOf(es[..n])[j] == KeyOf(es[j]); }
    WithoutPrefix(es, n, KeysOf(es[..n]));
  }

  lemma {:induction false} WithoutPrefix<R>(es: seq<Entry<R>>, n: nat, keys: seq<Bytes>)
    requires n <= |es| && forall j :: 0 <= j < n ==> KeyOf(es[j]) in keys
    ensures Without(es, keys) == Without(es[n..], keys)
  {
    if n == 0 {
    } else {
      WithoutPrefix(es[1..], n - 1, keys);
    }
  }

  lemma TailOfSum<T>(a: seq<T>, b: seq<T>)
    requires a != []
    ensures (a + b)[0] == a[0] && (a + b)[1..] == a[1..] + b
  {
  }

  lemma {:induction false} ValuesSplit<R>(a: seq<Entry<R>>, b: seq<Entry<R>>)
    ensures Values(a + b) == Values(a) + Values(b)
  {
    if a == [] {
      assert a + b == b;
    } else {
      ValuesSplit(a[1..], b);
      TailOfSum(a, b);
    }
  }

  /** The conversion keeps the value modulo 2^64. */
  function ToUint64(x: int64): (r: uint64)
    ensures (r - x) % 0x1_0000_0000_0000_0000 == 0
  {
    if x < 0 then x + TWO64 else x
  }

  /** How many entries, from the oldest on, are older than the cutoff. */
  function Expired<R>(es: seq<Entry<R>>, cut: uint64): (n: nat)
    ensures n <= |es|
  {
    if es == [] || !BytesLess(KeyOf(es[0]), EightBytesOf(cut)) then 0 else 1 + Expired(es[1..], cut)
  }

  /** In an ordered queue these are exactly the entries older than the cutoff. */
  lemma {:induction false} ExpiredIsExact<R>(es: seq<Entry<R>>, cut: uint64)
    requires InOrder(es)
    ensures forall i :: 0 <= i < |es| ==> (i < Expired(es, cut) <==> es[i].ts < cut)
  {
    if es == [] {
    } else {
      CutoffOrder(es[0], cut);
      if es[0].ts < cut {
        ExpiredIsExact(es[1..], cut);
        forall i | 1 <= i < |es| ensures i < Expired(es, cut) <==> es[i].ts < cut { assert es[i] == es[1..][i - 1]; }
      }
    }
  }

  /** The cutoff is compared as an unsigned number: entries with times in the signed range are purged exactly when older
      than the cutoff, unless the cutoff lies before the epoch and there is anything to lose. */
  lemma {:induction false} PurgeExactFromEpochOn<R>(es: seq<Entry<R>>, cutoff: int64)
    requires InOrder(es) && forall i :: 0 <= i < |es| ==> es[i].ts < TWO63
    ensures (forall i :: 0 <= i < |es| ==> (i < Expired(es, ToUint64(cutoff)) <==> es[i].ts < cutoff))
            <==> cutoff >= 0 || es == []
  {
    ExpiredIsExact(es, ToUint64(cutoff));
    if cutoff < 0 && es != [] {
      assert es[0].ts < ToUint64(cutoff) && !(es[0].ts < cutoff);
    }
  }

  function Overflow<R>(es: seq<Entry<R>>, max: nat): nat { if |es| > max then |es| - max else 0 }

  // ---------- the loop of Peek ----------

  lemma {:induction false} SameWithout<R>(es: seq<Entry<R>>, a: seq<Bytes>, b: seq<Bytes>)
    requires forall i :: 0 <= i < |es| ==> (KeyOf(es[i]) in a <==> KeyOf(es[i]) in b)
    ensures Without(es, a) == Without(es, b)
  {
    if es == [] {
    } else {
      SameWithout(es[1..], a, b);
    }
  }

  lemma {:induction false} WithoutSplit<R>(a: seq<Entry<R>>, b: seq<Entry<R>>, keys: seq<Bytes>)
    ensures Without(a + b, keys) == Without(a, keys) + Without(b, keys)
  {
    if a == [] {
      assert a + b == b;
    } else {
      WithoutSplit(a[1..], b, keys);
      TailOfSum(a, b);
    }
  }

  /** Loop invariant of Peek: what was found and what was set aside among the first `i` entries. */
  ghost predicate PeekSoFar<R>(es: seq<Entry<R>>, n: nat, i: nat, out: seq<Entry<R>>, corrupt: seq<Bytes>)
  {
    && InOrder(es) && i <= |es| && |out| <= n
    && out + Oldest(es[i..], n - |out|) == Oldest(es, n)
    && Without(es[..i], corrupt) + AfterPeek(es[i..], n - |out|) == AfterPeek(es, n)
    && corrupt + KeysOf(Undecodable(es[i..], n - |out|)) == KeysOf(Undecodable(es, n))
    && (forall k :: k in corrupt ==> k in KeysOf(es[..i]))
  }

  lemma Regroup<T>(a: seq<T>, x: T, b: seq<T>)
    ensures a + ([x] + b) == (a + [x]) + b
  {
  }

  lemma PeekFound<R>(es: seq<Entry<R>>, n: nat, i: nat, out: seq<Entry<R>>, corrupt: seq<Bytes>)
    requires PeekSoFar(es, n, i, out, corrupt) && i < |es| && |out| < n && es[i].value.Some?
    ensures PeekSoFar(es, n, i + 1, out + [es[i]], corrupt)
  {
    SetAside(es, i, corrupt);
    var before, rest, m := Without(es[..i], corrupt), es[i + 1..], n - |out| - 1;
    PeekStep(es, i, m + 1);
    Regroup(before, es[i], AfterPeek(rest, m));
    Regroup(out, es[i], Oldest(rest, m));
  }

  lemma {:induction false} PeekStep<R>(es: seq<Entry<R>>, i: nat, m: nat)
    requires i < |es| && m > 0
    ensures es[i].value.Some? ==>
              && Oldest(es[i..], m) == [es[i]] + Oldest(es[i + 1..], m - 1)
              && AfterPeek(es[i..], m) == [es[i]] + AfterPeek(es[i + 1..], m - 1)
              && Undecodable(es[i..], m) == Undecodable(es[i + 1..], m - 1)
    ensures es[i].value.None? ==>
              && Oldest(es[i..], m) == Oldest(es[i + 1..], m) && AfterPeek(es[i..], m) == AfterPeek(es[i + 1..], m)
              && Undecodable(es[i..], m) == [es[i]] + Undecodable(es[i + 1..], m)
  {
    assert es[i..][1..] == es[i + 1..];
  }

  lemma KeysOfMore<R>(keys: seq<Bytes>, e: Entry<R>, more: seq<Entry<R>>)
    ensures keys + KeysOf([e] + more) == (keys + [KeyOf(e)]) + KeysOf(more)
  {
    assert KeysOf([e] + more) == [KeyOf(e)] + KeysOf(more);
    Regroup(keys, KeyOf(e), KeysOf(more));
  }

  lemma PeekSkipped<R>(es: seq<Entry<R>>, n: nat, i: nat, out: seq<Entry<R>>, corrupt: seq<Bytes>)
    requires PeekSoFar(es, n, i, out, corrupt) && i < |es| && |out| < n && es[i].value.None?
    ensures PeekSoFar(es, n, i + 1, out, corrupt + [KeyOf(es[i])])
  {
    SetAside(es, i, corrupt);
    PeekStep(es, i, n - |out|);
    assert Without(es[..i], corrupt) + [] == Without(es[..i], corrupt);
    KeysOfMore(corrupt, es[i], Undecodable(es[i + 1..], n - |out|));
  }

  lemma {:induction false} SetAside<R>(es: seq<Entry<R>>, i: nat, corrupt: seq<Bytes>)
    requires i < |es| && InOrder(es) && forall k :: k in corrupt ==> k in KeysOf(es[..i])
    ensures var more := if es[i].value.None? then corrupt + [KeyOf(es[i])] else corrupt;
            && Without(es[..i + 1], more) == Without(es[..i], corrupt) + (if es[i].value.None? then [] else [es[i]])
            && forall k :: k in more ==> k in KeysOf(es[..i + 1])
  {
    var more := if es[i].value.None? then corrupt + [KeyOf(es[i])] else corrupt;
    KeptSoFar(es, i, corrupt, more);
    NamedSoFar(es, i, corrupt, more);
  }

  lemma KeptSoFar<R>(es: seq<Entry<R>>, i: nat, corrupt: seq<Bytes>, more: seq<Bytes>)
    requires i < |es| && InOrder(es) && forall k :: k in corrupt ==> k in KeysOf(es[..i])
    requires more == if es[i].value.None? then corrupt + [KeyOf(es[i])] else corrupt
    ensures Without(es[..i + 1], more) == Without(es[..i], corrupt) + (if es[i].value.None? then [] else [es[i]])
  {
    LaterUnnamed(es, i, corrupt, i);
    forall j | 0 <= j < i ensures KeyOf(es[j]) != KeyOf(es[i]) { KeyOrder(es[j], es[i]); }
    SameWithout(es[..i], corrupt, more);
    TakeNext(es, i);
    WithoutSplit(es[..i], [es[i]], more);
  }

  lemma NamedSoFar<R>(es: seq<Entry<R>>, i: nat, corrupt: seq<Bytes>, more: seq<Bytes>)
    requires i < |es| && forall k :: k in corrupt ==> k in KeysOf(es[..i])
    requires more == corrupt || more == corrupt + [KeyOf(es[i])]
    ensures forall k :: k in more ==> k in KeysOf(es[..i + 1])
  {
    assert KeysOf(es[..i + 1]) == KeysOf(es[..i]) + [KeyOf(es[i])];
  }

  /** Keys of the first `i` entries name none of the later ones. */
  lemma {:induction false} LaterStay<R>(es: seq<Entry<R>>, i: nat, keys: seq<Bytes>)
    requires i <= |es| && InOrder(es) && forall k :: k in keys ==> k in KeysOf(es[..i])
    ensures Without(es, keys) == Without(es[..i], keys) + es[i..]
  {
    forall j | i <= j < |es| ensures KeyOf(es[j]) !in keys { LaterUnnamed(es, i, keys, j); }
    NothingListed(es[i..], keys);
    assert es == es[..i] + es[i..];
    WithoutSplit(es[..i], es[i..], keys);
  }

  lemma LaterUnnamed<R>(es: seq<Entry<R>>, i: nat, keys: seq<Bytes>, j: nat)
    requires i <= j < |es| && InOrder(es) && forall k :: k in keys ==> k in KeysOf(es[..i])
    ensures KeyOf(es[j]) !in keys
  {
    forall m | 0 <= m < i ensures KeyOf(es[m]) != KeyOf(es[j]) { KeyOrder(es[m], es[j]); }
  }

  lemma {:induction false} PeekEnds<R>(es: seq<Entry<R>>, n: nat, i: nat, out: seq<Entry<R>>, corrupt: seq<Bytes>)
    requires PeekSoFar(es, n, i, out, corrupt) && (i == |es| || |out| == n)
    ensures out == Oldest(es, n) && corrupt == KeysOf(Undecodable(es, n)) && Without(es, corrupt) == AfterPeek(es, n)
    ensures corrupt == [] ==> Without(es, corrupt) == es
  {
    LaterStay(es, i, corrupt);
    var m := n - |out|;
    assert Oldest(es[i..], m) == [] && AfterPeek(es[i..], m) == es[i..] && Undecodable(es[i..], m) == [];
    assert KeysOf(Undecodable(es[i..], m)) == [];
    assert out + [] == out && corrupt + [] == corrupt;
    if corrupt == [] { NothingListed(es, corrupt); }
  }

  /** The order and the bound on sequence numbers that the queue keeps. */
  ghost predicate Queue<R>(es: seq<Entry<R>>, sequence: nat)
  {
    InOrder(es) && sequence < TWO64 && forall i :: 0 <= i < |es| ==> es[i].seqNo <= sequence
  }

  lemma {:induction false} PeekKeepsQueue<R>(es: seq<Entry<R>>, n: nat, sequence: nat)
    requires Queue(es, sequence)
    ensures Queue(AfterPeek(es, n), sequence)
  {
    var kept := AfterPeek(es, n);
    if es != [] { PeekDropsCorrupt(es, n, es[0]); }
    forall i | 0 <= i < |kept| ensures kept[i].seqNo <= sequence {
      PeekDropsCorrupt(es, n, kept[i]);
      assert kept[i] in kept;
    }
  }

  /** The first `n` decodable values were found, or all there are, and the undecodable entries before the end of the
      search are gone. */
  ghost predicate Peeked<R>(es: seq<Entry<R>>, n: nat, out: seq<Entry<R>>, kept: seq<Entry<R>>)
  {
    && |out| == Min(n, |Values(es)|) && Values(out) == Values(es)[..|out|]
    && (forall e :: e in es && e.value.Some? ==> e in kept) && (forall e :: e in kept ==> e in es)
    && forall i :: 0 <= i < |es| && es[i].value.None? ==> (es[i] in kept <==> |Values(es[..i])| >= n)
  }

  lemma {:induction false} PeekTells<R>(es: seq<Entry<R>>, n: nat)
    requires InOrder(es)
    ensures Peeked(es, n, Oldest(es, n), AfterPeek(es, n))
  {
    var kept := AfterPeek(es, n);
    OldestAreFirst(es, n);
    forall e | e in es && e.value.Some? ensures e in kept { PeekDropsCorrupt(es, n, e); }
    forall e | e in kept ensures e in es { PeekDropsCorrupt(es, n, e); }
    forall i | 0 <= i < |es| && es[i].value.None? ensures es[i] in kept <==> |Values(es[..i])| >= n {
      CorruptStaysBehind(es, n, i);
    }
  }

  /** The cursor loop: what decodes, until enough is found, and the keys of what does not. */
  method Scan<R>(es: seq<Entry<R>>, n: nat) returns (out: seq<Entry<R>>, corrupt: seq<Bytes>)
    requires InOrder(es)
    ensures out == Oldest(es, n) && corrupt == KeysOf(Undecodable(es, n)) && Without(es, corrupt) == AfterPeek(es, n)
    ensures corrupt == [] ==> AfterPeek(es, n) == es
  {
    out, corrupt := [], [];
    var i: nat := 0;
    while i < |es| && |out| < n
      invariant PeekSoFar(es, n, i, out, corrupt)
    {
      if es[i].value.None? {
        PeekSkipped(es, n, i, out, corrupt);
        corrupt := corrupt + [KeyOf(es[i])];
      } else {
        PeekFound(es, n, i, out, corrupt);
        out := out + [es[i]];
      }
      i := i + 1;
    }
    PeekEnds(es, n, i, out, corrupt);
  }

  // ---------- the queue ----------

  /** The queue of one database file, whose n-th transaction fails, and is rolled back, when `faults(n)`. */
  class Spool<R> {
    var entries: seq<Entry<R>>
    var sequence: nat
    var transactions: nat
    const maxEntries: nat
    const faults: nat -> bool

    ghost predicate Valid()
      reads this
    {
      Queue(entries, sequence)
    }

    /** Some transaction from the `from`-th on, up to now, failed. */
    ghost predicate FaultSince(from: nat)
      reads this
    {
      exists t :: from <= t < transactions && faults(t)
    }

    constructor (maxEntries: int, faults: nat -> bool)
      ensures Valid() && entries == [] && sequence == 0 && transactions == 0 && this.faults == faults
      ensures this.maxEntries == if maxEntries <= 0 then 20000 else maxEntries
    {
      this.maxEntries := if maxEntries <= 0 then 20000 else maxEntries;
      this.faults := faults;
      entries, sequence, transactions := [], 0, 0;
    }

    /** Whether the next transaction goes through. */
    method Transaction() returns (ok: bool)
      modifies `transactions
      ensures transactions == old(transactions) + 1 && ok == !faults(old(transactions))
    {
      ok := !faults(transactions);
      transactions := transactions + 1;
    }

    /** Queues a report under its collection time, or under the present time when it has none. */
    method Enqueue(rep: Option<R>, stamp: int64, now: int64) returns (ok: bool)
      requires Valid() && sequence + 1 < TWO64
      modifies this
      ensures Valid()
      ensures ok == (rep.None? || !faults(old(transactions)))
      ensures rep.None? || !ok ==> entries == old(entries) && sequence == old(sequence)
      ensures rep.Some? && ok ==>
                var e := Entry(ToUint64(if stamp <= 0 then now else stamp), sequence, rep);
                && sequence == old(sequence) + 1
                && entries == Put(old(entries), e) && multiset(entries) == multiset(old(entries)) + multiset{e}
    {
      if rep.None? { return true; }
      ok := Transaction();
      if !ok { return; }
      sequence := sequence + 1;
      var ts := stamp;
      if ts <= 0 { ts := now; }
      var e := Entry(ToUint64(ts), sequence, rep);
      PutInOrder(entries, e);
      ghost var before := entries;
      entries := Put(entries, e);
      forall i | 0 <= i < |entries| ensures entries[i].seqNo <= sequence {
        assert entries[i] in multiset(entries);
        assert entries[i] == e || entries[i] in before;
      }
    }

    /** Drops the oldest entries beyond the capacity: the newest `maxEntries` stay. */
    method Trim() returns (dropped: nat, ok: bool)
      requires Valid()
      modifies `entries, `transactions
      ensures Valid() && ok == !faults(old(transactions))
      ensures !ok ==> entries == old(entries)
      ensures ok ==> dropped == Overflow(old(entries), maxEntries) && entries == old(entries)[dropped..]
      ensures ok ==> |entries| == if |old(entries)| < maxEntries then |old(entries)| else maxEntries
      ensures ok ==> forall i, j :: 0 <= i < dropped <= j < |old(entries)| ==> Before(old(entries)[i], old(entries)[j])
    {
      dropped := 0;
      ok := Transaction();
      if !ok { return; }
      var all := entries;
      var keys := KeysOf(all);
      var overflow := |keys| - maxEntries;
      while overflow > 0
        invariant 0 <= dropped <= |all| && entries == all[dropped..]
        invariant overflow > 0 ==> dropped < |all|
        invariant if |all| > maxEntries then overflow == |all| - maxEntries - dropped >= 0 else dropped == 0
      {
        AckPrefix(all[dropped..], 1);
        assert KeysOf(all[dropped..][..1]) == [keys[dropped]];
        entries := Without(entries, [keys[dropped]]);
        dropped := dropped + 1;
        overflow := overflow - 1;
      }
    }

    /** The oldest decodable entries, in key order; undecodable entries met on the way are deleted by a transaction of
        their own. */
    method Peek(n: int) returns (out: seq<Entry<R>>, ok: bool)
      requires Valid()
      modifies `entries, `transactions
      ensures Valid() && transactions >= old(transactions) && ok == !FaultSince(old(transactions))
      ensures ok ==> out == Oldest(old(entries), if n <= 0 then 0 else n)
      ensures ok ==> Peeked(old(entries), if n <= 0 then 0 else n, out, entries)
      ensures entries == if ok then AfterPeek(old(entries), if n <= 0 then 0 else n) else old(entries)
    {
      PeekTells(entries, if n <= 0 then 0 else n);
      if n <= 0 { return [], true; }
      out, ok := PeekSome(n);
    }

    method PeekSome(n: nat) returns (out: seq<Entry<R>>, ok: bool)
      requires Valid() && n > 0
      modifies `entries, `transactions
      ensures Valid() && transactions >= old(transactions) && ok == !FaultSince(old(transactions))
      ensures ok ==> out == Oldest(old(entries), n)
      ensures entries == if ok then AfterPeek(old(entries), n) else old(entries)
    {
      out := [];
      ok := Transaction();
      if !ok { return; }
      var corrupt;
      out, corrupt := Scan(entries, n);
      PeekKeepsQueue(entries, n, sequence);
      if |corrupt| > 0 { ok := Ack(corrupt); }
    }

    /** Deletes the entries under these keys. */
    method Ack(keys: seq<Bytes>) returns (ok: bool)
      requires Valid()
      modifies `entries, `transactions
      ensures Valid() && ok == (keys == [] || !faults(old(transactions)))
      ensures transactions == old(transactions) + (if keys == [] then 0 else 1)
      ensures entries == if ok then Without(old(entries), keys) else old(entries)
    {
      if |keys| == 0 {
        NothingListed(entries, keys);
        return true;
      }
      ok := Transaction();
      if !ok { return; }
      WithoutInOrder(entries, keys);
      var kept := Without(entries, keys);
      forall i | 0 <= i < |kept| ensures kept[i].seqNo <= sequence {
        assert kept[i] in kept;
        WithoutMembers(entries, keys, kept[i]);
      }
      entries := kept;
    }

    /** Deletes the entries older than the cutoff. */
    method Purge(cutoff: int64) returns (removed: nat, ok: bool)
      requires Valid()
      modifies `entries, `transactions
      ensures Valid() && ok == !faults(old(transactions))
      ensures !ok ==> entries == old(entries)
      ensures ok ==> removed <= |old(entries)| && entries == old(entries)[removed..]
      ensures ok ==> forall i :: 0 <= i < |old(entries)| ==> (i < removed <==> old(entries)[i].ts < ToUint64(cutoff))
    {
      removed := 0;
      ok := Transaction();
      if !ok { return; }
      var cutKey := EightBytesOf(ToUint64(cutoff));
      ghost var all := entries;
      ExpiredIsExact(all, ToUint64(cutoff));
      while |entries| > 0 && BytesLess(KeyOf(entries[0]), cutKey)
        invariant removed <= |all| && entries == all[removed..]
        invariant Expired(all, ToUint64(cutoff)) == removed + Expired(entries, ToUint64(cutoff))
        decreases |entries|
      {
        entries := entries[1..];
        removed := removed + 1;
      }
    }
  }
}
