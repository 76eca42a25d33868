/** The fingerprint of a probe set, and the versions a run of fingerprints gives. */
module MeshFingerprints {
  import opened Ordering
  import opened MeshGraph

  // ---------- the fingerprint of a probe set ----------

  /** One probe as the fingerprint sees it: whole milliseconds and millionths of loss. */
  datatype Mark = Mark(from: string, to: string, rttMs: int, lossPpm: int, direct: bool)

  /** The collision-free hash stands for the bytes it is fed. */
  type Fingerprint = string

  /** Go's float to integer conversion drops the fraction. */
  function Trunc(x: real): int
  {
    if x >= 0.0 then x.Floor else -((-x).Floor)
  }

  function MarkOf(p: Probe): Mark
  {
    Mark(p.from, p.to, Trunc(p.rttMs), Trunc(p.lossRate * 1000000.0), p.direct)
  }

  predicate ProbeLess(a: Probe, b: Probe)
  {
    if a.from != b.from then StrLess(a.from, b.from)
    else if a.to != b.to then StrLess(a.to, b.to)
    else if a.rttMs != b.rttMs then a.rttMs < b.rttMs
    else if a.lossRate != b.lossRate then a.lossRate < b.lossRate
    else !a.direct && b.direct
  }

  predicate ProbeLeq(a: Probe, b: Probe) { a == b || ProbeLess(a, b) }

  lemma ProbeLeqIsLinear()
    ensures Linear(ProbeLeq)
    ensures forall a, b :: ProbeLeq(a, b) && ProbeLeq(b, a) ==> a == b
  {
    StrLeqIsLinear();
    forall a, b ensures (ProbeLeq(a, b) || ProbeLeq(b, a)) && (ProbeLeq(a, b) && ProbeLeq(b, a) ==> a == b) {
      assert StrLeq(a.from, b.from) || StrLeq(b.from, a.from);
      assert StrLeq(a.to, b.to) || StrLeq(b.to, a.to);
      if StrLess(a.from, b.from) { StrLessAsym(a.from, b.from); }
      if StrLess(a.to, b.to) { StrLessAsym(a.to, b.to); }
    }
    forall a, b, c | ProbeLeq(a, b) && ProbeLeq(b, c) ensures ProbeLeq(a, c) {
      ProbeLeqTrans(a, b, c);
    }
  }

  lemma ProbeLeqTrans(a: Probe, b: Probe, c: Probe)
    requires ProbeLeq(a, b) && ProbeLeq(b, c)
    ensures ProbeLeq(a, c)
  {
    if StrLess(a.from, b.from) { StrLessAsym(a.from, b.from); }
    if StrLess(a.to, b.to) { StrLessAsym(a.to, b.to); }
    if StrLess(a.from, b.from) && StrLess(b.from, c.from) { StrLessTrans(a.from, b.from, c.from); }
    if StrLess(a.to, b.to) && StrLess(b.to, c.to) { StrLessTrans(a.to, b.to, c.to); }
  }

  function Present(probes: Probes): seq<Probe>
  {
    if probes == [] then []
    else Present(probes[..|probes| - 1]) + (if probes[|probes| - 1].Some? then [probes[|probes| - 1].value] else [])
  }

  function Marks(ps: seq<Probe>): seq<Mark>
  {
    seq(|ps|, i requires 0 <= i < |ps| => MarkOf(ps[i]))
  }

  /** The bytes of one probe: four fields, each followed by a zero byte, and the direct flag before a fifth. */
  function FrameOf(m: Mark): string
  {
    m.from + ("\U{0}" + (m.to + ("\U{0}" + (FormatInt(m.rttMs) + ("\U{0}" + (FormatInt(m.lossPpm)
    + ("\U{0}" + ((if m.direct then "\U{1}" else "") + "\U{0}"))))))))
  }

  function Frames(ms: seq<Mark>): seq<string>
  {
    if ms == [] then [] else [FrameOf(ms[0])] + Frames(ms[1..])
  }

  /** The strings one after the other. */
  function Joined(parts: seq<string>): string
  {
    if parts == [] then "" else parts[0] + Joined(parts[1..])
  }

  lemma {:induction false} JoinedNext(parts: seq<string>, n: nat)
    requires n < |parts|
    ensures Joined(parts[..n + 1]) == Joined(parts[..n]) + parts[n]
  {
    if n == 0 {
      assert parts[..1][1..] == [] && parts[..0] == [];
    } else {
      JoinedNext(parts[1..], n - 1);
      assert parts[..n + 1][1..] == parts[1..][..n] && parts[..n][1..] == parts[1..][..n - 1];
    }
  }

  function FingerprintOf(probes: Probes): Fingerprint
  {
    Joined(Frames(Marks(Sort(ProbeLeq, Present(probes)))))
  }

  method ComputeFingerprint(probes: Probes) returns (fp: Fingerprint)
    ensures fp == FingerprintOf(probes)
  {
    var ps := [];
    for n := 0 to |probes|
      invariant ps == Present(probes[..n])
    {
      assert probes[..n + 1][..n] == probes[..n];
      if probes[n].Some? { ps := ps + [probes[n].value]; }
    }
    assert probes[..|probes|] == probes;
    ps := Sort(ProbeLeq, ps);
    fp := WriteFrames(Marks(ps));
  }

  method WriteFrames(ms: seq<Mark>) returns (fp: Fingerprint)
    ensures fp == Joined(Frames(ms))
  {
    var parts := Frames(ms);
    fp := "";
    for n := 0 to |parts|
      invariant fp == Joined(parts[..n])
    {
      JoinedNext(parts, n);
      fp := fp + parts[n];
    }
    assert parts[..|parts|] == parts;
  }

  lemma {:induction false} PresentMembers(probes: Probes, p: Probe)
    ensures multiset(Present(probes))[p] == multiset(probes)[Some(p)]
  {
    if probes == [] {
    } else {
      var n := |probes| - 1;
      PresentMembers(probes[..n], p);
      assert probes == probes[..n] + [probes[n]];
    }
  }

  /** No agent's name contains a zero byte. */
  predicate NamesNulFree(m: Mark) { '\U{0}' !in m.from && '\U{0}' !in m.to }

  ghost predicate NulFree(ms: seq<Mark>)
  {
    forall i :: 0 <= i < |ms| ==> NamesNulFree(ms[i])
  }

  lemma {:induction false} DigitsHaveNoNul(n: nat)
    ensures '\U{0}' !in Digits(n)
  {
    if n < 10 {
    } else {
      DigitsHaveNoNul(n / 10);
    }
  }

  lemma NumbersHaveNoNul(n: int)
    ensures '\U{0}' !in FormatInt(n)
  {
    DigitsHaveNoNul(if n < 0 then -n else n);
    var text := FormatInt(n);
    assert n < 0 ==> text == "-" + Digits(-n);
    forall i | 0 <= i < |text| ensures text[i] != '\U{0}' {
      assert n < 0 && i > 0 ==> text[i] == Digits(-n)[i - 1];
    }
  }

  /** A frame followed by anything tells its probe and what follows. */
  lemma FrameEnds(a: Mark, b: Mark, x: string, y: string)
    requires NamesNulFree(a) && NamesNulFree(b) && FrameOf(a) + x == FrameOf(b) + y
    ensures a == b && x == y
  {
    FrameUnfolds(a, x);
    FrameUnfolds(b, y);
    EndsAtMark('\U{0}', a.from, b.from, FrameAfterFrom(a, x), FrameAfterFrom(b, y));
    EndsAtMark('\U{0}', a.to, b.to, FrameAfterTo(a, x), FrameAfterTo(b, y));
    NumbersHaveNoNul(a.rttMs);
    NumbersHaveNoNul(b.rttMs);
    EndsAtMark('\U{0}', FormatInt(a.rttMs), FormatInt(b.rttMs), FrameAfterRtt(a, x), FrameAfterRtt(b, y));
    NumbersHaveNoNul(a.lossPpm);
    NumbersHaveNoNul(b.lossPpm);
    EndsAtMark('\U{0}', FormatInt(a.lossPpm), FormatInt(b.lossPpm), FrameAfterLoss(a, x), FrameAfterLoss(b, y));
    FormatIntDiffers(a.rttMs, b.rttMs);
    FormatIntDiffers(a.lossPpm, b.lossPpm);
    EndsAtMark('\U{0}', if a.direct then "\U{1}" else "", if b.direct then "\U{1}" else "", x, y);
  }

  function FrameAfterLoss(m: Mark, x: string): string { (if m.direct then "\U{1}" else "") + ("\U{0}" + x) }

  function FrameAfterRtt(m: Mark, x: string): string { FormatInt(m.lossPpm) + ("\U{0}" + FrameAfterLoss(m, x)) }

  function FrameAfterTo(m: Mark, x: string): string { FormatInt(m.rttMs) + ("\U{0}" + FrameAfterRtt(m, x)) }

  function FrameAfterFrom(m: Mark, x: string): string { m.to + ("\U{0}" + FrameAfterTo(m, x)) }

  lemma FrameUnfolds(m: Mark, x: string)
    ensures FrameOf(m) + x == m.from + ("\U{0}" + FrameAfterFrom(m, x))
  {
  }

  /** The bytes tell the probes apart: equal fingerprints mean equal records, as long as no name contains a zero
      byte. */
  lemma {:induction false} FramesTellRecords(a: seq<Mark>, b: seq<Mark>)
    requires NulFree(a) && NulFree(b) && Joined(Frames(a)) == Joined(Frames(b))
    ensures a == b
  {
    BothEmpty(a, b);
    if a == [] {
    } else {
      FirstFramesTell(a, b);
      FramesTellRecords(a[1..], b[1..]);
      assert a == [a[0]] + a[1..] && b == [b[0]] + b[1..];
    }
  }

  lemma {:induction false} BothEmpty(a: seq<Mark>, b: seq<Mark>)
    requires Joined(Frames(a)) == Joined(Frames(b))
    ensures a == [] <==> b == []
  {
    FirstFrame(a);
    FirstFrame(b);
  }

  lemma {:induction false} FirstFramesTell(a: seq<Mark>, b: seq<Mark>)
    requires NulFree(a) && NulFree(b) && a != [] && b != [] && Joined(Frames(a)) == Joined(Frames(b))
    ensures a[0] == b[0] && Joined(Frames(a[1..])) == Joined(Frames(b[1..]))
  {
    FirstFrame(a);
    FirstFrame(b);
    FrameEnds(a[0], b[0], Joined(Frames(a[1..])), Joined(Frames(b[1..])));
  }

  lemma {:induction false} FirstFrame(ms: seq<Mark>)
    ensures Joined(Frames(ms)) == "" <==> ms == []
    ensures ms != [] ==> Joined(Frames(ms)) == FrameOf(ms[0]) + Joined(Frames(ms[1..]))
  {
    if ms != [] {
      assert Frames(ms)[1..] == Frames(ms[1..]);
      FrameIsLong(ms[0]);
      JoinedIsLong(Frames(ms));
    }
  }

  lemma {:induction false} JoinedIsLong(parts: seq<string>)
    requires parts != [] && parts[0] != ""
    ensures Joined(parts) != ""
  {
  }

  lemma FrameIsLong(m: Mark)
    ensures FrameOf(m) != ""
  {
    FrameUnfolds(m, "");
  }

  /** The fingerprint does not depend on the order of the probes. */
  lemma FingerprintIgnoresOrder(a: Probes, b: Probes)
    requires multiset(a) == multiset(b)
    ensures FingerprintOf(a) == FingerprintOf(b)
  {
    var p, q := Present(a), Present(b);
    forall x ensures multiset(p)[x] == multiset(q)[x] {
      PresentMembers(a, x);
      PresentMembers(b, x);
    }
    assert multiset(p) == multiset(q);
    ProbeLeqIsLinear();
    SortSorts(ProbeLeq, p);
    SortSorts(ProbeLeq, q);
    SortPermutes(ProbeLeq, p);
    SortPermutes(ProbeLeq, q);
    SortedUnique(ProbeLeq, Sort(ProbeLeq, p), Sort(ProbeLeq, q));
  }

  /** `n` is `x` without its fraction. */
  predicate WholePart(x: real, n: int)
  {
    if x >= 0.0 then n as real <= x < n as real + 1.0 else n as real - 1.0 < x <= n as real
  }

  ghost predicate SameWhole(x: real, y: real) { exists n :: WholePart(x, n) && WholePart(y, n) }

  /** The same agents, the same whole milliseconds and millionths of loss, the same kind of link. */
  ghost predicate Alike(p: Probe, q: Probe)
  {
    && p.from == q.from && p.to == q.to && p.direct == q.direct
    && SameWhole(p.rttMs, q.rttMs) && SameWhole(p.lossRate * 1000000.0, q.lossRate * 1000000.0)
  }

  lemma TruncIsWholePart(x: real, n: int)
    ensures WholePart(x, n) <==> n == Trunc(x)
  {
  }

  lemma AlikeMarks(p: Probe, q: Probe)
    ensures Alike(p, q) <==> MarkOf(p) == MarkOf(q)
  {
    SameWholeIs(p.rttMs, q.rttMs);
    SameWholeIs(p.lossRate * 1000000.0, q.lossRate * 1000000.0);
  }

  lemma SameWholeIs(x: real, y: real)
    ensures SameWhole(x, y) <==> Trunc(x) == Trunc(y)
  {
    TruncIsWholePart(x, Trunc(x));
    TruncIsWholePart(y, Trunc(x));
    if n :| WholePart(x, n) && WholePart(y, n) {
      TruncIsWholePart(x, n);
      TruncIsWholePart(y, n);
    }
  }

  ghost predicate NamesHaveNoNul(probes: Probes)
  {
    forall i :: 0 <= i < |probes| && probes[i].Some? ==>
      '\U{0}' !in probes[i].value.from && '\U{0}' !in probes[i].value.to
  }

  lemma {:induction false} PresentIn(probes: Probes, p: Probe)
    ensures p in Present(probes) <==> Some(p) in probes
  {
    PresentMembers(probes, p);
    Counted(Present(probes), p);
    Counted(probes, Some(p));
  }

  /** Sorting keeps the probes there are. */
  lemma {:induction false} SortedPresent(probes: Probes)
    ensures forall p :: p in Sort(ProbeLeq, Present(probes)) <==> Some(p) in probes
  {
    SortPermutes(ProbeLeq, Present(probes));
    SameMembers(Sort(ProbeLeq, Present(probes)), Present(probes));
    forall p ensures p in Sort(ProbeLeq, Present(probes)) <==> Some(p) in probes { PresentIn(probes, p); }
  }

  /** Probe sets with the same fingerprint are alike: each probe of one has its like in the other, so a change of an
      agent, of whole milliseconds, of millionths of loss or of the kind of link to what no probe says shows. */
  lemma EqualFingerprintsAreAlike(a: Probes, b: Probes, p: Probe)
    requires NamesHaveNoNul(a) && NamesHaveNoNul(b) && FingerprintOf(a) == FingerprintOf(b) && Some(p) in a
    ensures exists q :: Some(q) in b && Alike(p, q)
  {
    var x, y := Sort(ProbeLeq, Present(a)), Sort(ProbeLeq, Present(b));
    SortedPresent(a);
    SortedPresent(b);
    MarksHaveNoNul(a, x);
    MarksHaveNoNul(b, y);
    FramesTellRecords(Marks(x), Marks(y));
    var q := SameMarkIn(x, y, p);
    AlikeMarks(p, q);
  }

  lemma MarksHaveNoNul(probes: Probes, x: seq<Probe>)
    requires NamesHaveNoNul(probes) && forall p :: p in x ==> Some(p) in probes
    ensures NulFree(Marks(x))
  {
    forall i | 0 <= i < |x| ensures NamesNulFree(Marks(x)[i]) {
      assert x[i] in x;
      var j :| 0 <= j < |probes| && probes[j] == Some(x[i]);
    }
  }

  lemma SameMarkIn(x: seq<Probe>, y: seq<Probe>, p: Probe) returns (q: Probe)
    requires Marks(x) == Marks(y) && p in x
    ensures q in y && MarkOf(q) == MarkOf(p)
  {
    var i :| 0 <= i < |x| && x[i] == p;
    assert Marks(x)[i] == Marks(y)[i] && |Marks(x)| == |Marks(y)|;
    q := y[i];
  }

  /** A single probe's fingerprint changes exactly when the probe is no longer alike. */
  lemma ProbeChangesShow(p: Probe, q: Probe)
    requires NamesHaveNoNul([Some(p), Some(q)])
    ensures FingerprintOf([Some(p)]) == FingerprintOf([Some(q)]) <==> Alike(p, q)
  {
    assert [Some(p), Some(q)][0] == Some(p) && [Some(p), Some(q)][1] == Some(q);
    SingleFingerprint(p);
    SingleFingerprint(q);
    AlikeMarks(p, q);
    if FingerprintOf([Some(p)]) == FingerprintOf([Some(q)]) {
      EqualFingerprintsAreAlike([Some(p)], [Some(q)], p);
    }
  }

  lemma SingleFingerprint(p: Probe)
    ensures FingerprintOf([Some(p)]) == FrameOf(MarkOf(p))
  {
    assert [Some(p)][..0] == [];
    assert Present([Some(p)]) == [p];
    assert Sort(ProbeLeq, [p]) == [p];
    var ms := Marks([p]);
    assert ms == [MarkOf(p)] && ms[1..] == [];
    assert Frames(ms) == [FrameOf(MarkOf(p))] && Frames(ms)[1..] == [];
    assert Joined([]) == "";
    assert FrameOf(MarkOf(p)) + "" == FrameOf(MarkOf(p));
  }

  // ---------- versions over a run of calls ----------

  /** How often the fingerprint differed from the call before, counting the first call. */
  ghost function Changes(calls: seq<Fingerprint>): nat
  {
    if calls == [] then 0
    else
      var n := |calls| - 1;
      Changes(calls[..n]) + (if n > 0 && calls[n - 1] == calls[n] then 0 else 1)
  }

  lemma {:induction false} NextChange(calls: seq<Fingerprint>, fp: Fingerprint)
    ensures Changes(calls + [fp]) == Changes(calls) + (if calls != [] && calls[|calls| - 1] == fp then 0 else 1)
  {
    assert (calls + [fp])[..|calls|] == calls;
  }

  /** Two calls get the same version exactly when no call after the first brought another fingerprint. */
  lemma {:induction false} SameVersionMeansNoChange(calls: seq<Fingerprint>, i: nat, j: nat)
    requires 0 < i <= j <= |calls|
    ensures Changes(calls[..i]) <= Changes(calls[..j])
    ensures Changes(calls[..i]) == Changes(calls[..j]) <==> forall k :: i - 1 <= k < j ==> calls[k] == calls[i - 1]
    decreases j - i
  {
    if i >= j {
    } else {
      SameVersionMeansNoChange(calls, i, j - 1);
      assert calls[..j][..j - 1] == calls[..j - 1];
      assert Changes(calls[..j]) == Changes(calls[..j - 1]) + (if calls[j - 2] == calls[j - 1] then 0 else 1);
    }
  }
}
