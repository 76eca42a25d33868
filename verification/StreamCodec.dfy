/** Streams of records, each written and read relative to the value before it. */
module StreamCodec {
  import opened Ordering
  import opened ByteCodec

  /** The bytes of a value after its predecessor. */
  type Writer<!T> = (T, T) -> Bytes
  /** Takes a value off the front of a buffer, given its predecessor. */
  type Reader<!T> = (Bytes, T) -> Option<Parsed<T>>

  /** The reader takes exactly what the writer put, whatever follows. */
  ghost predicate SelfDelimiting<T(!new)>(w: Writer<T>, r: Reader<T>, ok: T -> bool)
  {
    forall v, prev, rest :: ok(v) && ok(prev) ==> r(w(v, prev) + rest, prev) == Some(Parsed(v, rest))
  }

  function StreamBytes<T>(w: Writer<T>, prev: T, vs: seq<T>): Bytes
    decreases |vs|
  {
    if vs == [] then [] else w(vs[0], prev) + StreamBytes(w, vs[0], vs[1..])
  }

  /** Takes `k` values, appending them to `acc`. */
  function TakeStream<T>(r: Reader<T>, buf: Bytes, prev: T, k: nat, acc: seq<T>): Option<Parsed<seq<T>>>
    decreases k
  {
    if k == 0 then Some(Parsed(acc, buf))
    else
      var p := r(buf, prev);
      if p.None? then None
      else TakeStream(r, p.value.rest, p.value.value, k - 1, acc + [p.value.value])
  }

  /** Reading one value at the cursor leaves the rest of the stream to be taken. */
  lemma {:induction false} NextTaken<T>(r: Reader<T>, data: Bytes, pos: nat, prev: T, k: nat, acc: seq<T>,
                                        read: Option<(T, nat)>)
    requires k > 0 && pos <= |data| && AtCursor(data, read, r(data[pos..], prev))
    ensures read.None? ==> TakeStream(r, data[pos..], prev, k, acc).None?
    ensures read.Some? ==>
              TakeStream(r, data[read.value.1..], read.value.0, k - 1, acc + [read.value.0])
              == TakeStream(r, data[pos..], prev, k, acc)
  {
  }

  /** A stream of self-delimiting records is read back whole, whatever follows it. */
  lemma {:induction false} StreamRoundTrip<T(!new)>(w: Writer<T>, r: Reader<T>, ok: T -> bool, prev: T, vs: seq<T>,
                                             acc: seq<T>, rest: Bytes)
    requires SelfDelimiting(w, r, ok) && ok(prev) && forall i :: 0 <= i < |vs| ==> ok(vs[i])
    ensures TakeStream(r, StreamBytes(w, prev, vs) + rest, prev, |vs|, acc) == Some(Parsed(acc + vs, rest))
    decreases |vs|
  {
    if vs == [] {
      assert acc + vs == acc && StreamBytes(w, prev, vs) + rest == rest;
    } else {
      var tail := StreamBytes(w, vs[0], vs[1..]) + rest;
      assert StreamBytes(w, prev, vs) + rest == w(vs[0], prev) + tail;
      StreamRoundTrip(w, r, ok, vs[0], vs[1..], acc + [vs[0]], rest);
      assert acc + [vs[0]] + vs[1..] == acc + vs;
    }
  }

  /** Writing the value at `i` moves its record from the stream to the output. */
  lemma NextRecord<T>(w: Writer<T>, out: Bytes, prev: T, vs: seq<T>, i: nat)
    requires i < |vs|
    ensures out + StreamBytes(w, prev, vs[i..]) == out + w(vs[i], prev) + StreamBytes(w, vs[i], vs[i + 1..])
  {
    assert vs[i..][1..] == vs[i + 1..];
  }
}
