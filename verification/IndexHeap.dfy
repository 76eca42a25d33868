/** The indexed binary min-heap with decrease-key behind the route search. */
module IndexHeaps {

  datatype PqItem = PqItem(node: string, dist: real)

  predicate IsChild(p: nat, c: nat) { c == 2 * p + 1 || c == 2 * p + 2 }

  /** The heap order: no item is below its parent. */
  ghost predicate HeapOrdered(items: seq<PqItem>)
  {
    forall p: nat, c: nat :: c < |items| && IsChild(p, c) ==> items[p].dist <= items[c].dist
  }

  /** Heap order everywhere except between `hole` and its parent, whose other descendants fit below the grandparent. */
  ghost predicate OrderedExceptUp(items: seq<PqItem>, hole: nat)
  {
    && (forall p: nat, c: nat :: c < |items| && IsChild(p, c) && c != hole ==> items[p].dist <= items[c].dist)
    && (forall g: nat, c: nat :: c < |items| && IsChild(g, hole) && IsChild(hole, c) ==> items[g].dist <= items[c].dist)
  }

  /** Heap order everywhere except between `hole` and its children, which fit below its parent. */
  ghost predicate OrderedExceptDown(items: seq<PqItem>, hole: nat)
  {
    && (forall p: nat, c: nat :: c < |items| && IsChild(p, c) && p != hole ==> items[p].dist <= items[c].dist)
    && (forall g: nat, c: nat :: c < |items| && IsChild(g, hole) && IsChild(hole, c) ==> items[g].dist <= items[c].dist)
  }

  /** `pos` is the exact inverse of `items`: every item is indexed, every index points at its item. */
  ghost predicate Indexed(items: seq<PqItem>, pos: map<string, nat>)
  {
    && (forall i :: 0 <= i < |items| ==> items[i].node in pos && pos[items[i].node] == i)
    && (forall n :: n in pos ==> pos[n] < |items| && items[pos[n]].node == n)
  }

  /** What the heap holds: the distance of every queued node. */
  ghost function Contents(items: seq<PqItem>, pos: map<string, nat>): map<string, real>
    requires Indexed(items, pos)
  {
    map n | n in pos :: items[pos[n]].dist
  }

  /** The root of an ordered heap is a minimum. */
  lemma {:induction false} RootIsLeast(items: seq<PqItem>, i: nat)
    requires HeapOrdered(items) && i < |items|
    ensures items[0].dist <= items[i].dist
  {
    if i == 0 {
    } else {
      var p := (i - 1) / 2;
      assert IsChild(p, i);
      RootIsLeast(items, p);
    }
  }

  /** The item at `i` is no farther than its children. */
  predicate BelowChildren(items: seq<PqItem>, i: nat, d: real)
  {
    (2 * i + 1 < |items| ==> d <= items[2 * i + 1].dist) && (2 * i + 2 < |items| ==> d <= items[2 * i + 2].dist)
  }

  lemma SettledDown(items: seq<PqItem>, i: nat)
    requires OrderedExceptDown(items, i) && (i < |items| ==> BelowChildren(items, i, items[i].dist))
    ensures HeapOrdered(items)
  {
    forall p: nat, c: nat | c < |items| && IsChild(p, c) ensures items[p].dist <= items[c].dist {
      if p == i { assert c == 2 * i + 1 || c == 2 * i + 2; }
    }
  }

  /** Sinking the hole's item below its least child moves the hole there. */
  lemma SinkStep(items: seq<PqItem>, i: nat, s: nat)
    requires OrderedExceptDown(items, i) && IsChild(i, s) && s < |items|
    requires items[s].dist <= items[i].dist && BelowChildren(items, i, items[s].dist)
    ensures OrderedExceptDown(items[i := items[s]][s := items[i]], s)
  {
  }

  lemma Settled(items: seq<PqItem>, i: nat)
    requires OrderedExceptUp(items, i)
    requires 0 < i < |items| ==> items[(i - 1) / 2].dist <= items[i].dist
    ensures HeapOrdered(items)
  {
    forall p: nat, c: nat | c < |items| && IsChild(p, c) ensures items[p].dist <= items[c].dist {
      if c == i { assert p == (i - 1) / 2; }
    }
  }

  /** Lifting the hole's item above its parent moves the hole there. */
  lemma LiftStep(items: seq<PqItem>, p: nat, i: nat)
    requires OrderedExceptUp(items, i) && IsChild(p, i) && i < |items|
    requires items[i].dist <= items[p].dist
    ensures OrderedExceptUp(items[i := items[p]][p := items[i]], p)
  {
  }

  // ---------- what each change does to the index ----------

  lemma Pushed(items: seq<PqItem>, pos: map<string, nat>, it: PqItem)
    requires Indexed(items, pos) && it.node !in pos && HeapOrdered(items)
    ensures var more, next := items + [it], pos[it.node := |items|];
            && Indexed(more, next) && Contents(more, next) == Contents(items, pos)[it.node := it.dist]
            && OrderedExceptUp(more, |items|)
  {
  }

  lemma Swapped(items: seq<PqItem>, pos: map<string, nat>, i: nat, j: nat)
    requires Indexed(items, pos) && i < |items| && j < |items|
    ensures var turned, next := items[i := items[j]][j := items[i]], pos[items[j].node := i][items[i].node := j];
            Indexed(turned, next) && Contents(turned, next) == Contents(items, pos)
  {
  }

  lemma Dropped(items: seq<PqItem>, pos: map<string, nat>)
    requires Indexed(items, pos) && |items| > 0
    ensures var n := |items| - 1;
            var fewer, next := items[..n], pos - {items[n].node};
            Indexed(fewer, next) && Contents(fewer, next) == Contents(items, pos) - {items[n].node}
  {
  }

  lemma Lowered(items: seq<PqItem>, pos: map<string, nat>, i: nat, d: real)
    requires Indexed(items, pos) && HeapOrdered(items) && i < |items| && d <= items[i].dist
    ensures var next := items[i := items[i].(dist := d)];
            && Indexed(next, pos) && Contents(next, pos) == Contents(items, pos)[items[i].node := d]
            && OrderedExceptUp(next, i)
  {
  }

  /** Once the last item has taken the root's place only the root may be out of order. */
  lemma RootReplaced(items: seq<PqItem>)
    requires HeapOrdered(items) && |items| > 0
    ensures var n := |items| - 1; OrderedExceptDown(items[0 := items[n]][n := items[0]][..n], 0)
  {
  }

  lemma RootIsMinimum(items: seq<PqItem>, pos: map<string, nat>)
    requires Indexed(items, pos) && HeapOrdered(items) && |items| > 0
    ensures forall k :: k in Contents(items, pos) ==> items[0].dist <= Contents(items, pos)[k]
  {
    forall k | k in pos ensures items[0].dist <= items[pos[k]].dist { RootIsLeast(items, pos[k]); }
  }

  class IndexHeap {
    var items: seq<PqItem>
    var pos: map<string, nat>
    ghost var queue: map<string, real>  // the queued nodes and their distances

    ghost predicate Consistent()
      reads this
    {
      Indexed(items, pos) && queue == Contents(items, pos)
    }

    ghost predicate Valid()
      reads this
    {
      Consistent() && HeapOrdered(items)
    }

    constructor ()
      ensures Valid() && queue == map[] && items == []
    {
      items, pos, queue := [], map[], map[];
    }

    predicate Contains(node: string)
      reads this
    {
      node in pos
    }

    method Push(it: PqItem)
      requires Valid() && it.node !in queue
      modifies this
      ensures Valid() && queue == old(queue)[it.node := it.dist]
      ensures |items| == old(|items|) + 1
    {
      Pushed(items, pos, it);
      items := items + [it];
      pos := pos[it.node := |items| - 1];
      queue := queue[it.node := it.dist];
      BubbleUp(|items| - 1);
    }

    method Pop() returns (it: PqItem)
      requires Valid() && |items| > 0
      modifies this
      ensures Valid()
      ensures it.node in old(queue) && it.dist == old(queue)[it.node]
      ensures forall n :: n in old(queue) ==> it.dist <= old(queue)[n]
      ensures queue == old(queue) - {it.node}
      ensures |items| == old(|items|) - 1
    {
      RootIsMinimum(items, pos);
      RootReplaced(items);
      var n := |items| - 1;
      Swap(0, n);
      it := RemoveLast();
      BubbleDown(0);
    }

    method RemoveLast() returns (it: PqItem)
      requires Consistent() && |items| > 0
      modifies this
      ensures Consistent() && items == old(items)[..|old(items)| - 1] && it == old(items)[|old(items)| - 1]
      ensures it.node in old(queue) && queue == old(queue) - {it.node} && it.dist == old(queue)[it.node]
    {
      var n := |items| - 1;
      Dropped(items, pos);
      pos := pos - {items[n].node};
      it := items[n];
      items := items[..n];
      queue := queue - {it.node};
    }

    method Update(node: string, dist: real)
      requires Valid()
      requires node in queue ==> dist <= queue[node]
      modifies this
      ensures Valid()
      ensures queue == if node in old(queue) then old(queue)[node := dist] else old(queue)
      ensures |items| == old(|items|)
    {
      if node !in pos { return; }
      var idx := pos[node];
      Lowered(items, pos, idx, dist);
      items := items[idx := items[idx].(dist := dist)];
      queue := queue[node := dist];
      BubbleUp(idx);
    }

    method Swap(i: nat, j: nat)
      requires Consistent() && i < |items| && j < |items|
      modifies this
      ensures Consistent() && queue == old(queue)
      ensures items == old(items)[i := old(items)[j]][j := old(items)[i]]
    {
      Swapped(items, pos, i, j);
      items := items[i := items[j]][j := items[i]];
      pos := pos[items[i].node := i];
      pos := pos[items[j].node := j];
    }

    method BubbleUp(start: nat)
      requires Consistent() && start < |items| && OrderedExceptUp(items, start)
      modifies this
      ensures Valid() && queue == old(queue) && |items| == old(|items|)
    {
      var i: nat := start;
      while i > 0
        invariant 0 <= i < |items| == old(|items|)
        invariant Consistent() && queue == old(queue)
        invariant OrderedExceptUp(items, i)
      {
        var p := (i - 1) / 2;
        if items[i].dist >= items[p].dist { break; }
        LiftStep(items, p, i);
        Swap(i, p);
        i := p;
      }
      Settled(items, i);
    }

    method BubbleDown(start: nat)
      requires Consistent() && OrderedExceptDown(items, start)
      modifies this
      ensures Valid() && queue == old(queue) && |items| == old(|items|)
    {
      var n := |items|;
      var i := start;
      while true
        invariant |items| == n
        invariant Consistent() && queue == old(queue)
        invariant OrderedExceptDown(items, i)
        decreases n - i
      {
        var l, r := 2 * i + 1, 2 * i + 2;
        var smallest := i;
        if l < n && items[l].dist < items[smallest].dist { smallest := l; }
        if r < n && items[r].dist < items[smallest].dist { smallest := r; }
        if smallest == i {
          SettledDown(items, i);
          break;
        }
        SinkStep(items, i, smallest);
        Swap(i, smallest);
        i := smallest;
      }
    }
  }
}
