/** The indexed min-heap of bucket expiries: a binary heap kept in a list, and the
    position of every key in it. */
module ExpiryHeap {
  import opened Options
  import opened Ordering

  // Scope names in the order in which Python compares the strings.
  datatype Scope = Ip | Pair | Username

  function ScopeRank(s: Scope): nat {
    match s
    case Ip => 0
    case Pair => 1
    case Username => 2
  }

  function ScopeName(s: Scope): string {
    match s
    case Ip => "ip"
    case Pair => "pair"
    case Username => "username"
  }

  lemma ScopesInNameOrder(a: Scope, b: Scope)
    ensures ScopeRank(a) <= ScopeRank(b) <==> LexLeq(ScopeName(a), ScopeName(b))
    ensures ScopeRank(a) == ScopeRank(b) ==> a == b
  {
    assert "ip"[0] == 'i' && "pair"[0] == 'p' && "username"[0] == 'u';
    LexTotal(ScopeName(a), ScopeName(b));
  }

  datatype BucketKey = BucketKey(scope: Scope, bucket: string)

  datatype Entry = Entry(expiresAt: real, key: BucketKey)

  predicate KeyLeq(a: BucketKey, b: BucketKey) {
    ScopeRank(a.scope) < ScopeRank(b.scope)
    || (a.scope == b.scope && LexLeq(a.bucket, b.bucket))
  }

  // Tuple comparison on (expires_at, (scope, bucket)).
  predicate Leq(a: Entry, b: Entry) {
    a.expiresAt < b.expiresAt || (a.expiresAt == b.expiresAt && KeyLeq(a.key, b.key))
  }

  lemma LeqTotal(a: Entry, b: Entry)
    ensures Leq(a, b) || Leq(b, a)
  {
    LexTotal(a.key.bucket, b.key.bucket);
  }

  lemma LeqTransitive(a: Entry, b: Entry, c: Entry)
    requires Leq(a, b) && Leq(b, c)
    ensures Leq(a, c)
  {
    if a.key.scope == b.key.scope == c.key.scope
       && LexLeq(a.key.bucket, b.key.bucket) && LexLeq(b.key.bucket, c.key.bucket) {
      LexTransitive(a.key.bucket, b.key.bucket, c.key.bucket);
    }
  }

  lemma LeqAntisymmetric(a: Entry, b: Entry)
    requires Leq(a, b) && Leq(b, a)
    ensures a == b
  {
    LexAntisymmetric(a.key.bucket, b.key.bucket);
  }

  function Parent(i: nat): nat
    requires i > 0
  {
    (i - 1) / 2
  }

  predicate Less(a: Entry, b: Entry) {
    Leq(a, b) && a != b
  }

  ghost predicate HeapOrdered(h: seq<Entry>) {
    forall i :: 0 < i < |h| ==> Leq(h[Parent(i)], h[i])
  }

  lemma {:induction false} RootIsLeast(h: seq<Entry>, i: nat)
    requires HeapOrdered(h) && i < |h|
    ensures Leq(h[0], h[i])
  {
    if i == 0 {
      LeqTotal(h[0], h[0]);
    } else {
      RootIsLeast(h, Parent(i));
      LeqTransitive(h[0], h[Parent(i)], h[i]);
    }
  }

  // Heap order on every edge but the one above `free`, and across `free`.
  ghost predicate OrderedAbove(h: seq<Entry>, free: nat) {
    && (forall i :: 0 < i < |h| && i != free ==> Leq(h[Parent(i)], h[i]))
    && AcrossOrdered(h, free)
  }

  // Heap order on every edge but the ones below `free`, and across `free`.
  ghost predicate OrderedBelow(h: seq<Entry>, free: nat) {
    && (forall i :: 0 < i < |h| && Parent(i) != free ==> Leq(h[Parent(i)], h[i]))
    && AcrossOrdered(h, free)
  }

  ghost predicate AcrossOrdered(h: seq<Entry>, free: nat) {
    forall i :: 0 < free < i < |h| && Parent(i) == free ==> Leq(h[Parent(free)], h[i])
  }

  lemma ShrinkOrdered(h: seq<Entry>)
    requires HeapOrdered(h) && h != []
    ensures HeapOrdered(h[..|h| - 1])
  {
  }

  lemma EdgeOrdered(h: seq<Entry>, i: nat)
    requires HeapOrdered(h) && 0 < i < |h|
    ensures Leq(h[Parent(i)], h[i])
  {
  }

  lemma HeapAcross(h: seq<Entry>, free: nat)
    requires HeapOrdered(h)
    ensures AcrossOrdered(h, free)
  {
    forall i | 0 < free < i < |h| && Parent(i) == free ensures Leq(h[Parent(free)], h[i]) {
      LeqTransitive(h[Parent(free)], h[free], h[i]);
    }
  }

  lemma PutAbove(h: seq<Entry>, p: nat, e: Entry)
    requires HeapOrdered(h) && p < |h| && Leq(e, h[p])
    ensures OrderedAbove(h[p := e], p)
  {
    HeapAcross(h, p);
    forall i | 0 < i < |h| && Parent(i) == p ensures Leq(e, h[i]) {
      LeqTransitive(e, h[p], h[i]);
    }
  }

  lemma PutBelow(h: seq<Entry>, p: nat, e: Entry)
    requires HeapOrdered(h) && p < |h| && (p > 0 ==> Leq(h[Parent(p)], e))
    ensures OrderedBelow(h[p := e], p)
  {
    HeapAcross(h, p);
  }

  function Exchange(h: seq<Entry>, i: nat, j: nat): seq<Entry>
    requires i < |h| && j < |h|
  {
    h[i := h[j]][j := h[i]]
  }

  lemma UpStep(h: seq<Entry>, p: nat)
    requires 0 < p < |h| && OrderedAbove(h, p) && Leq(h[p], h[Parent(p)])
    ensures OrderedAbove(Exchange(h, Parent(p), p), Parent(p))
  {
    var parent := Parent(p);
    forall i | 0 < i < |h| && Parent(i) == parent && i != p ensures Leq(h[p], h[i]) {
      LeqTransitive(h[p], h[parent], h[i]);
    }
    forall i | 0 < parent < i < |h| && Parent(i) == parent && i != p ensures Leq(h[Parent(parent)], h[i]) {
      LeqTransitive(h[Parent(parent)], h[parent], h[i]);
    }
  }

  lemma DownStep(h: seq<Entry>, p: nat, c: nat)
    requires p < c < |h| && Parent(c) == p && OrderedBelow(h, p) && Leq(h[c], h[p])
    requires forall i :: 0 < i < |h| && Parent(i) == p ==> Leq(h[c], h[i])
    ensures OrderedBelow(Exchange(h, p, c), c)
  {
  }

  ghost predicate PositionsInvert(h: seq<Entry>, positions: map<BucketKey, nat>) {
    && (forall i :: 0 <= i < |h| ==> h[i].key in positions && positions[h[i].key] == i)
    && (forall k :: k in positions ==> positions[k] < |h| && h[positions[k]].key == k)
  }

  ghost function ContentsOf(h: seq<Entry>, positions: map<BucketKey, nat>): map<BucketKey, real>
    requires PositionsInvert(h, positions)
  {
    map k | k in positions :: h[positions[k]].expiresAt
  }

  lemma AppendIndexed(h: seq<Entry>, positions: map<BucketKey, nat>, e: Entry)
    requires PositionsInvert(h, positions) && e.key !in positions
    ensures PositionsInvert(h + [e], positions[e.key := |h|])
    ensures ContentsOf(h + [e], positions[e.key := |h|]) == ContentsOf(h, positions)[e.key := e.expiresAt]
  {
  }

  lemma ReplaceIndexed(h: seq<Entry>, positions: map<BucketKey, nat>, e: Entry)
    requires PositionsInvert(h, positions) && e.key in positions
    ensures PositionsInvert(h[positions[e.key] := e], positions)
    ensures ContentsOf(h[positions[e.key] := e], positions) == ContentsOf(h, positions)[e.key := e.expiresAt]
  {
  }

  lemma KeyIndexed(h: seq<Entry>, positions: map<BucketKey, nat>, key: BucketKey)
    requires PositionsInvert(h, positions) && key in positions
    ensures positions[key] < |h| && h[positions[key]].key == key
  {
  }

  lemma AbsentIndexed(h: seq<Entry>, positions: map<BucketKey, nat>, key: BucketKey)
    requires PositionsInvert(h, positions) && key !in positions
    ensures ContentsOf(h, positions) - {key} == ContentsOf(h, positions)
  {
  }

  lemma RemoveLastIndexed(h: seq<Entry>, positions: map<BucketKey, nat>, key: BucketKey)
    requires PositionsInvert(h, positions) && key in positions && positions[key] == |h| - 1
    ensures PositionsInvert(h[..|h| - 1], positions - {key})
    ensures ContentsOf(h[..|h| - 1], positions - {key}) == ContentsOf(h, positions) - {key}
  {
  }

  // Removing an inner key moves the last entry into its place.
  lemma RemoveInnerIndexed(h: seq<Entry>, positions: map<BucketKey, nat>, key: BucketKey)
    requires PositionsInvert(h, positions) && key in positions && positions[key] < |h| - 1
    ensures
      var p, last := positions[key], h[|h| - 1];
      && PositionsInvert(h[..|h| - 1][p := last], (positions - {key})[last.key := p])
      && ContentsOf(h[..|h| - 1][p := last], (positions - {key})[last.key := p]) == ContentsOf(h, positions) - {key}
  {
    assert h[positions[key]].key == key;
  }

  class IndexedExpiryHeap {
    var heap: seq<Entry>
    var positions: map<BucketKey, nat>

    ghost predicate Indexed()
      reads this
    {
      PositionsInvert(heap, positions)
    }

    ghost predicate Valid()
      reads this
    {
      Indexed() && HeapOrdered(heap)
    }

    // The key-to-expiry map the heap stands for.
    ghost function Contents(): map<BucketKey, real>
      reads this
      requires Indexed()
    {
      ContentsOf(heap, positions)
    }

    constructor ()
      ensures Valid() && Contents() == map[]
    {
      heap := [];
      positions := map[];
    }

    method Set(key: BucketKey, expiresAt: real)
      requires Valid()
      modifies this
      ensures Valid() && Contents() == old(Contents())[key := expiresAt]
    {
      if key !in positions {
        AppendIndexed(heap, positions, Entry(expiresAt, key));
        positions := positions[key := |heap|];
        heap := heap + [Entry(expiresAt, key)];
        SiftUp(|heap| - 1);
        return;
      }
      var position := positions[key];
      var previous := heap[position];
      ReplaceIndexed(heap, positions, Entry(expiresAt, key));
      heap := heap[position := Entry(expiresAt, key)];
      if Less(heap[position], previous) {
        PutAbove(old(heap), position, heap[position]);
        SiftUp(position);
      } else {
        LeqTotal(previous, heap[position]);
        if position > 0 {
          LeqTransitive(heap[Parent(position)], previous, heap[position]);
        }
        PutBelow(old(heap), position, heap[position]);
        SiftDown(position);
      }
    }

    method Remove(key: BucketKey)
      requires Valid()
      modifies this
      ensures Valid() && Contents() == old(Contents()) - {key}
    {
      hide Leq, PositionsInvert, ContentsOf, OrderedAbove, OrderedBelow, HeapOrdered;
      if key !in positions {
        AbsentIndexed(heap, positions, key);
        return;
      }
      KeyIndexed(heap, positions, key);
      ShrinkOrdered(heap);
      var position := positions[key];
      if position == |heap| - 1 {
        RemoveLastIndexed(heap, positions, key);
        heap := heap[..|heap| - 1];
        positions := positions - {key};
        return;
      }
      RemoveInnerIndexed(heap, positions, key);
      var last := heap[|heap| - 1];
      ghost var kept := heap[..|heap| - 1];
      heap := heap[..|heap| - 1][position := last];
      positions := (positions - {key})[last.key := position];
      assert Indexed() && Contents() == old(Contents()) - {key};
      Resift(position, kept);
    }

    // The entry put in the place of a removed one finds its place.
    method Resift(position: nat, ghost kept: seq<Entry>)
      requires Indexed() && HeapOrdered(kept) && position < |kept| == |heap|
      requires heap == kept[position := heap[position]]
      modifies this
      ensures Valid() && Contents() == old(Contents())
    {
      hide Leq, PositionsInvert, ContentsOf, OrderedAbove, OrderedBelow, HeapOrdered;
      var parent := if position > 0 then Parent(position) else 0;
      if position > 0 && Less(heap[position], heap[parent]) {
        EdgeOrdered(kept, position);
        LeqTransitive(heap[position], kept[parent], kept[position]);
        PutAbove(kept, position, heap[position]);
        SiftUp(position);
      } else {
        LeqTotal(heap[position], heap[parent]);
        PutBelow(kept, position, heap[position]);
        SiftDown(position);
      }
    }

    method Peek() returns (least: Option<Entry>)
      requires Valid()
      ensures least.None? <==> Contents() == map[]
      ensures least.Some? ==> IsLeast(least.value)
      // No key expires before it, and of those that expire with it none is less by scope and bucket.
      ensures
        least.Some? ==>
        forall k :: k in Contents() ==>
          var first := least.value;
          || first.expiresAt < Contents()[k]
          || (first.expiresAt == Contents()[k] && first.key.scope == k.scope && LexLeq(first.key.bucket, k.bucket))
          || (first.expiresAt == Contents()[k] && first.key.scope != k.scope &&
                LexLeq(ScopeName(first.key.scope), ScopeName(k.scope)))
    {
      if heap == [] {
        assert positions == map[];
        return None;
      }
      assert heap[0].key in Contents();
      forall k | k in Contents()
        ensures Leq(heap[0], Entry(Contents()[k], k))
        ensures ScopeRank(heap[0].key.scope) < ScopeRank(k.scope) ==>
                  heap[0].key.scope != k.scope && LexLeq(ScopeName(heap[0].key.scope), ScopeName(k.scope))
      {
        RootIsLeast(heap, positions[k]);
        ScopesInNameOrder(heap[0].key.scope, k.scope);
      }
      least := Some(heap[0]);
    }

    // `e` is an entry of the map, and none comes before it.
    ghost predicate IsLeast(e: Entry)
      reads this
      requires Indexed()
    {
      && e.key in Contents() && Contents()[e.key] == e.expiresAt
      && forall k :: k in Contents() ==> Leq(e, Entry(Contents()[k], k))
    }

    // So the entry that leaves first is determined by the map alone.
    lemma LeastIsUnique(e: Entry, f: Entry)
      requires Indexed() && IsLeast(e) && IsLeast(f)
      ensures e == f
    {
      hide Leq, ContentsOf;
      assert Leq(e, Entry(Contents()[f.key], f.key)) && Leq(f, Entry(Contents()[e.key], e.key));
      LeqAntisymmetric(e, f);
    }

    method PopMin() returns (least: Option<Entry>)
      requires Valid()
      modifies this
      ensures Valid()
      ensures least.None? <==> old(Contents()) == map[]
      ensures least.None? ==> Contents() == map[]
      ensures least.Some? ==> old(IsLeast(least.value)) && Contents() == old(Contents()) - {least.value.key}
    {
      least := Peek();
      if least.Some? {
        Remove(least.value.key);
      }
    }

    method SiftUp(start: nat)
      requires Indexed() && start < |heap| && OrderedAbove(heap, start)
      modifies this
      ensures Valid() && Contents() == old(Contents())
    {
      var position := start;
      while position > 0
        invariant 0 <= position < |heap| && Indexed() && OrderedAbove(heap, position)
        invariant Contents() == old(Contents())
      {
        var parent := Parent(position);
        if Leq(heap[parent], heap[position]) {
          break;
        }
        LeqTotal(heap[parent], heap[position]);
        UpStep(heap, position);
        Swap(parent, position);
        position := parent;
      }
    }

    method SiftDown(start: nat)
      requires Indexed() && start < |heap| && OrderedBelow(heap, start)
      modifies this
      ensures Valid() && Contents() == old(Contents())
    {
      var position := start;
      var size := |heap|;
      while true
        invariant 0 <= position < |heap| == size && Indexed() && OrderedBelow(heap, position)
        invariant Contents() == old(Contents())
        decreases size - position
      {
        var left := 2 * position + 1;
        var right := left + 1;
        var smallest := position;
        if left < size && Less(heap[left], heap[smallest]) {
          smallest := left;
        }
        if right < size && Less(heap[right], heap[smallest]) {
          smallest := right;
        }
        ChildrenBounded(heap, position, smallest);
        if smallest == position {
          return;
        }
        DownStep(heap, position, smallest);
        Swap(position, smallest);
        position := smallest;
      }
    }

    method Swap(first: nat, second: nat)
      requires Indexed() && first < |heap| && second < |heap| && first != second
      modifies this
      ensures heap == Exchange(old(heap), first, second)
      ensures Indexed() && Contents() == old(Contents())
    {
      heap := heap[first := heap[second]][second := heap[first]];
      positions := positions[heap[first].key := first];
      positions := positions[heap[second].key := second];
    }
  }

  // The comparisons of one sift-down step leave a least one of a node and its children.
  lemma ChildrenBounded(h: seq<Entry>, p: nat, s: nat)
    requires p < |h|
    requires
      var left, right := 2 * p + 1, 2 * p + 2;
      var s1 := if left < |h| && Less(h[left], h[p]) then left else p;
      s == if right < |h| && Less(h[right], h[s1]) then right else s1
    ensures s < |h| && Leq(h[s], h[p]) && (s != p ==> Parent(s) == p)
    ensures forall i :: 0 < i < |h| && Parent(i) == p ==> Leq(h[s], h[i])
  {
    var left, right := 2 * p + 1, 2 * p + 2;
    LeqTotal(h[p], h[p]);
    if left < |h| {
      LeqTotal(h[left], h[p]);
      LeqTotal(h[left], h[left]);
      if right < |h| {
        var s1 := if Less(h[left], h[p]) then left else p;
        LeqTotal(h[right], h[s1]);
        LeqTotal(h[right], h[right]);
        if s == right {
          LeqTransitive(h[right], h[s1], h[p]);
          LeqTransitive(h[right], h[s1], h[left]);
        }
      }
    }
  }
}
