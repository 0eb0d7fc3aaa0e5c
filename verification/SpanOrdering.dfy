/** The display order of a trace's spans: parents first, cyclic parent links survived. */
module SpanOrdering {
  import opened Options
  import opened Ordering

  datatype Span = Span(spanId: string, parent: Option<string>, startedAt: int)
  type Index = map<string, Span>

  ghost predicate Keyed(m: Index) {
    forall id :: id in m ==> m[id].spanId == id
  }

  // {span.span_id: span for span in spans}: the last span with an id stays.
  function IndexOf(spans: seq<Span>): (m: Index)
    ensures Keyed(m)
  {
    if spans == [] then map[]
    else
      var last := spans[|spans| - 1];
      IndexOf(spans[..|spans| - 1])[last.spanId := last]
  }

  ghost function All(m: Index): multiset<Span> {
    multiset(m.Values)
  }

  ghost predicate DistinctIds(spans: seq<Span>) {
    forall i, j :: 0 <= i < j < |spans| ==> spans[i].spanId != spans[j].spanId
  }

  lemma {:induction false} DistinctIdsAreAllKept(spans: seq<Span>)
    requires DistinctIds(spans)
    ensures All(IndexOf(spans)) == multiset(spans)
    ensures forall id :: id in IndexOf(spans) ==> exists i :: 0 <= i < |spans| && spans[i].spanId == id
  {
    hide All;
    if spans == [] {
      NoValues();
    } else {
      var front, last := spans[..|spans| - 1], spans[|spans| - 1];
      DistinctIdsAreAllKept(front);
      assert spans == front + [last];
      AddedValue(IndexOf(front), last);
      forall id | id in IndexOf(spans) ensures exists i :: 0 <= i < |spans| && spans[i].spanId == id {
        if id == last.spanId {
          assert spans[|spans| - 1].spanId == id;
        } else {
          var i :| 0 <= i < |front| && front[i].spanId == id;
          assert spans[i].spanId == id;
        }
      }
    }
  }

  lemma NoValues()
    ensures All(map[]) == multiset{}
  {
    var nothing: Index := map[];
    assert nothing.Values == {};
  }

  lemma AddedValue(m: Index, s: Span)
    requires Keyed(m) && s.spanId !in m
    ensures All(m[s.spanId := s]) == All(m) + multiset{s}
  {
    var m' := m[s.spanId := s];
    assert m'.Values == m.Values + {s} by {
      forall v | v in m.Values ensures v in m'.Values {
        var id :| id in m && m[id] == v;
        assert m'[id] == v;
      }
      assert m'[s.spanId] == s;
    }
    assert s !in m.Values;
  }

  lemma RemovedValue(m: Index, id: string)
    requires Keyed(m) && id in m
    ensures Keyed(m - {id}) && All(m) == All(m - {id}) + multiset{m[id]}
  {
    AddedValue(m - {id}, m[id]);
    assert (m - {id})[id := m[id]] == m;
  }

  // ---- Layers ----

  // The parent links lead from id to a span without a listed parent in d steps.
  predicate HasDepth(m: Index, id: string, d: nat)
    decreases d
  {
    && id in m
    && (if m[id].parent == None || m[id].parent.value !in m then d == 0
        else d > 0 && HasDepth(m, m[id].parent.value, d - 1))
  }

  lemma {:induction false} DepthIsUnique(m: Index, id: string, d: nat, e: nat)
    requires HasDepth(m, id, d) && HasDepth(m, id, e)
    ensures d == e
    decreases d
  {
    if d > 0 {
      DepthIsUnique(m, m[id].parent.value, d - 1, e - 1);
    }
  }

  ghost function Layer(m: Index, id: string): Option<nat> {
    if d: nat :| HasDepth(m, id, d) then Some(d) else None
  }

  lemma LayerIsDepth(m: Index, id: string, d: nat)
    requires HasDepth(m, id, d)
    ensures Layer(m, id) == Some(d)
  {
    var e: nat :| HasDepth(m, id, e) && Layer(m, id) == Some(e);
    DepthIsUnique(m, id, d, e);
  }

  ghost function Ancestor(m: Index, id: string, k: nat): Option<string>
    decreases k
  {
    if k == 0 then (if id in m then Some(id) else None)
    else if id in m && m[id].parent.Some? then Ancestor(m, m[id].parent.value, k - 1) else None
  }

  // A span without a layer is one whose chain of parents runs into a cycle.
  lemma {:induction false} ChainsWithoutEnd(m: Index, id: string, k: nat)
    requires id in m && Layer(m, id) == None
    ensures Ancestor(m, id, k).Some? && Ancestor(m, id, k).value in m && Layer(m, Ancestor(m, id, k).value) == None
    decreases k
  {
    if k > 0 {
      assert !HasDepth(m, id, 0);
      var p := m[id].parent.value;
      if Layer(m, p).Some? {
        var d: nat :| HasDepth(m, p, d);
        assert HasDepth(m, id, d + 1);
      }
      ChainsWithoutEnd(m, p, k - 1);
    }
  }

  lemma {:induction false} ChainsWithEnd(m: Index, id: string, d: nat, k: nat)
    requires HasDepth(m, id, d)
    ensures Ancestor(m, id, k).Some? <==> k <= d
    ensures k <= d ==> HasDepth(m, Ancestor(m, id, k).value, d - k)
    decreases k
  {
    if k > 0 {
      if d > 0 {
        ChainsWithEnd(m, m[id].parent.value, d - 1, k - 1);
      } else if m[id].parent.Some? {
        NoAncestorOutside(m, m[id].parent.value, k - 1);
      }
    }
  }

  lemma NoAncestorOutside(m: Index, id: string, k: nat)
    requires id !in m
    ensures Ancestor(m, id, k) == None
  {
  }

  lemma {:induction false} Pigeonhole(names: seq<string>, pool: set<string>)
    requires |names| > |pool| && forall i :: 0 <= i < |names| ==> names[i] in pool
    ensures exists i, j :: 0 <= i < j < |names| && names[i] == names[j]
  {
    var last := names[|names| - 1];
    var front := names[..|names| - 1];
    if i :| 0 <= i < |front| && front[i] == last {
      assert names[i] == names[|names| - 1];
    } else {
      assert forall i :: 0 <= i < |front| ==> front[i] in pool - {last};
      Pigeonhole(front, pool - {last});
      var i, j :| 0 <= i < j < |front| && front[i] == front[j];
      assert names[i] == names[j];
    }
  }

  ghost predicate Repeats(m: Index, id: string, i: nat, j: nat) {
    i < j && Ancestor(m, id, i).Some? && Ancestor(m, id, i) == Ancestor(m, id, j)
  }

  // Layers are exactly for spans whose ancestors do not repeat.
  lemma NoLayerIffCycle(m: Index, id: string)
    requires id in m
    ensures Layer(m, id) == None <==> exists i, j :: Repeats(m, id, i, j)
  {
    if Layer(m, id) == None {
      var names := seq(|m| + 1, k requires 0 <= k => if Ancestor(m, id, k).Some? then Ancestor(m, id, k).value else "");
      forall k | 0 <= k < |names| ensures Ancestor(m, id, k) == Some(names[k]) && names[k] in m.Keys {
        ChainsWithoutEnd(m, id, k);
      }
      assert |m.Keys| == |m|;
      Pigeonhole(names, m.Keys);
      var i, j :| 0 <= i < j < |names| && names[i] == names[j];
      assert Repeats(m, id, i, j);
    } else {
      var d: nat :| HasDepth(m, id, d);
      forall i: nat, j: nat ensures !Repeats(m, id, i, j) {
        ChainsWithEnd(m, id, d, i);
        ChainsWithEnd(m, id, d, j);
        if Repeats(m, id, i, j) {
          DepthIsUnique(m, Ancestor(m, id, i).value, d - i, d - j);
        }
      }
    }
  }

  // ---- The order ----

  predicate StartsBefore(a: Span, b: Span) {
    a.startedAt < b.startedAt || (a.startedAt == b.startedAt && LexLeq(a.spanId, b.spanId))
  }

  lemma StartOrder()
    ensures Total(StartsBefore) && Transitive(StartsBefore)
  {
    forall a, b ensures StartsBefore(a, b) || StartsBefore(b, a) {
      LexTotal(a.spanId, b.spanId);
    }
    forall a, b, c | StartsBefore(a, b) && StartsBefore(b, c) ensures StartsBefore(a, c) {
      if a.startedAt == b.startedAt == c.startedAt {
        LexTransitive(a.spanId, b.spanId, c.spanId);
      }
    }
  }

  // Layer by layer, spans without a layer last; within a layer by start and id.
  ghost predicate Precedes(m: Index, a: Span, b: Span) {
    match (Layer(m, a.spanId), Layer(m, b.spanId))
    case (Some(x), Some(y)) => x < y || (x == y && StartsBefore(a, b))
    case (Some(_), None) => true
    case (None, Some(_)) => false
    case (None, None) => StartsBefore(a, b)
  }

  ghost predicate Ordered(m: Index, spans: seq<Span>) {
    forall i, j :: 0 <= i < j < |spans| ==> Precedes(m, spans[i], spans[j])
  }

  ghost predicate Displays(m: Index, ordered: seq<Span>) {
    multiset(ordered) == All(m) && Ordered(m, ordered)
  }

  lemma SameFirst(m: Index, a: seq<Span>, b: seq<Span>)
    requires multiset(a) == multiset(b) && Ordered(m, a) && Ordered(m, b) && a != [] && b != []
    ensures a[0].spanId == b[0].spanId && a[0].startedAt == b[0].startedAt
  {
    assert a[0] in multiset(b) && b[0] in multiset(a);
    var i :| 0 <= i < |b| && b[i] == a[0];
    var j :| 0 <= j < |a| && a[j] == b[0];
    if a[0] != b[0] {
      assert Precedes(m, a[0], b[0]) && Precedes(m, b[0], a[0]);
      LexAntisymmetric(a[0].spanId, b[0].spanId);
    }
  }

  lemma WithoutFirst(a: seq<Span>, b: seq<Span>)
    requires a != [] && b != [] && a[0] == b[0] && multiset(a) == multiset(b)
    ensures multiset(a[1..]) == multiset(b[1..])
  {
    assert a == [a[0]] + a[1..] && b == [b[0]] + b[1..];
    assert multiset(a[1..]) == multiset(a) - multiset{a[0]};
    assert multiset(b[1..]) == multiset(b) - multiset{b[0]};
  }

  ghost predicate OnePerId(spans: multiset<Span>) {
    forall s, t :: s in spans && t in spans && s.spanId == t.spanId ==> s == t
  }

  lemma Tails(m: Index, a: seq<Span>)
    requires a != [] && Ordered(m, a) && OnePerId(multiset(a))
    ensures Ordered(m, a[1..]) && OnePerId(multiset(a[1..]))
  {
    assert a == [a[0]] + a[1..];
    assert multiset(a) == multiset{a[0]} + multiset(a[1..]);
  }

  // Nothing is left to chance: there is one such order.
  lemma {:induction false} OneOrder(m: Index, a: seq<Span>, b: seq<Span>)
    requires multiset(a) == multiset(b) && Ordered(m, a) && Ordered(m, b) && OnePerId(multiset(a))
    ensures a == b
  {
    hide Ordered, OnePerId;
    assert |a| == |multiset(a)| == |multiset(b)| == |b|;
    if a != [] {
      SameFirst(m, a, b);
      assert a[0] in multiset(a) && b[0] in multiset(a);
      SameSpan(multiset(a), a[0], b[0]);
      WithoutFirst(a, b);
      Tails(m, a);
      Tails(m, b);
      OneOrder(m, a[1..], b[1..]);
      assert a == [a[0]] + a[1..] && b == [b[0]] + b[1..];
    }
  }

  lemma SameSpan(spans: multiset<Span>, s: Span, t: Span)
    requires OnePerId(spans) && s in spans && t in spans && s.spanId == t.spanId
    ensures s == t
  {
  }

  // So an index of spans is displayed in one way only.
  lemma DisplayIsUnique(m: Index, a: seq<Span>, b: seq<Span>)
    requires Keyed(m) && Displays(m, a) && Displays(m, b)
    ensures a == b
  {
    OneOrder(m, a, b);
  }

  lemma {:induction false} IndexMembers(spans: seq<Span>)
    requires DistinctIds(spans)
    ensures forall s :: s in spans ==> s.spanId in IndexOf(spans) && IndexOf(spans)[s.spanId] == s
    ensures forall id :: id in IndexOf(spans) ==> IndexOf(spans)[id] in spans
  {
    if spans != [] {
      var front, last := spans[..|spans| - 1], spans[|spans| - 1];
      IndexMembers(front);
      assert spans == front + [last];
    }
  }

  lemma SameIndex(a: seq<Span>, b: seq<Span>)
    requires DistinctIds(a) && DistinctIds(b) && multiset(a) == multiset(b)
    ensures IndexOf(a) == IndexOf(b)
  {
    IndexMembers(a);
    IndexMembers(b);
    forall s ensures s in a <==> s in b {
      assert s in a <==> s in multiset(a);
    }
    forall id ensures id in IndexOf(a) <==> id in IndexOf(b) {
      if id in IndexOf(a) {
        assert IndexOf(a)[id] in b && IndexOf(a)[id].spanId == id;
      }
      if id in IndexOf(b) {
        assert IndexOf(b)[id] in a && IndexOf(b)[id].spanId == id;
      }
    }
    forall id | id in IndexOf(a) ensures IndexOf(a)[id] == IndexOf(b)[id] {
      assert IndexOf(a)[id] in b && IndexOf(a)[id].spanId == id;
    }
  }

  // Within a layer, and among the spans on or below a cycle, the earlier start comes first, and of
  // equal starts the lesser id; spans on or below a cycle come last.
  lemma EarlierStartsComeFirst(m: Index, ordered: seq<Span>, i: nat, j: nat)
    requires Displays(m, ordered) && i < j < |ordered|
    ensures
      var a, b := ordered[i], ordered[j];
      Layer(m, a.spanId) == Layer(m, b.spanId) ==>
        a.startedAt < b.startedAt || (a.startedAt == b.startedAt && LexLeq(a.spanId, b.spanId))
    ensures Layer(m, ordered[i].spanId) == None ==> Layer(m, ordered[j].spanId) == None
  {
    assert Precedes(m, ordered[i], ordered[j]);
  }

  // Of several spans with one id the last listed is kept.
  lemma {:induction false} LastListedIsKept(spans: seq<Span>, i: nat)
    requires i < |spans| && forall j :: i < j < |spans| ==> spans[j].spanId != spans[i].spanId
    ensures spans[i].spanId in IndexOf(spans) && IndexOf(spans)[spans[i].spanId] == spans[i]
  {
    if i < |spans| - 1 {
      LastListedIsKept(spans[..|spans| - 1], i);
    }
  }

  // However the distinct spans of a trace are listed, they are displayed in the same order.
  lemma ListingDoesNotMatter(a: seq<Span>, b: seq<Span>, shownA: seq<Span>, shownB: seq<Span>)
    requires DistinctIds(a) && DistinctIds(b) && multiset(a) == multiset(b)
    requires Displays(IndexOf(a), shownA) && Displays(IndexOf(b), shownB)
    ensures shownA == shownB
  {
    SameIndex(a, b);
    DisplayIsUnique(IndexOf(a), shownA, shownB);
  }

  lemma LayersRise(m: Index, ordered: seq<Span>)
    requires Ordered(m, ordered)
    ensures forall i, j ::
        0 <= i < j < |ordered| && Layer(m, ordered[i].spanId).Some? && Layer(m, ordered[j].spanId).Some? ==>
              Layer(m, ordered[i].spanId).value <= Layer(m, ordered[j].spanId).value
  {
  }

  // Every span with a listed parent comes after it, unless its chain of parents is cyclic.
  lemma ParentsComeFirst(m: Index, ordered: seq<Span>, i: nat)
    requires Keyed(m) && Displays(m, ordered) && i < |ordered|
    requires ordered[i].parent.Some? && ordered[i].parent.value in m && Layer(m, ordered[i].spanId).Some?
    ensures exists j :: 0 <= j < i && ordered[j].spanId == ordered[i].parent.value
  {
    var child, p := ordered[i], ordered[i].parent.value;
    assert child in All(m);
    var d: nat :| HasDepth(m, child.spanId, d);
    LayerIsDepth(m, child.spanId, d);
    LayerIsDepth(m, p, d - 1);
    assert m[p] in m.Values;
    assert m[p] in multiset(ordered);
    var j :| 0 <= j < |ordered| && ordered[j] == m[p];
    LayersRise(m, ordered);
  }

  // ---- The loop ----

  predicate IsReady(remaining: Index, s: Span) {
    s.parent == None || s.parent.value !in remaining
  }

  // What is left when the layers below r are out.
  ghost predicate FromLayer(m: Index, remaining: Index, r: nat) {
    && remaining.Keys <= m.Keys && (forall id :: id in remaining ==> remaining[id] == m[id])
    && (forall id :: id in m ==> (id in remaining <==> Layer(m, id) == None || Layer(m, id).value >= r))
  }

  lemma ReadyIsLayer(m: Index, remaining: Index, r: nat, id: string)
    requires FromLayer(m, remaining, r) && id in remaining
    ensures IsReady(remaining, remaining[id]) <==> Layer(m, id) == Some(r)
  {
    if m[id].parent == None || m[id].parent.value !in m {
      LayerIsDepth(m, id, 0);
    } else {
      var p := m[id].parent.value;
      if Layer(m, p).Some? {
        var d: nat :| HasDepth(m, p, d);
        LayerIsDepth(m, p, d);
        assert HasDepth(m, id, d + 1);
        LayerIsDepth(m, id, d + 1);
      } else {
        forall d: nat ensures !HasDepth(m, id, d) {
          assert d > 0 ==> !HasDepth(m, p, d - 1);
        }
      }
    }
  }

  // Without a ready span, none of the spans left has a layer.
  lemma StuckMeansCyclic(m: Index, remaining: Index, r: nat, id: string)
    requires FromLayer(m, remaining, r) && id in remaining
    requires forall i :: i in remaining ==> !IsReady(remaining, remaining[i])
    ensures Layer(m, id) == None
  {
    if Layer(m, id).Some? {
      var d: nat :| HasDepth(m, id, d);
      LayerIsDepth(m, id, d);
      ChainsWithEnd(m, id, d, d - r);
      var a := Ancestor(m, id, d - r).value;
      LayerIsDepth(m, a, r);
      ReadyIsLayer(m, remaining, r, a);
    }
  }

  // The spans of `rest` that the list comprehension takes.
  function Chosen(remaining: Index, rest: Index, all: bool): Index {
    map id | id in rest && (all || IsReady(remaining, rest[id])) :: rest[id]
  }

  lemma ChosenOne(remaining: Index, rest: Index, all: bool, id: string)
    requires Keyed(rest) && id in rest
    ensures Keyed(rest - {id})
    ensures
      All(Chosen(remaining, rest, all))
      == All(Chosen(remaining, rest - {id}, all))
         + if all || IsReady(remaining, rest[id]) then multiset{rest[id]} else multiset{}
  {
    var some, fewer := Chosen(remaining, rest, all), Chosen(remaining, rest - {id}, all);
    if all || IsReady(remaining, rest[id]) {
      assert fewer == some - {id};
      RemovedValue(some, id);
    } else {
      assert fewer == some;
    }
  }

  // The list comprehension over remaining.values(), in any order.
  method Select(remaining: Index, all: bool) returns (ready: seq<Span>)
    requires Keyed(remaining)
    ensures multiset(ready) == All(Chosen(remaining, remaining, all))
  {
    hide All, Chosen;
    ready := [];
    var rest := remaining;
    while rest != map[]
      invariant Keyed(rest)
      invariant multiset(ready) + All(Chosen(remaining, rest, all)) == All(Chosen(remaining, remaining, all))
      decreases |rest|
    {
      assert rest.Keys != {};
      var id :| id in rest;
      ChosenOne(remaining, rest, all, id);
      Fewer(rest, id);
      if all || IsReady(remaining, rest[id]) {
        ready := ready + [rest[id]];
      }
      rest := rest - {id};
    }
    NoneChosen(remaining, all);
  }

  lemma NoneChosen(remaining: Index, all: bool)
    ensures All(Chosen(remaining, map[], all)) == multiset{}
  {
    assert Chosen(remaining, map[], all).Keys == {};
  }

  lemma Fewer(rest: Index, id: string)
    requires id in rest
    ensures |rest - {id}| < |rest|
  {
    assert (rest - {id}).Keys == rest.Keys - {id};
    assert |rest.Keys - {id}| < |rest.Keys|;
  }

  // ordered.append and remaining.pop for each span of a layer.
  method TakeOut(remaining: Index, ordered: seq<Span>, ready: seq<Span>) returns (left: Index, longer: seq<Span>)
    requires Keyed(remaining) && multiset(ready) <= All(remaining)
    ensures Keyed(left) && All(left) + multiset(ready) == All(remaining) && longer == ordered + ready
    ensures left.Keys <= remaining.Keys && forall id :: id in left ==> left[id] == remaining[id]
  {
    hide All;
    left, longer := remaining, ordered;
    var i := 0;
    while i < |ready|
      invariant 0 <= i <= |ready| && Keyed(left)
      invariant All(left) + multiset(ready[..i]) == All(remaining) && longer == ordered + ready[..i]
      invariant left.Keys <= remaining.Keys && forall id :: id in left ==> left[id] == remaining[id]
    {
      Present(left, remaining, ready, i);
      RemovedValue(left, ready[i].spanId);
      assert ready[..i + 1] == ready[..i] + [ready[i]];
      longer := longer + [ready[i]];
      left := left - {ready[i].spanId};
      i := i + 1;
    }
    assert ready[..i] == ready;
  }

  lemma Present(left: Index, remaining: Index, ready: seq<Span>, i: nat)
    requires Keyed(left) && multiset(ready) <= All(remaining) && i < |ready|
    requires All(left) + multiset(ready[..i]) == All(remaining)
    ensures ready[i].spanId in left && left[ready[i].spanId] == ready[i]
  {
    assert ready == ready[..i] + [ready[i]] + ready[i + 1..];
    assert multiset(ready)[ready[i]] >= multiset(ready[..i])[ready[i]] + 1;
    assert ready[i] in All(left);
    var id :| id in left && left[id] == ready[i];
  }

  // ---- The method ----

  // A round: what is left of the layers from r on, and the ordered spans below.
  ghost predicate Progress(m: Index, remaining: Index, ordered: seq<Span>, r: nat) {
    && Keyed(remaining) && FromLayer(m, remaining, r)
    && multiset(ordered) + All(remaining) == All(m) && Ordered(m, ordered)
  }

  lemma Below(m: Index, remaining: Index, ordered: seq<Span>, r: nat, s: Span)
    requires Keyed(m) && Progress(m, remaining, ordered, r) && s in ordered
    ensures Layer(m, s.spanId).Some? && Layer(m, s.spanId).value < r
  {
    assert multiset(ordered)[s] >= 1;
    Counted(m, s);
    Counted(remaining, s);
    assert s.spanId !in remaining;
  }

  lemma Counted(m: Index, s: Span)
    requires Keyed(m)
    ensures All(m)[s] == if s.spanId in m && m[s.spanId] == s then 1 else 0
  {
    if s.spanId in m && m[s.spanId] == s {
      assert s in m.Values;
    }
  }

  lemma ChosenMembers(remaining: Index, all: bool, s: Span)
    requires Keyed(remaining)
    ensures s in All(Chosen(remaining, remaining, all))
        <==> s.spanId in remaining && remaining[s.spanId] == s && (all || IsReady(remaining, s))
    ensures All(remaining)[s] == if s.spanId in remaining && remaining[s.spanId] == s then 1 else 0
  {
    Counted(remaining, s);
    Counted(Chosen(remaining, remaining, all), s);
  }

  // Which ids a round leaves.
  lemma LeftIds(remaining: Index, left: Index, batch: multiset<Span>, id: string)
    requires Keyed(remaining) && Keyed(left) && All(left) + batch == All(remaining)
    requires left.Keys <= remaining.Keys && (forall i :: i in left ==> left[i] == remaining[i]) && id in remaining
    ensures id in left <==> remaining[id] !in batch
  {
    ChosenMembers(remaining, true, remaining[id]);
    ChosenMembers(left, true, remaining[id]);
  }

  lemma NextLayer(m: Index, remaining: Index, r: nat, batch: multiset<Span>, left: Index)
    requires Keyed(m) && Keyed(remaining) && FromLayer(m, remaining, r) &&
        batch == All(Chosen(remaining, remaining, false))
    requires Keyed(left) && All(left) + batch == All(remaining)
    requires left.Keys <= remaining.Keys && (forall i :: i in left ==> left[i] == remaining[i])
    ensures FromLayer(m, left, r + 1)
  {
    forall id | id in remaining ensures id in left <==> Layer(m, id) != Some(r) {
      LeftIds(remaining, left, batch, id);
      ChosenMembers(remaining, false, remaining[id]);
      ReadyIsLayer(m, remaining, r, id);
    }
  }

  // A sorted batch goes to the end when all its spans are in one layer above those before.
  lemma OrderedBatch(m: Index, ordered: seq<Span>, batch: seq<Span>, layer: Option<nat>)
    requires Ordered(m, ordered) && SortedBy(batch, StartsBefore)
    requires forall s :: s in batch ==> Layer(m, s.spanId) == layer
    requires forall s :: s in ordered ==>
        Layer(m, s.spanId).Some? && (layer.Some? ==> Layer(m, s.spanId).value < layer.value)
    ensures Ordered(m, ordered + batch)
  {
  }

  lemma RoundKeepsOrder(m: Index, remaining: Index, ordered: seq<Span>, r: nat, batch: seq<Span>, layer: Option<nat>)
    requires Keyed(m) && Progress(m, remaining, ordered, r) && SortedBy(batch, StartsBefore)
    requires layer == None || layer == Some(r)
    requires forall s :: s in batch ==> Layer(m, s.spanId) == layer
    ensures Ordered(m, ordered + batch)
  {
    forall s | s in ordered ensures Layer(m, s.spanId).Some? && Layer(m, s.spanId).value < r {
      Below(m, remaining, ordered, r, s);
    }
    OrderedBatch(m, ordered, batch, layer);
  }

  lemma LayerTaken(m: Index, remaining: Index, ordered: seq<Span>, r: nat, batch: seq<Span>, left: Index)
    requires Keyed(m) && Progress(m, remaining, ordered, r)
    requires multiset(batch) == All(Chosen(remaining, remaining, false)) && SortedBy(batch, StartsBefore)
    requires Keyed(left) && All(left) + multiset(batch) == All(remaining)
    requires left.Keys <= remaining.Keys && (forall i :: i in left ==> left[i] == remaining[i])
    ensures Progress(m, left, ordered + batch, r + 1)
  {
    hide All, Chosen, Ordered, SortedBy;
    NextLayer(m, remaining, r, multiset(batch), left);
    forall s | s in batch ensures Layer(m, s.spanId) == Some(r) {
      assert s in multiset(batch);
      ChosenMembers(remaining, false, s);
      ReadyIsLayer(m, remaining, r, s.spanId);
    }
    RoundKeepsOrder(m, remaining, ordered, r, batch, Some(r));
  }

  lemma RestTaken(m: Index, remaining: Index, ordered: seq<Span>, r: nat, batch: seq<Span>)
    requires Keyed(m) && Progress(m, remaining, ordered, r)
    requires All(Chosen(remaining, remaining, false)) == multiset{}
    requires multiset(batch) == All(Chosen(remaining, remaining, true)) && SortedBy(batch, StartsBefore)
    ensures Displays(m, ordered + batch)
  {
    hide All, Chosen, Ordered, SortedBy, Layer, Keyed, IsReady;
    ProgressParts(m, remaining, ordered, r);
    forall i | i in remaining ensures !IsReady(remaining, remaining[i]) {
      NotChosen(remaining, i);
    }
    forall id | id in remaining ensures Layer(m, id) == None {
      StuckMeansCyclic(m, remaining, r, id);
    }
    forall s | s in batch ensures Layer(m, s.spanId) == None {
      assert s in multiset(batch);
      ChosenMembers(remaining, true, s);
    }
    RoundKeepsOrder(m, remaining, ordered, r, batch, None);
    AllChosen(remaining);
  }

  lemma NotChosen(remaining: Index, id: string)
    requires Keyed(remaining) && id in remaining && All(Chosen(remaining, remaining, false)) == multiset{}
    ensures !IsReady(remaining, remaining[id])
  {
    ChosenMembers(remaining, false, remaining[id]);
  }

  lemma AllChosen(remaining: Index)
    ensures Chosen(remaining, remaining, true) == remaining
  {
  }

  // _order_spans_for_display
  method OrderForDisplay(spans: seq<Span>) returns (ordered: seq<Span>)
    ensures Displays(IndexOf(spans), ordered)
  {
    hide Progress, Displays, All, Chosen, Keyed, SortedBy, Layer;
    var remaining := IndexOf(spans);
    ghost var m, r := remaining, 0;
    ordered := [];
    ProgressStarts(m);
    StartOrder();
    while remaining != map[]
      invariant Progress(m, remaining, ordered, r) || (remaining == map[] && Displays(m, ordered))
      decreases |remaining|
    {
      ProgressParts(m, remaining, ordered, r);
      var ready := Select(remaining, false);
      ghost var stuck := ready == [];
      if ready == [] {
        ready := Select(remaining, true);
      }
      var batch := Sort(ready, StartsBefore);
      SortSorts(ready, StartsBefore);
      ChosenIsPart(remaining, stuck);
      var left, longer := TakeOut(remaining, ordered, batch);
      if stuck {
        RestTaken(m, remaining, ordered, r, batch);
        NothingLeft(remaining, left, batch);
      } else {
        LayerTaken(m, remaining, ordered, r, batch, left);
        LessLeft(remaining, left, batch);
      }
      remaining, ordered, r := left, longer, r + 1;
    }
    ProgressEnds(m, ordered, r);
  }

  lemma ProgressStarts(m: Index)
    requires Keyed(m)
    ensures Progress(m, m, [], 0)
  {
  }

  lemma ProgressParts(m: Index, remaining: Index, ordered: seq<Span>, r: nat)
    requires Progress(m, remaining, ordered, r)
    ensures Keyed(remaining)
  {
  }

  lemma ProgressEnds(m: Index, ordered: seq<Span>, r: nat)
    ensures Progress(m, map[], ordered, r) ==> Displays(m, ordered)
  {
    var nothing: Index := map[];
    assert nothing.Values == {};
  }

  lemma ChosenIsPart(remaining: Index, all: bool)
    requires Keyed(remaining)
    ensures All(Chosen(remaining, remaining, all)) <= All(remaining)
  {
    forall s ensures All(Chosen(remaining, remaining, all))[s] <= All(remaining)[s] {
      ChosenMembers(remaining, all, s);
    }
  }

  lemma NothingLeft(remaining: Index, left: Index, batch: seq<Span>)
    requires Keyed(remaining) && multiset(batch) == All(Chosen(remaining, remaining, true)) &&
        All(left) + multiset(batch) == All(remaining)
    ensures left == map[]
  {
    assert Chosen(remaining, remaining, true) == remaining;
    NonEmpty(left);
  }

  lemma NonEmpty(m: Index)
    ensures m != map[] ==> All(m) != multiset{}
  {
    if m != map[] {
      assert m.Keys != {};
      var id :| id in m;
      assert m[id] in m.Values;
      assert m[id] in All(m);
    }
  }

  lemma LessLeft(remaining: Index, left: Index, batch: seq<Span>)
    requires Keyed(remaining) && Keyed(left) && All(left) + multiset(batch) == All(remaining) && batch != []
    requires left.Keys <= remaining.Keys && (forall i :: i in left ==> left[i] == remaining[i])
    ensures |left| < |remaining|
  {
    assert batch[0] in multiset(batch);
    Counted(remaining, batch[0]);
    Counted(left, batch[0]);
    assert batch[0].spanId !in left;
    assert left.Keys < remaining.Keys;
    StrictlyFewer(left.Keys, remaining.Keys);
  }

  lemma StrictlyFewer(a: set<string>, b: set<string>)
    requires a < b
    ensures |a| < |b|
  {
    assert b == a + (b - a);
  }
}
