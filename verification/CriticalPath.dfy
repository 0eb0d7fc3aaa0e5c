/** The critical-path latency that the trace summary reports. */
module CriticalPath {
  import opened Options

  // A listed plan step; malformed entries and empty ids are skipped.
  datatype Entry = Malformed | Entry(stepId: string, dependencies: seq<string>)

  // Millisecond timestamps of a step result, when they parse.
  datatype Timing = Timing(startedAt: Option<real>, finishedAt: Option<real>)

  function StepDuration(t: Timing): (ms: real)
    ensures ms >= 0.0
  {
    match (t.startedAt, t.finishedAt)
    case (Some(started), Some(finished)) => if finished - started > 0.0 then finished - started else 0.0
    case _ => 0.0
  }

  function DurationOf(results: map<string, Timing>, id: string): (ms: real)
    ensures ms >= 0.0
  {
    if id in results then StepDuration(results[id]) else 0.0
  }

  // Both timestamps, in order.
  predicate Timed(t: Timing) {
    t.startedAt.Some? && t.finishedAt.Some? && t.startedAt.value <= t.finishedAt.value
  }

  // The time between the timestamps of a step's result, and none without two in order.
  lemma DurationIsDifference(results: map<string, Timing>, id: string)
    ensures
      id in results && Timed(results[id]) ==>
      DurationOf(results, id) == results[id].finishedAt.value - results[id].startedAt.value
    ensures id !in results || !Timed(results[id]) ==> DurationOf(results, id) == 0.0
  {
  }

  predicate Counted(e: Entry) {
    e.Entry? && e.stepId != ""
  }

  // ---- Dependency chains, as positions in the list ----

  ghost predicate Linked(entries: seq<Entry>, c: seq<nat>) {
    && c != [] && (forall i :: 0 <= i < |c| ==> c[i] < |entries| && Counted(entries[c[i]]))
    && forall i :: 0 <= i < |c| - 1 ==> DependsOn(entries[c[i + 1]], entries[c[i]])
  }

  ghost function Weight(entries: seq<Entry>, results: map<string, Timing>, c: seq<nat>): real
    requires c == [] || Linked(entries, c)
  {
    if c == [] then 0.0
    else
      var n := |c| - 1;
      (if n == 0 then 0.0 else Weight(entries, results, c[..n])) + DurationOf(results, entries[c[n]].stepId)
  }

  // The time that the steps of a chain took, from their timestamps.
  ghost function Elapsed(entries: seq<Entry>, results: map<string, Timing>, c: seq<nat>): real
    requires forall i :: 0 <= i < |c| ==> c[i] < |entries| && entries[c[i]].Entry?
    requires forall i :: 0 <= i < |c| ==> entries[c[i]].stepId in results && Timed(results[entries[c[i]].stepId])
  {
    if c == [] then 0.0
    else
      var t := results[entries[c[0]].stepId];
      assert Timed(t);
      t.finishedAt.value - t.startedAt.value + Elapsed(entries, results, c[1..])
  }

  ghost predicate AllTimed(entries: seq<Entry>, results: map<string, Timing>) {
    forall e :: e in entries && Counted(e) ==> e.stepId in results && Timed(results[e.stepId])
  }

  lemma {:induction false} ElapsedOfMore(entries: seq<Entry>, results: map<string, Timing>, c: seq<nat>, k: nat)
    requires k < |entries| && entries[k].Entry? && entries[k].stepId in results && Timed(results[entries[k].stepId])
    requires forall i :: 0 <= i < |c| ==> c[i] < |entries| && entries[c[i]].Entry?
    requires forall i :: 0 <= i < |c| ==> entries[c[i]].stepId in results && Timed(results[entries[c[i]].stepId])
    ensures
      var t := results[entries[k].stepId];
      Elapsed(entries, results, c + [k])
      == Elapsed(entries, results, c) + (t.finishedAt.value - t.startedAt.value)
  {
    if c == [] {
      assert ([] + [k])[1..] == [];
    } else {
      ElapsedOfMore(entries, results, c[1..], k);
      assert (c + [k])[1..] == c[1..] + [k];
    }
  }

  ghost predicate Took(entries: seq<Entry>, results: map<string, Timing>, c: seq<nat>, time: real) {
    && (forall i :: 0 <= i < |c| ==> c[i] < |entries| && entries[c[i]].Entry?)
    && (forall i :: 0 <= i < |c| ==> entries[c[i]].stepId in results && Timed(results[entries[c[i]].stepId]))
    && Elapsed(entries, results, c) == time
  }

  lemma WeightsAreTimes(entries: seq<Entry>, results: map<string, Timing>)
    ensures AllTimed(entries, results) ==>
              forall c :: Linked(entries, c) ==> Took(entries, results, c, Weight(entries, results, c))
  {
    if AllTimed(entries, results) {
      forall c | Linked(entries, c) ensures Took(entries, results, c, Weight(entries, results, c)) {
        WeightIsElapsed(entries, results, c);
      }
    }
  }

  // Where every listed step has two timestamps in order, a chain weighs the time between them.
  lemma {:induction false} WeightIsElapsed(entries: seq<Entry>, results: map<string, Timing>, c: seq<nat>)
    requires Linked(entries, c) && AllTimed(entries, results)
    ensures forall i :: 0 <= i < |c| ==> entries[c[i]].stepId in results && Timed(results[entries[c[i]].stepId])
    ensures Weight(entries, results, c) == Elapsed(entries, results, c)
    decreases |c|
  {
    forall i | 0 <= i < |c| ensures entries[c[i]].stepId in results && Timed(results[entries[c[i]].stepId]) {
      assert entries[c[i]] in entries;
    }
    var n := |c| - 1;
    DurationIsDifference(results, entries[c[n]].stepId);
    ElapsedOfMore(entries, results, c[..n], c[n]);
    assert c == c[..n] + [c[n]];
    if n > 0 {
      FrontIsLinked(entries, c);
      WeightIsElapsed(entries, results, c[..n]);
    }
  }

  lemma FrontIsLinked(entries: seq<Entry>, c: seq<nat>)
    requires Linked(entries, c) && |c| > 1
    ensures Linked(entries, c[..|c| - 1])
  {
    forall i | 0 <= i < |c| - 2 ensures DependsOn(entries[c[i + 1]], entries[c[i]]) {
    }
  }

  ghost predicate UniqueIds(entries: seq<Entry>) {
    forall i, j :: 0 <= i < j < |entries| && Counted(entries[i]) && Counted(entries[j]) ==>
        entries[i].stepId != entries[j].stepId
  }

  // Every listed dependency of an entry is listed before it.
  ghost predicate DependenciesFirst(entries: seq<Entry>) {
    forall i, j :: 0 <= i < |entries| && 0 <= j < |entries| && DependsOn(entries[i], entries[j]) ==> j < i
  }

  predicate DependsOn(a: Entry, b: Entry) {
    Counted(a) && Counted(b) && b.stepId in a.dependencies
  }

  // A chain whose dependencies are all listed earlier: the only kind the fold can see.
  ghost predicate Increasing(c: seq<nat>) {
    forall i :: 0 <= i < |c| - 1 ==> c[i] < c[i + 1]
  }

  lemma OrderedChainsIncrease(entries: seq<Entry>, c: seq<nat>)
    requires DependenciesFirst(entries) && Linked(entries, c)
    ensures Increasing(c)
  {
    forall i | 0 <= i < |c| - 1 ensures c[i] < c[i + 1] {
      assert DependsOn(entries[c[i + 1]], entries[c[i]]);
    }
  }

  lemma AppendWeight(entries: seq<Entry>, results: map<string, Timing>, c: seq<nat>, k: nat)
    requires k < |entries| && Counted(entries[k])
    requires Linked(entries, c) && DependsOn(entries[k], entries[c[|c| - 1]])
    ensures Linked(entries, c + [k])
    ensures Increasing(c) && c[|c| - 1] < k ==> Increasing(c + [k])
    ensures Weight(entries, results, c + [k]) == Weight(entries, results, c) + DurationOf(results, entries[k].stepId)
  {
    AppendLinked(entries, c, k);
    assert (c + [k])[..|c + [k]| - 1] == c;
  }

  lemma AppendLinked(entries: seq<Entry>, c: seq<nat>, k: nat)
    requires k < |entries| && Counted(entries[k])
    requires Linked(entries, c) && DependsOn(entries[k], entries[c[|c| - 1]])
    ensures Linked(entries, c + [k])
    ensures Increasing(c) && c[|c| - 1] < k ==> Increasing(c + [k])
  {
  }

  // ---- The fold ----

  function Get(cumulative: map<string, real>, id: string): real {
    if id in cumulative then cumulative[id] else 0.0
  }

  function Best(cumulative: map<string, real>, dependencies: seq<string>): real {
    if dependencies == [] then 0.0
    else
      var best, last := Best(cumulative, dependencies[..|dependencies| - 1]), dependencies[|dependencies| - 1];
      if Get(cumulative, last) > best then Get(cumulative, last) else best
  }

  // What the fold holds after the entries: a later entry with the same id takes the place of an
  // earlier one.
  function Fold(entries: seq<Entry>, results: map<string, Timing>): map<string, real> {
    if entries == [] then map[]
    else
      var before, e := Fold(entries[..|entries| - 1], results), entries[|entries| - 1];
      if Counted(e) then before[e.stepId := Best(before, e.dependencies) + DurationOf(results, e.stepId)] else before
  }

  ghost predicate Greatest(values: map<string, real>, latency: real) {
    && (forall id :: id in values ==> values[id] <= latency)
    && (if values == map[] then latency == 0.0 else exists id :: id in values && values[id] == latency)
  }

  // The greatest value of the fold, or without a listed step the longest result.
  ghost predicate IsReport(entries: seq<Entry>, results: map<string, Timing>, latency: real) {
    if Fold(entries, results) != map[] then Greatest(Fold(entries, results), latency)
    else Greatest(map id | id in results :: DurationOf(results, id), latency)
  }

  function Later(t: Option<real>, x: real): Option<real> {
    match t
    case Some(at) => Some(at + x)
    case None => None
  }

  function Shifted(results: map<string, Timing>, x: real): map<string, Timing> {
    map id | id in results :: Timing(Later(results[id].startedAt, x), Later(results[id].finishedAt, x))
  }

  // Malformed entries and those without an id might as well not be listed.
  lemma {:induction false} SkippedEntries(front: seq<Entry>, e: Entry, rest: seq<Entry>, results: map<string, Timing>)
    requires e == Malformed || e.stepId == ""
    ensures Fold(front + [e] + rest, results) == Fold(front + rest, results)
  {
    if rest == [] {
      assert (front + [e] + rest)[..|front|] == front && front + rest == front;
    } else {
      var most := rest[..|rest| - 1];
      SkippedEntries(front, e, most, results);
      assert (front + [e] + rest)[..|front + [e] + rest| - 1] == front + [e] + most;
      assert (front + rest)[..|front + rest| - 1] == front + most;
    }
  }

  lemma SkippedEntriesKeepReport(front: seq<Entry>, e: Entry, rest: seq<Entry>, results: map<string, Timing>,
          latency: real)
    requires e == Malformed || e.stepId == ""
    ensures IsReport(front + [e] + rest, results, latency) <==> IsReport(front + rest, results, latency)
  {
    SkippedEntries(front, e, rest, results);
  }

  // Only differences of timestamps count: moving all of them leaves the report as it is.
  lemma ShiftKeepsReport(entries: seq<Entry>, results: map<string, Timing>, x: real, before: real, after: real)
    requires IsReport(entries, results, before) && IsReport(entries, Shifted(results, x), after)
    ensures before == after
  {
    forall id ensures DurationOf(Shifted(results, x), id) == DurationOf(results, id) {
    }
    SameFold(entries, results, Shifted(results, x));
    assert (map id | id in results :: DurationOf(results, id))
        == (map id | id in Shifted(results, x) :: DurationOf(Shifted(results, x), id));
  }

  lemma {:induction false} SameFold(entries: seq<Entry>, a: map<string, Timing>, b: map<string, Timing>)
    requires forall id :: DurationOf(a, id) == DurationOf(b, id)
    ensures Fold(entries, a) == Fold(entries, b)
  {
    if entries != [] {
      SameFold(entries[..|entries| - 1], a, b);
    }
  }

  method MaxOfDependencies(cumulative: map<string, real>, dependencies: seq<string>) returns (latency: real)
    requires forall id :: id in cumulative ==> cumulative[id] >= 0.0
    ensures latency >= 0.0 &&
        (latency == 0.0 || exists d :: d in dependencies && d in cumulative && cumulative[d] == latency)
    ensures forall d :: d in dependencies && d in cumulative ==> cumulative[d] <= latency
    ensures latency == Best(cumulative, dependencies)
  {
    latency := 0.0;
    for i := 0 to |dependencies|
      invariant latency == Best(cumulative, dependencies[..i])
      invariant latency >= 0.0 &&
          (latency == 0.0 || exists d :: d in dependencies && d in cumulative && cumulative[d] == latency)
      invariant forall j :: 0 <= j < i && dependencies[j] in cumulative ==> cumulative[dependencies[j]] <= latency
    {
      assert dependencies[..i + 1][..i] == dependencies[..i];
      var value := Get(cumulative, dependencies[i]);
      if value > latency {
        latency := value;
      }
    }
    assert dependencies[..|dependencies|] == dependencies;
  }

  method MaxOfValues(values: map<string, real>) returns (latency: real)
    requires forall id :: id in values ==> values[id] >= 0.0
    ensures values == map[] ==> latency == 0.0
    ensures values != map[] ==> exists id :: id in values && values[id] == latency
    ensures forall id :: id in values ==> values[id] <= latency
  {
    latency := 0.0;
    var todo := values.Keys;
    while todo != {}
      invariant todo <= values.Keys
      invariant latency == 0.0 || exists id :: id in values && values[id] == latency
      invariant forall id :: id in values && id !in todo ==> values[id] <= latency
      invariant latency >= 0.0
    {
      var id :| id in todo;
      if values[id] > latency {
        latency := values[id];
      }
      todo := todo - {id};
    }
    if values != map[] {
      var id :| id in values;
      assert values[id] <= latency;
    }
  }

  // The chain that a cumulative latency stands for, within the first k entries.
  ghost predicate Witness(entries: seq<Entry>, results: map<string, Timing>, id: string, latency: real, c: seq<nat>,
          k: nat) {
    && Linked(entries, c) && Increasing(c) && c[|c| - 1] < k
    && entries[c[|c| - 1]].stepId == id && Weight(entries, results, c) == latency
  }

  ghost predicate Witnessed(entries: seq<Entry>, results: map<string, Timing>, cumulative: map<string, real>,
          chains: map<string, seq<nat>>, k: nat) {
    cumulative.Keys == chains.Keys &&
    forall id :: id in cumulative ==>
        cumulative[id] >= 0.0 && Witness(entries, results, id, cumulative[id], chains[id], k)
  }

  // No chain within the first k entries outweighs the latency of its last step.
  ghost predicate Dominates(entries: seq<Entry>, results: map<string, Timing>, cumulative: map<string, real>, k: nat) {
    forall c :: Linked(entries, c) && Increasing(c) && c[|c| - 1] < k ==>
      var id := entries[c[|c| - 1]].stepId;
      id in cumulative && Weight(entries, results, c) <= cumulative[id]
  }

  lemma StepWitness(entries: seq<Entry>, results: map<string, Timing>, cumulative: map<string, real>,
          chains: map<string, seq<nat>>, k: nat, best: real) returns (c: seq<nat>)
    requires Witnessed(entries, results, cumulative, chains, k) && k < |entries| && Counted(entries[k])
    requires best >= 0.0 &&
        (best == 0.0 || exists d :: d in entries[k].dependencies && d in cumulative && cumulative[d] == best)
    ensures Witness(entries, results, entries[k].stepId, best + DurationOf(results, entries[k].stepId), c, k + 1)
  {
    hide Linked, Increasing, Weight, Witness;
    if best == 0.0 {
      c := [k];
      SingleWitness(entries, results, k);
    } else {
      var d :| d in entries[k].dependencies && d in cumulative && cumulative[d] == best;
      c := chains[d] + [k];
      ExtendWitness(entries, results, d, best, chains[d], k);
    }
  }

  lemma SingleWitness(entries: seq<Entry>, results: map<string, Timing>, k: nat)
    requires k < |entries| && Counted(entries[k])
    ensures Witness(entries, results, entries[k].stepId, 0.0 + DurationOf(results, entries[k].stepId), [k], k + 1)
  {
  }

  lemma ExtendWitness(entries: seq<Entry>, results: map<string, Timing>, d: string, best: real, c: seq<nat>, k: nat)
    requires k < |entries| && Counted(entries[k]) && d in entries[k].dependencies &&
        Witness(entries, results, d, best, c, k)
    ensures Witness(entries, results, entries[k].stepId, best + DurationOf(results, entries[k].stepId), c + [k], k + 1)
  {
    hide Weight;
    AppendWeight(entries, results, c, k);
  }

  lemma StepWitnessed(entries: seq<Entry>, results: map<string, Timing>, cumulative: map<string, real>,
          chains: map<string, seq<nat>>, k: nat, best: real) returns (c: seq<nat>)
    requires Witnessed(entries, results, cumulative, chains, k) && k < |entries| && Counted(entries[k])
    requires best >= 0.0 &&
        (best == 0.0 || exists d :: d in entries[k].dependencies && d in cumulative && cumulative[d] == best)
    ensures
      var id, latency := entries[k].stepId, best + DurationOf(results, entries[k].stepId);
      Witnessed(entries, results, cumulative[id := latency], chains[id := c], k + 1)
  {
    hide Witness, Linked;
    c := StepWitness(entries, results, cumulative, chains, k, best);
    forall id | id in cumulative ensures Witness(entries, results, id, cumulative[id], chains[id], k + 1) {
      LaterWitness(entries, results, id, cumulative[id], chains[id], k);
    }
  }

  lemma LaterWitness(entries: seq<Entry>, results: map<string, Timing>, id: string, latency: real, c: seq<nat>, k: nat)
    requires Witness(entries, results, id, latency, c, k)
    ensures Witness(entries, results, id, latency, c, k + 1)
  {
  }

  lemma StepDominates(entries: seq<Entry>, results: map<string, Timing>, cumulative: map<string, real>, k: nat,
          best: real)
    requires UniqueIds(entries) && k < |entries| && Counted(entries[k])
    requires Dominates(entries, results, cumulative, k)
    requires best >= 0.0 && forall d :: d in entries[k].dependencies && d in cumulative ==> cumulative[d] <= best
    ensures
      var total := best + DurationOf(results, entries[k].stepId);
      Dominates(entries, results, cumulative[entries[k].stepId := total], k + 1)
  {
    var cumulative' := cumulative[entries[k].stepId := best + DurationOf(results, entries[k].stepId)];
    forall c | Linked(entries, c) && Increasing(c) && c[|c| - 1] < k + 1
      ensures entries[c[|c| - 1]].stepId in cumulative' &&
          Weight(entries, results, c) <= cumulative'[entries[c[|c| - 1]].stepId]
    {
      var n := |c| - 1;
      if c[n] == k && n > 0 {
        FrontLinked(entries, c);
      }
    }
  }

  lemma FrontLinked(entries: seq<Entry>, c: seq<nat>)
    requires Linked(entries, c) && Increasing(c) && |c| >= 2
    ensures
      var front := c[..|c| - 1];
      Linked(entries, front) && Increasing(front) && front[|front| - 1] < c[|c| - 1]
      && DependsOn(entries[c[|c| - 1]], entries[front[|front| - 1]])
  {
    var n := |c| - 1;
    assert c[n - 1] < c[(n - 1) + 1] && DependsOn(entries[c[(n - 1) + 1]], entries[c[n - 1]]);
    var front := c[..n];
    forall i | 0 <= i < |front| - 1
        ensures DependsOn(entries[front[i + 1]], entries[front[i]]) && front[i] < front[i + 1] {
      assert c[i] < c[i + 1];
    }
  }

  lemma WitnessChain(entries: seq<Entry>, results: map<string, Timing>, cumulative: map<string, real>,
          chains: map<string, seq<nat>>, k: nat, latency: real)
    requires Witnessed(entries, results, cumulative, chains, k)
    requires exists id :: id in cumulative && cumulative[id] == latency
    ensures exists c :: Linked(entries, c) && Increasing(c) && Weight(entries, results, c) == latency
  {
    var id :| id in cumulative && cumulative[id] == latency;
    assert Witness(entries, results, id, latency, chains[id], k);
  }

  lemma DominatedChains(entries: seq<Entry>, results: map<string, Timing>, cumulative: map<string, real>, latency: real)
    requires Dominates(entries, results, cumulative, |entries|)
    requires forall id :: id in cumulative ==> cumulative[id] <= latency
    ensures forall c :: Linked(entries, c) && Increasing(c) ==> Weight(entries, results, c) <= latency
  {
  }

  method CriticalPathLatency(entries: seq<Entry>, results: map<string, Timing>) returns (latency: real)
    // Some listed step: the report is the weight of a real dependency chain ...
    ensures (exists e :: e in entries && Counted(e)) ==>
              exists c :: Linked(entries, c) && Increasing(c) && Weight(entries, results, c) == latency
    // ... and, for unique ids, the greatest over the chains listed dependencies first.
    ensures UniqueIds(entries) && (exists e :: e in entries && Counted(e)) ==>
              forall c :: Linked(entries, c) && Increasing(c) ==> Weight(entries, results, c) <= latency
    // ... which is the longest path if and only if the fold sees a longest one, and always so
    // when dependencies are listed first.
    ensures UniqueIds(entries) && (exists e :: e in entries && Counted(e)) ==>
              (Bounds(entries, results, latency) <==> FoldSeesLongest(entries, results))
    ensures UniqueIds(entries) && DependenciesFirst(entries) && (exists e :: e in entries && Counted(e)) ==>
              Bounds(entries, results, latency)
    // No listed step: the longest single result.
    ensures !(exists e :: e in entries && Counted(e)) ==>
              && (forall id :: id in results ==> DurationOf(results, id) <= latency)
              && (if results == map[] then latency == 0.0
                  else exists id :: id in results && DurationOf(results, id) == latency)
    // With two timestamps in order for every listed step, it is the greatest time that a chain
    // took from the starts and finishes of its steps, and for every results the fold's answer.
    ensures AllTimed(entries, results) && (exists e :: e in entries && Counted(e)) ==>
              exists c :: Linked(entries, c) && Increasing(c) && Took(entries, results, c, latency)
    ensures AllTimed(entries, results) && UniqueIds(entries) && (exists e :: e in entries && Counted(e)) ==>
              forall c, t :: Linked(entries, c) && Increasing(c) && Took(entries, results, c, t) ==> t <= latency
    ensures IsReport(entries, results, latency)
  {
    hide Linked, Increasing, Weight, UniqueIds, Witness, Witnessed, Dominates, DurationOf, FoldSeesLongest,
        DependenciesFirst, Took, AllTimed, Fold, IsReport;
    WeightsAreTimes(entries, results);
    OneTime(entries, results);
    FoldStarts(results);
    var cumulative: map<string, real> := map[];
    ghost var chains: map<string, seq<nat>> := map[];
    NothingYet(entries, results);
    for k := 0 to |entries|
      invariant Witnessed(entries, results, cumulative, chains, k)
      invariant cumulative == Fold(entries[..k], results)
      invariant cumulative == map[] <==> forall i :: 0 <= i < k ==> !Counted(entries[i])
      invariant UniqueIds(entries) ==> Dominates(entries, results, cumulative, k)
    {
      var entry := entries[k];
      FoldGrows(entries, results, k);
      WitnessedLater(entries, results, cumulative, chains, k);
      if Counted(entry) {
        var best := MaxOfDependencies(cumulative, entry.dependencies);
        ghost var c := StepWitnessed(entries, results, cumulative, chains, k, best);
        if UniqueIds(entries) {
          StepDominates(entries, results, cumulative, k, best);
        }
        cumulative := cumulative[entry.stepId := best + DurationOf(results, entry.stepId)];
        chains := chains[entry.stepId := c];
        assert entry.stepId in cumulative;
      } else {
        SkippedDominates(entries, results, cumulative, k);
      }
    }
    assert entries[..|entries|] == entries;
    if cumulative != map[] {
      WitnessedLater(entries, results, cumulative, chains, |entries|);
      latency := MaxOfValues(cumulative);
      ReportOfFold(entries, results, latency);
      WitnessChain(entries, results, cumulative, chains, |entries|, latency);
      if UniqueIds(entries) {
        DominatedChains(entries, results, cumulative, latency);
        ghost var best :| Linked(entries, best) && Increasing(best) && Weight(entries, results, best) == latency;
        LongestSeen(entries, results, latency, best);
      }
    } else {
      latency := LongestResult(results);
      ReportOfResults(entries, results, latency);
    }
  }

  method LongestResult(results: map<string, Timing>) returns (latency: real)
    ensures forall id :: id in results ==> DurationOf(results, id) <= latency
    ensures if results == map[] then latency == 0.0
            else exists id :: id in results && DurationOf(results, id) == latency
  {
    var durations := map id | id in results :: DurationOf(results, id);
    assert durations.Keys == results.Keys;
    latency := MaxOfValues(durations);
  }

  lemma OneTime(entries: seq<Entry>, results: map<string, Timing>)
    ensures forall c, a, b :: Took(entries, results, c, a) && Took(entries, results, c, b) ==> a == b
  {
  }

  lemma FoldStarts(results: map<string, Timing>)
    ensures Fold([], results) == map[]
  {
  }

  lemma FoldGrows(entries: seq<Entry>, results: map<string, Timing>, k: nat)
    requires k < |entries|
    ensures
      var before, e := Fold(entries[..k], results), entries[k];
      Fold(entries[..k + 1], results)
      == if Counted(e) then before[e.stepId := Best(before, e.dependencies) + DurationOf(results, e.stepId)] else before
    ensures entries[..0] == []
  {
    assert entries[..k + 1][..k] == entries[..k];
  }

  lemma ReportOfFold(entries: seq<Entry>, results: map<string, Timing>, latency: real)
    requires Fold(entries, results) != map[] && Greatest(Fold(entries, results), latency)
    ensures IsReport(entries, results, latency)
  {
  }

  lemma ReportOfResults(entries: seq<Entry>, results: map<string, Timing>, latency: real)
    requires Fold(entries, results) == map[] && forall id :: id in results ==> DurationOf(results, id) <= latency
    requires if results == map[] then latency == 0.0
             else exists id :: id in results && DurationOf(results, id) == latency
    ensures IsReport(entries, results, latency)
  {
    var durations := map id | id in results :: DurationOf(results, id);
    assert durations.Keys == results.Keys;
  }

  lemma NothingYet(entries: seq<Entry>, results: map<string, Timing>)
    ensures Witnessed(entries, results, map[], map[], 0) && Dominates(entries, results, map[], 0)
  {
  }

  lemma WitnessedLater(entries: seq<Entry>, results: map<string, Timing>, cumulative: map<string, real>,
          chains: map<string, seq<nat>>, k: nat)
    requires Witnessed(entries, results, cumulative, chains, k)
    ensures Witnessed(entries, results, cumulative, chains, k + 1)
    ensures forall id :: id in cumulative ==> cumulative[id] >= 0.0
  {
  }

  lemma SkippedDominates(entries: seq<Entry>, results: map<string, Timing>, cumulative: map<string, real>, k: nat)
    requires k < |entries| && !Counted(entries[k])
    ensures Dominates(entries, results, cumulative, k) ==> Dominates(entries, results, cumulative, k + 1)
  {
    if Dominates(entries, results, cumulative, k) {
      forall c | Linked(entries, c) && Increasing(c) && c[|c| - 1] < k + 1 ensures c[|c| - 1] < k {
        assert Counted(entries[c[|c| - 1]]);
      }
    }
  }

  // ---- When the report is the longest weighted path ----

  // No chain weighs more than some chain that the fold sees.
  ghost predicate FoldSeesLongest(entries: seq<Entry>, results: map<string, Timing>) {
    forall c :: Linked(entries, c) ==> Seen(entries, results, c)
  }

  ghost predicate Seen(entries: seq<Entry>, results: map<string, Timing>, c: seq<nat>)
    requires Linked(entries, c)
  {
    exists d :: Linked(entries, d) && Increasing(d) && NoHeavier(entries, results, c, d)
  }

  ghost predicate Bounds(entries: seq<Entry>, results: map<string, Timing>, latency: real) {
    forall c :: Linked(entries, c) ==> Weight(entries, results, c) <= latency
  }

  ghost predicate NoHeavier(entries: seq<Entry>, results: map<string, Timing>, c: seq<nat>, d: seq<nat>)
    requires Linked(entries, c) && Linked(entries, d)
  {
    Weight(entries, results, c) <= Weight(entries, results, d)
  }

  lemma IncreasingOrder(c: seq<nat>, p: nat, q: nat)
    requires Increasing(c) && p < q < |c|
    ensures c[p] < c[q]
    decreases q
  {
    if p < q - 1 {
      IncreasingOrder(c, p, q - 1);
    }
    assert c[q - 1] < c[(q - 1) + 1];
  }

  // One time unit for each of two steps, and none for the others.
  function Units(a: string, b: string): map<string, Timing> {
    map[a := Timing(Some(0.0), Some(1.0)), b := Timing(Some(0.0), Some(1.0))]
  }

  function UnitAt(c: seq<nat>, i: nat): real {
    if i in c then 1.0 else 0.0
  }

  lemma UnitDurations(entries: seq<Entry>, i: nat, j: nat, k: nat)
    requires UniqueIds(entries) && i < |entries| && j < |entries| && k < |entries|
    requires Counted(entries[i]) && Counted(entries[j]) && Counted(entries[k])
    ensures
      DurationOf(Units(entries[i].stepId, entries[j].stepId), entries[k].stepId)
      == if k == i || k == j then 1.0 else 0.0
  {
    var results := Units(entries[i].stepId, entries[j].stepId);
    assert entries[k].stepId in results <==> k == i || k == j;
  }

  lemma {:induction false} SeenWeight(entries: seq<Entry>, i: nat, j: nat, c: seq<nat>)
    requires UniqueIds(entries) && i < |entries| && j < |entries| && Counted(entries[i]) && Counted(entries[j])
    requires Linked(entries, c) && Increasing(c)
    ensures Weight(entries, Units(entries[i].stepId, entries[j].stepId), c) <= UnitAt(c, i) + UnitAt(c, j)
    decreases |c|
  {
    hide UniqueIds, Units, DurationOf, Counted;
    var n := |c| - 1;
    var last, front := c[n], c[..n];
    UnitDurations(entries, i, j, last);
    assert c == front + [last];
    if n > 0 {
      PrefixOf(entries, c);
      SeenWeight(entries, i, j, front);
      forall p | 0 <= p < n ensures front[p] < last {
        IncreasingOrder(c, p, n);
      }
    }
  }

  lemma PrefixOf(entries: seq<Entry>, c: seq<nat>)
    requires Linked(entries, c) && |c| > 1
    ensures Linked(entries, c[..|c| - 1]) && (Increasing(c) ==> Increasing(c[..|c| - 1]))
  {
    forall p | 0 <= p < |c| - 2
        ensures DependsOn(entries[c[p + 1]], entries[c[p]]) && (Increasing(c) ==> c[p] < c[p + 1]) {
    }
  }

  lemma {:induction false} ChainWeight(entries: seq<Entry>, i: nat, j: nat, c: seq<nat>)
    requires UniqueIds(entries) && i < |entries| && j < |entries| && Counted(entries[i]) && Counted(entries[j])
    requires i != j && Linked(entries, c)
    ensures Weight(entries, Units(entries[i].stepId, entries[j].stepId), c) >= UnitAt(c, i) + UnitAt(c, j)
    decreases |c|
  {
    hide UniqueIds, Units, DurationOf, Counted;
    var n := |c| - 1;
    UnitDurations(entries, i, j, c[n]);
    assert c == c[..n] + [c[n]];
    if n > 0 {
      PrefixOf(entries, c);
      ChainWeight(entries, i, j, c[..n]);
    }
  }

  lemma Stretch(entries: seq<Entry>, c: seq<nat>, p: nat, q: nat)
    requires Linked(entries, c) && p <= q < |c|
    ensures Linked(entries, c[p..q + 1])
  {
    var d := c[p..q + 1];
    forall k | 0 <= k < |d| - 1 ensures DependsOn(entries[d[k + 1]], entries[d[k]]) {
      assert DependsOn(entries[c[(p + k) + 1]], entries[c[p + k]]);
    }
  }

  // A step that depends on itself or on a later one, and a chain too heavy for the fold: if
  // the fold sees the two of them together, the step leads back to its dependency.
  lemma HeavyChain(entries: seq<Entry>, i: nat, j: nat) returns (c: seq<nat>)
    requires UniqueIds(entries) && i <= j < |entries| && DependsOn(entries[i], entries[j])
    ensures Linked(entries, c)
    ensures
      forall d :: Linked(entries, d) && Increasing(d) ==>
        !NoHeavier(entries, Units(entries[i].stepId, entries[j].stepId), c, d)
  {
    hide UniqueIds, Units, DurationOf, Weight;
    var results := Units(entries[i].stepId, entries[j].stepId);
    UnitDurations(entries, i, j, i);
    UnitDurations(entries, i, j, j);
    if i == j {
      c := ThreeTurns(entries, i);
    } else if d :| Linked(entries, d) && Increasing(d) && i in d && j in d {
      c := WayBack(entries, i, j, d);
    } else {
      AppendLinked(entries, [j], i);
      c := [j] + [i];
      ChainWeight(entries, i, j, c);
    }
    forall d | Linked(entries, d) && Increasing(d) ensures !NoHeavier(entries, results, c, d) {
      SeenWeight(entries, i, j, d);
    }
  }

  lemma ThreeTurns(entries: seq<Entry>, i: nat) returns (c: seq<nat>)
    requires UniqueIds(entries) && i < |entries| && DependsOn(entries[i], entries[i])
    ensures Linked(entries, c) && Weight(entries, Units(entries[i].stepId, entries[i].stepId), c) == 3.0
  {
    hide Units, DurationOf, UniqueIds;
    var results := Units(entries[i].stepId, entries[i].stepId);
    UnitDurations(entries, i, i, i);
    AppendWeight(entries, results, [i], i);
    AppendWeight(entries, results, [i] + [i], i);
    c := [i] + [i] + [i];
  }

  lemma WayBack(entries: seq<Entry>, i: nat, j: nat, d: seq<nat>) returns (c: seq<nat>)
    requires UniqueIds(entries) && i < j < |entries| && DependsOn(entries[i], entries[j])
    requires Linked(entries, d) && Increasing(d) && i in d && j in d
    ensures Linked(entries, c) && Weight(entries, Units(entries[i].stepId, entries[j].stepId), c) >= 3.0
  {
    hide Units, DurationOf, UniqueIds, Weight, Linked;
    var p :| 0 <= p < |d| && d[p] == i;
    var q :| 0 <= q < |d| && d[q] == j;
    if q < p {
      IncreasingOrder(d, q, p);
    }
    Stretch(entries, d, p, q);
    var e := d[p..q + 1];
    assert e[0] == i && e[|e| - 1] == j;
    ChainWeight(entries, i, j, e);
    UnitDurations(entries, i, j, i);
    AppendWeight(entries, Units(entries[i].stepId, entries[j].stepId), e, i);
    c := e + [i];
  }

  lemma OrderedIsSeen(entries: seq<Entry>, results: map<string, Timing>)
    requires DependenciesFirst(entries)
    ensures FoldSeesLongest(entries, results)
  {
    hide Linked, Weight;
    forall c | Linked(entries, c) ensures Seen(entries, results, c) {
      OrderedChainsIncrease(entries, c);
      assert NoHeavier(entries, results, c, c);
    }
  }

  // The greatest weight of an increasing chain against that of any chain.
  lemma LongestSeen(entries: seq<Entry>, results: map<string, Timing>, latency: real, best: seq<nat>)
    requires Linked(entries, best) && Increasing(best) && Weight(entries, results, best) == latency
    requires forall c :: Linked(entries, c) && Increasing(c) ==> Weight(entries, results, c) <= latency
    ensures Bounds(entries, results, latency) <==> FoldSeesLongest(entries, results)
    ensures DependenciesFirst(entries) ==> Bounds(entries, results, latency)
  {
    hide Linked, Weight, Increasing, Seen, DependenciesFirst;
    if Bounds(entries, results, latency) {
      forall c | Linked(entries, c) ensures Seen(entries, results, c) {
        SeenBy(entries, results, c, best);
      }
    }
    if FoldSeesLongest(entries, results) {
      forall c | Linked(entries, c) ensures Weight(entries, results, c) <= latency {
        var d := Heavier(entries, results, c);
      }
    }
    if DependenciesFirst(entries) {
      OrderedIsSeen(entries, results);
    }
  }

  lemma SeenBy(entries: seq<Entry>, results: map<string, Timing>, c: seq<nat>, d: seq<nat>)
    requires Linked(entries, c) && Linked(entries, d) && Increasing(d)
    requires Weight(entries, results, c) <= Weight(entries, results, d)
    ensures Seen(entries, results, c)
  {
    assert NoHeavier(entries, results, c, d);
  }

  lemma Heavier(entries: seq<Entry>, results: map<string, Timing>, c: seq<nat>) returns (d: seq<nat>)
    requires Linked(entries, c) && Seen(entries, results, c)
    ensures Linked(entries, d) && Increasing(d) && Weight(entries, results, c) <= Weight(entries, results, d)
  {
    d :| Linked(entries, d) && Increasing(d) && NoHeavier(entries, results, c, d);
  }

  // For unique ids, the report is the longest weighted path for all results if and only if
  // every dependency is listed before the step that depends on it.
  lemma ExactIffDependenciesFirst(entries: seq<Entry>)
    requires UniqueIds(entries)
    ensures (forall results :: FoldSeesLongest(entries, results)) <==> DependenciesFirst(entries)
  {
    hide UniqueIds, Linked, Weight, Units;
    if DependenciesFirst(entries) {
      forall results ensures FoldSeesLongest(entries, results) {
        OrderedIsSeen(entries, results);
      }
    } else {
      var i, j :| 0 <= i < |entries| && 0 <= j < |entries| && DependsOn(entries[i], entries[j]) && i <= j;
      var c := HeavyChain(entries, i, j);
      assert !FoldSeesLongest(entries, Units(entries[i].stepId, entries[j].stepId));
    }
  }

  lemma FirstLink(entries: seq<Entry>, c: seq<nat>)
    requires Linked(entries, c) && Increasing(c)
    ensures |c| >= 2 ==> c[0] < c[1] < |entries| && DependsOn(entries[c[1]], entries[c[0]])
  {
    assert |c| >= 2 ==> c[0] < c[0 + 1] && DependsOn(entries[c[0 + 1]], entries[c[0]]);
  }

  // A step listed before its dependency: every chain the fold sees weighs less than the
  // longest one.
  lemma LateDependencyIsMissed()
    ensures
      var entries := [Entry("b", ["a"]), Entry("a", [])];
      var second := Timing(Some(0.0), Some(1.0));
      var results := map["a" := second, "b" := second];
      && UniqueIds(entries) && Linked(entries, [1, 0]) && Weight(entries, results, [1, 0]) == 2.0
      && forall c: seq<nat> :: Linked(entries, c) && Increasing(c) ==> Weight(entries, results, c) == 1.0
  {
    var entries := [Entry("b", ["a"]), Entry("a", [])];
    var second := Timing(Some(0.0), Some(1.0));
    var results := map["a" := second, "b" := second];
    assert entries[0].stepId == "b" && entries[1].stepId == "a" && "b"[0] != "a"[0];
    assert DependsOn(entries[0], entries[1]) && Linked(entries, [1]) && [1, 0][..1] == [1];
    assert !DependsOn(entries[1], entries[0]);
    forall c: seq<nat> | Linked(entries, c) && Increasing(c) ensures Weight(entries, results, c) == 1.0 {
      FirstLink(entries, c);
    }
  }
}
