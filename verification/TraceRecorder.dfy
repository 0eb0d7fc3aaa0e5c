/** The trace recorder: spans that complete concurrently with the trace's finish. */
module TraceRecording {
  import opened Options

  datatype Observation =
    | Usage(spanId: string, model: string, tokens: nat, cost: Option<real>)
    | ToolCall(spanId: string, tool: string, status: string)
    | Retrieval(spanId: string, query: string)

  datatype SpanEvent = SpanEvent(spanId: string, status: string)

  datatype Value = Count(count: int) | Amount(amount: real) | Flag(flag: bool) | Text(text: string)
  type Summary = map<string, Value>

  // ---- Token and cost accounting ----

  function Tokens(observations: seq<Observation>): nat {
    if observations == [] then 0
    else
      var last := observations[|observations| - 1];
      Tokens(observations[..|observations| - 1]) + if last.Usage? then last.tokens else 0
  }

  // A missing or negative cost counts as zero.
  function CostOf(usage: Observation): real
    requires usage.Usage?
  {
    if usage.cost.Some? && usage.cost.value > 0.0 then usage.cost.value else 0.0
  }

  function Cost(observations: seq<Observation>): real {
    if observations == [] then 0.0
    else
      var last := observations[|observations| - 1];
      Cost(observations[..|observations| - 1]) + if last.Usage? then CostOf(last) else 0.0
  }

  function Usages(observations: seq<Observation>): seq<Observation> {
    if observations == [] then []
    else
      var last := observations[|observations| - 1];
      Usages(observations[..|observations| - 1]) + if last.Usage? then [last] else []
  }

  function ToolCalls(observations: seq<Observation>): seq<Observation> {
    if observations == [] then []
    else
      var last := observations[|observations| - 1];
      ToolCalls(observations[..|observations| - 1]) + if last.ToolCall? then [last] else []
  }

  // Those of the observations that the store accepts.
  function Accepted(observations: seq<Observation>, answers: nat -> bool): seq<Observation> {
    if observations == [] then []
    else
      var n := |observations| - 1;
      Accepted(observations[..n], answers) + if answers(n) then [observations[n]] else []
  }

  lemma NoneAccepted(answers: nat -> bool)
    ensures Accepted([], answers) == []
  {
  }

  lemma AcceptedMore(observations: seq<Observation>, answers: nat -> bool, i: nat)
    requires i < |observations|
    ensures Accepted(observations[..i + 1], answers)
        == Accepted(observations[..i], answers) + if answers(i) then [observations[i]] else []
  {
    assert observations[..i + 1][..i] == observations[..i];
  }

  lemma AppendOne(xs: seq<Observation>, x: Observation)
    ensures Tokens(xs + [x]) == Tokens(xs) + if x.Usage? then x.tokens else 0
    ensures Cost(xs + [x]) == Cost(xs) + if x.Usage? then CostOf(x) else 0.0
    ensures Usages(xs + [x]) == Usages(xs) + if x.Usage? then [x] else []
    ensures ToolCalls(xs + [x]) == ToolCalls(xs) + if x.ToolCall? then [x] else []
  {
    assert (xs + [x])[..|xs|] == xs;
  }

  lemma NoObservations()
    ensures Tokens([]) == 0 && Usages([]) == [] && ToolCalls([]) == []
  {
  }

  lemma Single(x: Observation)
    ensures Tokens([x]) == (if x.Usage? then x.tokens else 0)
    ensures Usages([x]) == (if x.Usage? then [x] else [])
    ensures ToolCalls([x]) == (if x.ToolCall? then [x] else [])
  {
    AppendOne([], x);
    assert [] + [x] == [x];
  }

  // Tokens held in the observations of open spans.
  ghost function Pending(open: map<string, seq<Observation>>): nat
    decreases |open|
  {
    if open == map[] then 0
    else
      var k :| k in open;
      Smaller(open, k);
      Tokens(open[k]) + Pending(open - {k})
  }

  lemma Smaller(open: map<string, seq<Observation>>, k: string)
    requires k in open
    ensures |open - {k}| < |open|
  {
    assert (open - {k}).Keys == open.Keys - {k};
    assert |open.Keys - {k}| == |open.Keys| - 1;
  }

  lemma {:induction false} PendingOne(open: map<string, seq<Observation>>, k: string)
    requires k in open
    ensures Pending(open) == Tokens(open[k]) + Pending(open - {k})
    decreases |open|
  {
    var first :| first in open && Pending(open) == Tokens(open[first]) + Pending(open - {first});
    if first != k {
      Smaller(open, first);
      Smaller(open, k);
      PendingOne(open - {first}, k);
      PendingOne(open - {k}, first);
      assert open - {first} - {k} == open - {k} - {first};
    }
  }

  lemma PendingUpdate(open: map<string, seq<Observation>>, k: string, observations: seq<Observation>)
    ensures Pending(open[k := observations]) == Tokens(observations) + Pending(open - {k})
  {
    PendingOne(open[k := observations], k);
    assert open[k := observations] - {k} == open - {k};
  }

  lemma NonePending(open: map<string, seq<Observation>>)
    ensures open.Keys == {} ==> Pending(open) == 0
  {
    if open.Keys == {} {
      assert open == map[];
    }
  }

  lemma PendingWithout(open: map<string, seq<Observation>>, k: string)
    ensures Pending(open) == Pending(open - {k}) + if k in open then Tokens(open[k]) else 0
  {
    if k in open {
      PendingOne(open, k);
    } else {
      assert open - {k} == open;
    }
  }

  lemma PendingDefers(open: map<string, seq<Observation>>, o: Observation)
    requires o.spanId in open
    ensures Pending(open[o.spanId := open[o.spanId] + [o]]) == Pending(open) + Tokens([o])
  {
    hide Pending;
    var id := o.spanId;
    AppendOne(open[id], o);
    Single(o);
    PendingWithout(open, id);
    PendingUpdate(open, id, open[id] + [o]);
  }

  // ---- Summaries ----

  const LATENCY := "e2e_latency_ms"
  const TOKENS := "total_tokens"
  const COST := "estimated_cost"

  predicate Frozen(summary: Summary, tokens: int, cost: real, latency: real) {
    && TOKENS in summary && summary[TOKENS] == Count(tokens)
    && COST in summary && summary[COST] == Amount(cost)
    && LATENCY in summary && summary[LATENCY] == Amount(latency)
  }

  function Closed(summary: Summary, tokens: int, cost: real, latency: real, unfinished: nat): (r: Summary)
    ensures Frozen(r, tokens, cost, latency)
    ensures unfinished > 0 ==> "trace_close_timeout" in r && r["trace_close_timeout"] == Flag(true)
  {
    var values := summary + map[TOKENS := Count(tokens), COST := Amount(cost), LATENCY := Amount(latency)];
    if unfinished == 0 then values
    else values + map["trace_close_timeout" := Flag(true), "unfinished_span_count" := Count(unfinished)]
  }

  lemma ClosedFields(summary: Summary, tokens: int, cost: real, latency: real, unfinished: nat)
    ensures
      var r := Closed(summary, tokens, cost, latency, unfinished);
      && LATENCY in r && r[LATENCY] == Amount(latency)
      && TOKENS in r && r[TOKENS] == Count(tokens)
      && COST in r && r[COST] == Amount(cost)
      && (unfinished > 0 ==>
            && "trace_close_timeout" in r && r["trace_close_timeout"] == Flag(true)
            && "unfinished_span_count" in r && r["unfinished_span_count"] == Count(unfinished))
      && forall k :: k !in [LATENCY, TOKENS, COST] &&
            (unfinished > 0 ==> k !in ["trace_close_timeout", "unfinished_span_count"])
          ==> (k in r <==> k in summary) && (k in summary ==> r[k] == summary[k])
  {
    NamesDiffer();
    var names := [LATENCY, TOKENS, COST];
    assert names[0] in names && names[1] in names && names[2] in names;
    var more := ["trace_close_timeout", "unfinished_span_count"];
    assert more[0] in more && more[1] in more;
  }

  lemma NamesDiffer()
    ensures LATENCY != TOKENS && LATENCY != COST && TOKENS != COST
    ensures "trace_close_timeout" != "unfinished_span_count"
    ensures forall k :: k in [LATENCY, TOKENS, COST] ==> k != "trace_close_timeout" && k != "unfinished_span_count"
  {
    assert LATENCY[0] == 'e' && LATENCY[1] == '2' && TOKENS[0] == 't' && TOKENS[1] == 'o';
    assert COST[0] == 'e' && COST[1] == 's';
    assert "trace_close_timeout"[1] == 'r' && "unfinished_span_count"[0] == 'u' && "trace_close_timeout"[0] == 't';
  }

  // An update of the final summary: every field but the three frozen ones.
  function Updated(previous: Summary, summary: Summary): Summary
    requires TOKENS in previous && COST in previous && LATENCY in previous
  {
    (previous + summary) + map[LATENCY := previous[LATENCY], TOKENS := previous[TOKENS], COST := previous[COST]]
  }

  lemma UpdatedFields(previous: Summary, summary: Summary, tokens: int, cost: real, latency: real)
    requires Frozen(previous, tokens, cost, latency)
    ensures TOKENS in previous && COST in previous && LATENCY in previous
    ensures
      var r := Updated(previous, summary);
      && Frozen(r, tokens, cost, latency) && r.Keys == previous.Keys + summary.Keys
      && (forall k :: k in summary && k !in [LATENCY, TOKENS, COST] ==> r[k] == summary[k])
      && (forall k :: k in previous && (k !in summary || k in [LATENCY, TOKENS, COST]) ==> r[k] == previous[k])
  {
    NamesDiffer();
    var names := [LATENCY, TOKENS, COST];
    assert names[0] in names && names[1] in names && names[2] in names;
  }

  // ---- Validation of a usage ----

  datatype UsageValues = UsageValues(
    model: string, prompt: int, completion: int, reasoning: int, cached: int, total: Option<int>, cost: Option<real>)

  // The part of _prepare_llm_usage before the lock; None stands for a captured error.
  function UsagePayload(spanId: string, v: UsageValues): Option<Observation> {
    if v.prompt < 0 || v.completion < 0 || v.reasoning < 0 || v.cached < 0 then None
    else if v.total.Some? && v.total.value < 0 then None
    else if spanId == "" || v.model == "" then None
    else Some(Usage(spanId, v.model, if v.total.Some? then v.total.value else v.prompt + v.completion, v.cost))
  }

  predicate Acceptable(spanId: string, v: UsageValues) {
    && v.prompt >= 0 && v.completion >= 0 && v.reasoning >= 0 && v.cached >= 0
    && (v.total.Some? ==> v.total.value >= 0) && spanId != "" && v.model != ""
  }

  function Billed(v: UsageValues): int {
    if v.total.Some? then v.total.value else v.prompt + v.completion
  }

  // ---- What a recorder shows, and how it may change ----

  datatype Snapshot = Snapshot(
    finished: bool, finishes: nat, events: seq<SpanEvent>, usages: seq<Observation>, toolCalls: seq<Observation>,
    tokens: int, cost: real, latency: real)

  // Lists only grow; once finished, nothing that was recorded changes any more.
  ghost predicate Evolves(s: Snapshot, t: Snapshot) {
    && s.events <= t.events && s.usages <= t.usages && s.toolCalls <= t.toolCalls
    && s.finishes <= t.finishes <= 1
    && (s.finished ==> t == s)
  }

  lemma Grown(s: Snapshot, t: Snapshot, events: seq<SpanEvent>, usages: seq<Observation>, toolCalls: seq<Observation>)
    requires !s.finished && s.finishes <= t.finishes <= 1
    requires t.events == s.events + events && t.usages == s.usages + usages && t.toolCalls == s.toolCalls + toolCalls
    ensures Evolves(s, t)
  {
  }

  ghost predicate History(states: seq<Snapshot>) {
    forall i :: 0 < i < |states| ==> Evolves(states[i - 1], states[i])
  }

  // Over any interleaving: at most one finish takes effect, and what the trace shows from
  // then on is what it showed then.
  lemma {:induction false} FinishedForGood(states: seq<Snapshot>, k: nat)
    requires History(states) && k < |states|
    ensures
      var last := states[|states| - 1];
      && states[k].usages <= last.usages && states[k].events <= last.events && states[k].toolCalls <= last.toolCalls
      && (states[k].finished ==> last == states[k])
      && states[k].finishes <= last.finishes && (k < |states| - 1 ==> last.finishes <= 1)
    decreases |states|
  {
    if k < |states| - 1 {
      var front := states[..|states| - 1];
      FinishedForGood(front, k);
      assert Evolves(states[|states| - 2], states[|states| - 1]);
    }
  }

  // Each span is open or done; a span has at most one event; the store holds observations of
  // known spans only.
  ghost predicate SpansFit(active: set<string>, known: set<string>, deferred: map<string, seq<Observation>>,
          issued: set<string>, events: seq<SpanEvent>, stored: seq<Observation>) {
    && deferred.Keys == active && active <= issued && known <= issued && known !! active
    && (forall i :: 0 <= i < |events| ==> events[i].spanId in issued - active)
    && (forall i, j :: 0 <= i < j < |events| ==> events[i].spanId != events[j].spanId)
    && (forall id, o :: id in deferred && o in deferred[id] ==> o.spanId == id)
    && (forall o :: o in stored ==> o.spanId in known)
  }

  lemma SpanStarts(active: set<string>, known: set<string>, deferred: map<string, seq<Observation>>,
          issued: set<string>, events: seq<SpanEvent>, stored: seq<Observation>, id: string)
    requires SpansFit(active, known, deferred, issued, events, stored) && id !in issued
    ensures id !in deferred && SpansFit(active, known, deferred, issued + {id}, events, stored)
    ensures SpansFit(active + {id}, known, deferred[id := []], issued + {id}, events, stored)
  {
  }

  lemma SpanDefers(active: set<string>, known: set<string>, deferred: map<string, seq<Observation>>,
          issued: set<string>, events: seq<SpanEvent>, stored: seq<Observation>, o: Observation)
    requires SpansFit(active, known, deferred, issued, events, stored) && o.spanId in active
    ensures SpansFit(active, known, deferred[o.spanId := deferred[o.spanId] + [o]], issued, events, stored)
  {
  }

  lemma SpanDropped(active: set<string>, known: set<string>, deferred: map<string, seq<Observation>>,
          issued: set<string>, events: seq<SpanEvent>, stored: seq<Observation>, id: string)
    requires SpansFit(active, known, deferred, issued, events, stored)
    ensures SpansFit(active - {id}, known, deferred - {id}, issued, events, stored)
  {
    assert (deferred - {id}).Keys == deferred.Keys - {id};
  }

  lemma SpanFlushed(active: set<string>, known: set<string>, deferred: map<string, seq<Observation>>,
          issued: set<string>, events: seq<SpanEvent>, stored: seq<Observation>,
                    id: string, status: string, known': set<string>, stored': seq<Observation>)
    requires SpansFit(active, known, deferred, issued, events, stored) && id in active
    requires known <= known' <= known + {id}
    requires forall o :: o in stored' ==> o in stored || o.spanId in known'
    ensures SpansFit(active - {id}, known', deferred - {id}, issued, events + [SpanEvent(id, status)], stored')
  {
    assert (deferred - {id}).Keys == deferred.Keys - {id};
  }

  lemma ActiveAreDeferred(active: set<string>, known: set<string>, deferred: map<string, seq<Observation>>,
          issued: set<string>, events: seq<SpanEvent>, stored: seq<Observation>)
    requires SpansFit(active, known, deferred, issued, events, stored)
    ensures deferred.Keys == active && known !! active
  {
  }

  lemma DeferredAreOwn(active: set<string>, known: set<string>, deferred: map<string, seq<Observation>>,
          issued: set<string>, events: seq<SpanEvent>, stored: seq<Observation>, id: string)
    requires SpansFit(active, known, deferred, issued, events, stored) && id in active
    ensures id in deferred && forall o :: o in deferred[id] ==> o.spanId == id
  {
  }

  // Every accepted token is recorded, pending in an open span, or lost; and none is lost
  // before the trace is finished.
  ghost predicate Balanced(accepted: int, total: int, deferred: map<string, seq<Observation>>, lost: int,
          finished: bool) {
    accepted == total + Pending(deferred) + lost && (!finished ==> lost == 0)
  }

  lemma BalanceFlushed(accepted: int, total: int, deferred: map<string, seq<Observation>>, lost: int, finished: bool,
          id: string)
    requires Balanced(accepted, total, deferred, lost, finished) && id in deferred
    ensures Balanced(accepted, total + Tokens(deferred[id]), deferred - {id}, lost, finished)
  {
    hide Pending, Tokens;
    PendingWithout(deferred, id);
  }

  lemma NothingRecorded()
    ensures Tokens([]) == 0 && Cost([]) == 0.0 && Balanced(0, 0, map[], 0, false) && SpansFit({}, {}, map[], {}, [], [])
  {
  }

  // ---- The recorder ----

  class TraceRecorder {
    var totalTokens: int
    var estimatedCost: real
    var finalSummary: Summary
    var finishPersisted: bool
    var finished: bool
    var closing: bool
    var active: set<string>
    var known: set<string>
    var completedEvents: seq<SpanEvent>
    var recordedUsages: seq<Observation>
    var recordedToolCalls: seq<Observation>
    // The deferred observations of the open spans, kept by the spans themselves.
    var deferred: map<string, seq<Observation>>
    // What the store has accepted besides span events.
    var stored: seq<Observation>

    // Span ids handed out; tokens of usages that were answered with true, and of those among
    // them whose span completed only after the finish; finishes begun; summaries that
    // update_final_summary has prepared; the latency measured by the finish.
    ghost var issued: set<string>
    ghost var accepted: nat
    ghost var lost: nat
    ghost var finishes: nat
    ghost var prepared: set<Summary>
    ghost var latency: real

    constructor ()
      ensures Valid() && !finished && !closing && active == {} && accepted == 0
      ensures issued == {}
    {
      totalTokens, estimatedCost, finalSummary := 0, 0.0, map[];
      finishPersisted, finished, closing := false, false, false;
      active, known, deferred := {}, {}, map[];
      completedEvents, recordedUsages, recordedToolCalls, stored := [], [], [], [];
      issued, accepted, lost, finishes, prepared, latency := {}, 0, 0, 0, {}, 0.0;
      new;
      hide *;
      FreshIsValid();
    }

    lemma FreshIsValid()
      requires totalTokens == 0 && estimatedCost == 0.0 && !finishPersisted && !finished && !closing
      requires active == {} && known == {} && deferred == map[] && completedEvents == [] && recordedUsages == [] &&
          stored == []
      requires issued == {} && accepted == 0 && lost == 0 && finishes == 0 && prepared == {}
      ensures Valid()
    {
      hide Tokens, Cost, Pending, SpansFit, Balanced, Settled;
      NothingRecorded();
    }

    // The totals are the sums over the recorded usages.
    ghost predicate Books()
      reads this`totalTokens, this`estimatedCost, this`recordedUsages
    {
      && totalTokens == Tokens(recordedUsages) && estimatedCost == Cost(recordedUsages)
      && forall u :: u in recordedUsages ==> u.Usage?
    }

    ghost predicate Ledger()
      reads this`totalTokens, this`accepted, this`lost, this`deferred, this`finished
    {
      Balanced(accepted, totalTokens, deferred, lost, finished)
    }

    ghost predicate Spans()
      reads this`active, this`known, this`deferred, this`issued, this`completedEvents, this`stored
    {
      SpansFit(active, known, deferred, issued, completedEvents, stored)
    }

    ghost predicate Phases()
      reads this`finished, this`closing, this`finishPersisted, this`finishes, this`prepared
    {
      && !(finished && closing) && (finishPersisted ==> finished) && (!finished ==> prepared == {})
      && finishes == (if finished || closing then 1 else 0)
    }

    // The final summary, and every summary prepared to replace it, shows the frozen fields.
    ghost predicate Settled()
      reads this`finalSummary, this`prepared, this`totalTokens, this`estimatedCost, this`latency
    {
      && Frozen(finalSummary, totalTokens, estimatedCost, latency)
      && (forall s :: s in prepared ==> Frozen(s, totalTokens, estimatedCost, latency))
    }

    ghost predicate Valid()
      reads this
    {
      Books() && Ledger() && Spans() && Phases() && (finished ==> Settled())
    }

    ghost function Shown(): Snapshot
      reads this
    {
      Snapshot(finished, finishes, completedEvents, recordedUsages, recordedToolCalls, totalTokens, estimatedCost,
          if finished then latency else 0.0)
    }

    lemma EvolvesNowhere()
      requires Valid()
      ensures Evolves(Shown(), Shown())
    {
    }

    predicate Unavailable()
      reads this`finished, this`closing
    {
      finished || closing
    }

    // The start of a span; its id is new.
    method StartSpan(id: string) returns (open: bool)
      requires Valid() && id !in issued
      modifies this`active, this`deferred, this`issued
      ensures Valid() && Evolves(old(Shown()), Shown())
      ensures open == !old(Unavailable())
      ensures active == (if open then old(active) + {id} else old(active)) && issued == old(issued) + {id}
      ensures open ==> deferred == old(deferred)[id := []]
    {
      hide Books, Frozen, Pending, SpansFit;
      open := !Unavailable();
      SpanStarts(active, known, deferred, issued, completedEvents, stored, id);
      issued := issued + {id};
      if open {
        PendingUpdate(deferred, id, []);
        PendingWithout(deferred, id);
        active := active + {id};
        deferred := deferred[id := []];
      }
    }

    // record_llm_usage, record_tool_call and record_rag_retrieval of an open span, with a
    // payload that has passed validation: kept until the span completes.
    method Defer(observation: Observation) returns (kept: bool)
      requires Valid()
      modifies this`deferred, this`accepted
      ensures Valid() && Evolves(old(Shown()), Shown())
      ensures kept <==> !finished && observation.spanId in active
      ensures
        kept ==>
        deferred == old(deferred)[observation.spanId := old(deferred)[observation.spanId] + [observation]]
      ensures !kept ==> deferred == old(deferred)
      ensures accepted == old(accepted) + if kept then Tokens([observation]) else 0
    {
      hide Books, Frozen, Pending, SpansFit, Tokens, Evolves;
      EvolvesNowhere();
      var id := observation.spanId;
      if finished || id !in active {
        return false;
      }
      ActiveAreDeferred(active, known, deferred, issued, completedEvents, stored);
      SpanDefers(active, known, deferred, issued, completedEvents, stored, observation);
      PendingDefers(deferred, observation);
      deferred := deferred[id := deferred[id] + [observation]];
      accepted := accepted + Tokens([observation]);
      kept := true;
    }

    // Adds a usage to the evidence and the totals.
    method CountUsage(usage: Observation)
      requires usage.Usage? && Books()
      modifies this`recordedUsages, this`totalTokens, this`estimatedCost
      ensures Books()
      ensures recordedUsages == old(recordedUsages) + [usage] && totalTokens == old(totalTokens) + usage.tokens
      ensures estimatedCost == old(estimatedCost) +
          if usage.cost.Some? && usage.cost.value > 0.0 then usage.cost.value else 0.0
    {
      AppendOne(recordedUsages, usage);
      recordedUsages := recordedUsages + [usage];
      totalTokens := totalTokens + usage.tokens;
      if usage.cost.Some? {
        estimatedCost := estimatedCost + if usage.cost.value > 0.0 then usage.cost.value else 0.0;
      }
    }

    // The same calls on the recorder itself, for a span that is already persisted;
    // `persisted` is the store's answer.
    method RecordDirectly(observation: Observation, persisted: bool) returns (done: bool)
      requires Valid()
      modifies this`recordedUsages, this`recordedToolCalls, this`totalTokens, this`estimatedCost, this`stored,
               this`accepted
      ensures Valid() && Evolves(old(Shown()), Shown())
      ensures done <==> !Unavailable() && observation.spanId in known && persisted
      ensures stored == if done then old(stored) + [observation] else old(stored)
      ensures accepted == old(accepted) + if done then Tokens([observation]) else 0
      ensures recordedUsages == old(recordedUsages) + if done then Usages([observation]) else []
      ensures estimatedCost == old(estimatedCost) +
          if done && observation.Usage? && observation.cost.Some? && observation.cost.value > 0.0
          then observation.cost.value else 0.0
      ensures
        recordedToolCalls
        == old(recordedToolCalls)
           + if !Unavailable() && observation.spanId in known then ToolCalls([observation]) else []
    {
      hide Frozen, Pending, Cost;
      Single(observation);
      hide Tokens, Usages, ToolCalls;
      if Unavailable() || observation.spanId !in known {
        return false;
      }
      done := persisted;
      if persisted {
        stored := stored + [observation];
        accepted := accepted + Tokens([observation]);
      }
      if observation.Usage? && persisted {
        CountUsage(observation);
      } else if observation.ToolCall? {
        recordedToolCalls := recordedToolCalls + [observation];
      }
    }

    // record_llm_usage of an open span: true bills the usage once, to the span's account.
    method DeferLlmUsage(spanId: string, v: UsageValues) returns (done: bool)
      requires Valid()
      modifies this`deferred, this`accepted
      ensures Valid() && Evolves(old(Shown()), Shown())
      ensures done <==> Acceptable(spanId, v) && !finished && spanId in active
      ensures done ==> Billed(v) >= 0 && accepted == old(accepted) + Billed(v)
      ensures
        done ==>
        && spanId in old(deferred) && Billed(v) >= 0
        && deferred == old(deferred)[spanId := old(deferred)[spanId] + [Usage(spanId, v.model, Billed(v), v.cost)]]
      ensures !done ==> deferred == old(deferred) && accepted == old(accepted)
    {
      hide Evolves, Books, SpansFit, Balanced, Frozen;
      EvolvesNowhere();
      ActiveAreDeferred(active, known, deferred, issued, completedEvents, stored);
      var payload := UsagePayload(spanId, v);
      if payload == None {
        return false;
      }
      Single(payload.value);
      done := Defer(payload.value);
    }

    // record_llm_usage of the recorder: true bills the usage once, to the totals.
    method RecordLlmUsage(spanId: string, v: UsageValues, persisted: bool) returns (done: bool)
      requires Valid()
      modifies this`recordedUsages, this`recordedToolCalls, this`totalTokens, this`estimatedCost, this`stored,
               this`accepted
      ensures Valid() && Evolves(old(Shown()), Shown())
      ensures done <==> Acceptable(spanId, v) && !Unavailable() && spanId in known && persisted
      ensures totalTokens == old(totalTokens) + if done then Billed(v) else 0
      ensures estimatedCost == old(estimatedCost) +
          if done && v.cost.Some? && v.cost.value > 0.0 then v.cost.value else 0.0
      ensures
        done ==>
        && Billed(v) >= 0
        && recordedUsages == old(recordedUsages) + [Usage(spanId, v.model, Billed(v), v.cost)]
        && stored == old(stored) + [Usage(spanId, v.model, Billed(v), v.cost)]
      ensures recordedToolCalls == old(recordedToolCalls)
      ensures !done ==> recordedUsages == old(recordedUsages) && stored == old(stored)
    {
      hide Evolves, SpansFit, Pending, Frozen, Tokens, Usages, ToolCalls;
      EvolvesNowhere();
      var payload := UsagePayload(spanId, v);
      if payload == None {
        return false;
      }
      Single(payload.value);
      done := RecordDirectly(payload.value, persisted);
    }

    // The loop of _complete_span over the observations of a span, whose event the store has
    // accepted or not; answers(i) is the store's answer to observation i.
    method Flush(observations: seq<Observation>, spanPersisted: bool, answers: nat -> bool)
      requires Books()
      requires spanPersisted ==> forall o :: o in observations ==> o.spanId in known
      modifies this`recordedUsages, this`recordedToolCalls, this`totalTokens, this`estimatedCost, this`stored
      ensures Books()
      ensures recordedUsages == old(recordedUsages) + Usages(observations)
      ensures recordedToolCalls == old(recordedToolCalls) + ToolCalls(observations)
      ensures totalTokens == old(totalTokens) + Tokens(observations)
      ensures old(stored) <= stored && forall o :: o in stored ==> o in old(stored) || o.spanId in known
      ensures stored == old(stored) + if spanPersisted then Accepted(observations, answers) else []
    {
      hide Books, Tokens, Usages, ToolCalls, Cost, Accepted;
      var i := 0;
      NoObservations();
      assert Accepted(observations[..0], answers) == [] by {
        NoneAccepted(answers);
      }
      while i < |observations|
        invariant 0 <= i <= |observations|
        invariant Books()
        invariant recordedUsages == old(recordedUsages) + Usages(observations[..i])
        invariant recordedToolCalls == old(recordedToolCalls) + ToolCalls(observations[..i])
        invariant totalTokens == old(totalTokens) + Tokens(observations[..i])
        invariant old(stored) <= stored && forall o :: o in stored ==> o in old(stored) || o.spanId in known
        invariant stored == old(stored) + if spanPersisted then Accepted(observations[..i], answers) else []
      {
        AcceptedMore(observations, answers, i);
        AppendOne(observations[..i], observations[i]);
        assert observations[..i + 1] == observations[..i] + [observations[i]];
        if spanPersisted && answers(i) {
          stored := stored + [observations[i]];
        }
        if observations[i].Usage? {
          CountUsage(observations[i]);
        } else if observations[i].ToolCall? {
          recordedToolCalls := recordedToolCalls + [observations[i]];
        }
        i := i + 1;
      }
      assert observations[..i] == observations;
    }

    // _complete_span for an open span of a trace that is not finished.
    method FlushSpan(id: string, status: string, spanPersisted: bool, answers: nat -> bool)
      requires Valid() && !finished && id in active
      modifies this`active, this`known, this`deferred, this`completedEvents, this`recordedUsages,
               this`recordedToolCalls, this`totalTokens, this`estimatedCost, this`stored
      ensures Valid()
      ensures id in old(deferred) && active == old(active) - {id} && deferred == old(deferred) - {id}
      ensures completedEvents == old(completedEvents) + [SpanEvent(id, status)]
      ensures recordedUsages == old(recordedUsages) + Usages(old(deferred)[id])
      ensures recordedToolCalls == old(recordedToolCalls) + ToolCalls(old(deferred)[id])
      ensures known == old(known) + if spanPersisted then {id} else {}
      ensures stored == old(stored) + if spanPersisted then Accepted(old(deferred)[id], answers) else []
    {
      hide *;
      ValidParts();
      DeferredAreOwn(active, known, deferred, issued, completedEvents, stored, id);
      BalanceFlushed(accepted, totalTokens, deferred, lost, finished, id);
      completedEvents := completedEvents + [SpanEvent(id, status)];
      if spanPersisted {
        known := known + {id};
      }
      Flush(deferred[id], spanPersisted, answers);
      SpanFlushed(active, old(known), deferred, issued, old(completedEvents), old(stored), id, status, known, stored);
      active := active - {id};
      deferred := deferred - {id};
      PartsAreValid();
    }

    lemma ValidParts()
      requires Valid()
      ensures Books() && Phases() && Balanced(accepted, totalTokens, deferred, lost, finished)
      ensures SpansFit(active, known, deferred, issued, completedEvents, stored)
    {
      hide Books, Balanced, SpansFit, Settled, Phases;
    }

    lemma PartsAreValid()
      requires Books() && Phases() && Balanced(accepted, totalTokens, deferred, lost, finished) && !finished
      requires SpansFit(active, known, deferred, issued, completedEvents, stored)
      ensures Valid()
    {
      hide Books, Balanced, SpansFit, Settled, Phases;
    }

    // _complete_span: flushes the span's observations, unless the trace is finished. When
    // the span's own event cannot be finished, the call raises before the lock.
    method CompleteSpan(id: string, status: string, eventFinishes: bool, spanPersisted: bool, answers: nat -> bool)
        returns (raised: bool)
      requires Valid()
      modifies this`active, this`known, this`deferred, this`completedEvents, this`recordedUsages,
               this`recordedToolCalls, this`totalTokens, this`estimatedCost, this`stored, this`lost
      ensures Valid() && Evolves(old(Shown()), Shown())
      ensures raised == !eventFinishes
      ensures raised ==> Shown() == old(Shown()) && lost == old(lost)
      ensures raised ==> active == old(active) && deferred == old(deferred)
      ensures !raised ==> active == old(active) - {id} && deferred == old(deferred) - {id}
      ensures
        !raised && !finished && id in old(active) ==>
        && lost == old(lost)
        && completedEvents == old(completedEvents) + [SpanEvent(id, status)]
        && recordedUsages == old(recordedUsages) + Usages(old(deferred)[id])
        && recordedToolCalls == old(recordedToolCalls) + ToolCalls(old(deferred)[id])
        && known == old(known) + (if spanPersisted then {id} else {})
        && stored == old(stored) + if spanPersisted then Accepted(old(deferred)[id], answers) else []
      ensures
        !raised && (finished || id !in old(active)) ==>
        && Shown() == old(Shown()) && known == old(known)
        && lost == old(lost) + if id in old(active) then Tokens(old(deferred)[id]) else 0
    {
      hide Books, Pending, Tokens, Usages, ToolCalls, Frozen, SpansFit, Evolves;
      ActiveAreDeferred(active, known, deferred, issued, completedEvents, stored);
      raised := !eventFinishes;
      if raised {
        EvolvesNowhere();
      } else if finished || id !in active {
        EvolvesNowhere();
        PendingWithout(deferred, id);
        SpanDropped(active, known, deferred, issued, completedEvents, stored, id);
        lost := lost + if id in active then Tokens(deferred[id]) else 0;
        active := active - {id};
        deferred := deferred - {id};
      } else {
        FlushSpan(id, status, spanPersisted, answers);
        Grown(old(Shown()), Shown(), [SpanEvent(id, status)], Usages(old(deferred)[id]), ToolCalls(old(deferred)[id]));
      }
    }

    // ---- finish: three critical sections ----

    method BeginFinish() returns (mine: bool)
      requires Valid()
      modifies this`closing, this`finishes
      ensures Valid() && Evolves(old(Shown()), Shown())
      ensures mine == !old(Unavailable())
      ensures mine ==> closing && finishes == 1 && old(finishes) == 0
      ensures !mine ==> closing == old(closing)
    {
      mine := !Unavailable();
      if mine {
        closing := true;
        finishes := finishes + 1;
      }
    }

    // Spans have completed, or the wait has timed out: the wait ends with open spans only then.
    method EndFinish(summary: Summary, measured: real) returns (timedOut: bool)
      requires Valid() && closing
      modifies this`finished, this`closing, this`finalSummary, this`latency
      ensures Valid() && Evolves(old(Shown()), Shown())
      ensures finished && !closing
      ensures timedOut <==> active != {}
      ensures finalSummary == Closed(summary, totalTokens, estimatedCost, measured, |active|)
      // The summary given, with the three totals, and after a timeout what was left open.
      ensures LATENCY in finalSummary && finalSummary[LATENCY] == Amount(measured)
      ensures TOKENS in finalSummary && finalSummary[TOKENS] == Count(totalTokens)
      ensures COST in finalSummary && finalSummary[COST] == Amount(estimatedCost)
      ensures
        timedOut ==>
        && "trace_close_timeout" in finalSummary && finalSummary["trace_close_timeout"] == Flag(true)
        && "unfinished_span_count" in finalSummary && finalSummary["unfinished_span_count"] == Count(|active|)
      ensures
        forall k ::
          k !in [LATENCY, TOKENS, COST] && (timedOut ==> k !in ["trace_close_timeout", "unfinished_span_count"])
          ==> (k in finalSummary <==> k in summary) && (k in summary ==> finalSummary[k] == summary[k])
      // The total accounts for every accepted usage but those of spans still open; without a
      // timeout it is the total of all accepted usages.
      ensures totalTokens == accepted - Pending(deferred)
      ensures !timedOut ==> totalTokens == accepted
    {
      hide Books, Pending, Frozen, Tokens, SpansFit, Closed;
      ActiveAreDeferred(active, known, deferred, issued, completedEvents, stored);
      timedOut := active != {};
      finished, closing, latency := true, false, measured;
      finalSummary := Closed(summary, totalTokens, estimatedCost, measured, |active|);
      NonePending(deferred);
      ClosedFields(summary, totalTokens, estimatedCost, measured, |active|);
    }

    method NotePersisted(persisted: bool)
      requires Valid() && finished
      modifies this`finishPersisted
      ensures Valid() && Evolves(old(Shown()), Shown())
      ensures finishPersisted == persisted
    {
      finishPersisted := persisted;
    }

    // ---- update_final_summary: two critical sections ----

    method PrepareUpdate(summary: Summary) returns (values: Option<Summary>)
      requires Valid()
      modifies this`prepared
      ensures Valid() && Evolves(old(Shown()), Shown())
      ensures old(prepared) <= prepared && (values.Some? <==> finished && finishPersisted)
      ensures values.Some? ==> values.value in prepared && Frozen(values.value, totalTokens, estimatedCost, latency)
      ensures values.Some? ==> forall k :: k in summary && k !in [LATENCY, TOKENS, COST] ==>
          k in values.value && values.value[k] == summary[k]
      ensures values.Some? ==> forall k :: k in finalSummary && (k !in summary || k in [LATENCY, TOKENS, COST]) ==>
          k in values.value && values.value[k] == finalSummary[k]
      ensures values.Some? ==> values.value.Keys == finalSummary.Keys + summary.Keys
    {
      hide Books, SpansFit, Balanced, Updated, Frozen, Evolves;
      EvolvesNowhere();
      if !finished || !finishPersisted {
        return None;
      }
      UpdatedFields(finalSummary, summary, totalTokens, estimatedCost, latency);
      values := Some(Updated(finalSummary, summary));
      prepared := prepared + {values.value};
    }

    method CommitUpdate(values: Summary, persisted: bool) returns (done: bool)
      requires Valid() && values in prepared
      modifies this`finalSummary
      ensures Valid() && Evolves(old(Shown()), Shown())
      ensures done == persisted && finalSummary == if persisted then values else old(finalSummary)
      ensures Frozen(finalSummary, totalTokens, estimatedCost, latency)
    {
      if persisted {
        finalSummary := values;
      }
      done := persisted;
    }
  }

  // ---- Interleavings ----

  // The critical sections of the threads that share a recorder, with the answers of the
  // store. Commit(k) is the second section of the k-th update_final_summary that passed its
  // first one.
  datatype Section =
    | Start(id: string)
    | DeferOn(observation: Observation)
    | Record(observation: Observation, persisted: bool)
    | Complete(id: string, status: string, eventFinishes: bool, spanPersisted: bool, answers: nat -> bool)
    | Begin
    | End(summary: Summary, measured: real)
    | Note(persisted: bool)
    | Prepare(update: Summary)
    | Commit(k: nat, persisted: bool)

  // One section; one that is not enabled (a used span id, a second half without its first)
  // does nothing. `used` and `prepared` are what the threads know: the span ids drawn, and the
  // summaries to commit.
  method Perform(r: TraceRecorder, section: Section, used: set<string>, prepared: seq<Summary>)
          returns (used': set<string>, prepared': seq<Summary>)
    requires r.Valid() && r.issued <= used && forall s :: s in prepared ==> s in r.prepared
    modifies r
    ensures r.Valid() && Evolves(old(r.Shown()), r.Shown())
    ensures r.issued <= used' && forall s :: s in prepared' ==> s in r.prepared
  {
    hide Evolves, SpansFit, Balanced, Frozen;
    used', prepared' := used, prepared;
    r.EvolvesNowhere();
    match section {
      case Start(id) =>
        if id !in used {
          var open := r.StartSpan(id);
          used' := used + {id};
        }
      case DeferOn(observation) => var kept := r.Defer(observation);
      case Record(observation, persisted) => var done := r.RecordDirectly(observation, persisted);
      case Complete(id, status, eventFinishes, spanPersisted, answers) =>
        var raised := r.CompleteSpan(id, status, eventFinishes, spanPersisted, answers);
      case Begin => var mine := r.BeginFinish();
      case End(summary, measured) =>
        if r.closing {
          var timedOut := r.EndFinish(summary, measured);
        }
      case Note(persisted) =>
        if r.finished {
          r.NotePersisted(persisted);
        }
      case Prepare(update) =>
        var values := r.PrepareUpdate(update);
        if values.Some? {
          prepared' := prepared + [values.value];
        }
      case Commit(k, persisted) =>
        if k < |prepared| {
          var done := r.CommitUpdate(prepared[k], persisted);
        }
    }
  }

  // Any interleaving of sections on a new recorder: its states are a history, so at most one
  // finish takes effect and what is recorded stays as it was then.
  method Interleave(sections: seq<Section>) returns (r: TraceRecorder, ghost run: seq<Snapshot>)
    ensures r.Valid() && History(run) && |run| == |sections| + 1 && run[|run| - 1] == r.Shown()
    ensures !run[0].finished && run[0].finishes == 0 && r.finishes <= 1
    ensures forall k :: 0 <= k < |run| && run[k].finished ==> run[k] == r.Shown()
  {
    hide Evolves, SpansFit, Balanced, Frozen;
    r := new TraceRecorder();
    run := [r.Shown()];
    var used: set<string> := {};
    var prepared: seq<Summary> := [];
    for i := 0 to |sections|
      invariant r.Valid() && r.issued <= used && (forall s :: s in prepared ==> s in r.prepared) && fresh(r)
      invariant |run| == i + 1 && run[i] == r.Shown() && History(run)
      invariant !run[0].finished && run[0].finishes == 0
    {
      used, prepared := Perform(r, sections[i], used, prepared);
      run := run + [r.Shown()];
    }
    forall k | 0 <= k < |run| && run[k].finished ensures run[k] == r.Shown() {
      FinishedForGood(run, k);
    }
  }
}
