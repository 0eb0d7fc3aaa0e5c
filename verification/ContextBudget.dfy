/** The token budget of an agent's context window. */
module ContextBudget {
  import opened Collections
  import opened Options

  const SECTIONS := ["rag", "tool", "agent_output"]

  // MODE_FACTORS, in percent.
  const MODE_PERCENT := map["compact" := 25, "standard" := 60, "extended" := 100]

  datatype Profile = Profile(inputLimit: nat, historyMin: nat, historyMax: nat, caps: map<string, nat>,
          priority: seq<string>)

  // AGENT_CONTEXT_PROFILES
  const PROFILES := map[
    "knowledge" := Profile(28_000, 6_000, 12_000, map["rag" := 10_000, "tool" := 2_000], ["rag", "tool"]),
    "realtime" := Profile(28_000, 8_000, 16_000, map["rag" := 3_000, "tool" := 6_000], ["tool", "rag"]),
    "diagnosis" := Profile(112_000, 24_000, 64_000, map["rag" := 15_000, "tool" := 10_000], ["tool", "rag"]),
    "general" := Profile(64_000, 8_000, 32_000, map[], [])]

  function Requested(requested: map<string, int>, section: string): int {
    if section in requested then requested[section] else 0
  }

  function Cap(p: Profile, section: string): nat {
    if section in p.caps then p.caps[section] else 0
  }

  // The part of a request that its cap allows.
  function Allowed(p: Profile, requested: map<string, int>, section: string): nat {
    Min(Max(0, Requested(requested, section)), Cap(p, section))
  }

  function HistoryLimit(p: Profile, percent: nat): nat {
    Max(p.historyMin, p.historyMax * percent / 100)
  }

  function FixedPart(p: Profile, fixed: int): nat {
    Min(Max(0, fixed), p.inputLimit)
  }

  datatype Allocation = Allocation(
    history: int, sections: map<string, int>, unused: int, overflow: int, shortfall: int, dropped: map<string, int>)

  // Each section of the priority list is one of SECTIONS and listed once.
  predicate WellFormed(p: Profile) {
    && (forall i :: 0 <= i < |p.priority| ==> p.priority[i] in SECTIONS)
    && (forall i, j :: 0 <= i < j < |p.priority| ==> p.priority[i] != p.priority[j])
  }

  lemma ProfilesAreWellFormed(name: string)
    requires name in PROFILES
    ensures WellFormed(PROFILES[name])
  {
    var p := PROFILES[name];
    assert p.priority == ["rag", "tool"] || p.priority == ["tool", "rag"] || p.priority == [];
    assert "rag" == SECTIONS[0] && "tool" == SECTIONS[1];
  }

  function Sections(a: map<string, int>): int
    requires SectionKeys(a)
  {
    a["rag"] + a["tool"] + a["agent_output"]
  }

  predicate SectionKeys(a: map<string, int>) {
    a.Keys == {"rag", "tool", "agent_output"}
  }

  // ---- What an allocation must be, without saying how it is computed ----

  // Every token of the input limit has one use.
  ghost predicate Conserves(p: Profile, fixed: int, a: Allocation) {
    SectionKeys(a.sections) && FixedPart(p, fixed) + a.history + Sections(a.sections) + a.unused == p.inputLimit
  }

  ghost predicate WithinCaps(p: Profile, requested: map<string, int>, percent: nat, a: Allocation) {
    && SectionKeys(a.sections) && 0 <= a.unused && 0 <= a.history <= HistoryLimit(p, percent)
    && (forall s :: s in SECTIONS ==> 0 <= a.sections[s] <= if s in p.priority then Allowed(p, requested, s) else 0)
  }

  // A section short of what it may have leaves nothing to those after it, and nothing to the
  // history beyond its minimum; tokens stay unused only when everyone has all it may have.
  ghost predicate FollowsPriority(p: Profile, fixed: int, requested: map<string, int>, percent: nat, a: Allocation)
    requires WellFormed(p)
  {
    && SectionKeys(a.sections)
    && Min(p.historyMin, p.inputLimit - FixedPart(p, fixed)) <= a.history
    && (forall i :: 0 <= i < |p.priority| && a.sections[p.priority[i]] < Allowed(p, requested, p.priority[i]) ==>
          && (forall j :: i < j < |p.priority| ==> a.sections[p.priority[j]] == 0)
          && a.history == Min(p.historyMin, p.inputLimit - FixedPart(p, fixed)) && a.unused == 0)
    && (a.unused > 0 ==> a.history == HistoryLimit(p, percent))
  }

  // Nobody gets anything before the history has its minimum.
  ghost predicate HistoryFirst(p: Profile, fixed: int, a: Allocation) {
    SectionKeys(a.sections) && (a.history < p.historyMin ==> Sections(a.sections) == 0 && a.unused == 0)
  }

  ghost predicate Reports(p: Profile, fixed: int, requested: map<string, int>, a: Allocation) {
    && SectionKeys(a.sections) && SectionKeys(a.dropped)
    && a.overflow == Max(0, fixed - p.inputLimit) && a.shortfall == Max(0, p.historyMin - a.history)
    && (forall s :: s in SECTIONS ==> a.dropped[s] == Max(0, Requested(requested, s) - a.sections[s]))
  }

  ghost predicate Fair(p: Profile, fixed: int, requested: map<string, int>, percent: nat, a: Allocation)
    requires WellFormed(p)
  {
    && Conserves(p, fixed, a) && WithinCaps(p, requested, percent, a) && HistoryFirst(p, fixed, a)
    && FollowsPriority(p, fixed, requested, percent, a) && Reports(p, fixed, requested, a)
  }

  function Share(p: Profile, requested: map<string, int>, section: string): nat {
    if section in p.priority then Allowed(p, requested, section) else 0
  }

  // All that history and sections could be given.
  function Demand(p: Profile, requested: map<string, int>, percent: nat): nat {
    HistoryLimit(p, percent) + Share(p, requested, "rag") + Share(p, requested, "tool") +
        Share(p, requested, "agent_output")
  }

  // Work-conserving: what is given out is the whole demand, or all there is. So tokens stay
  // unused only when every listed request is met up to its cap and the history is at the
  // limit of its mode.
  lemma GivesOutAllThereIs(p: Profile, fixed: int, requested: map<string, int>, percent: nat, a: Allocation)
    requires WellFormed(p) && Fair(p, fixed, requested, percent, a)
    ensures
      SectionKeys(a.sections) &&
      a.history + Sections(a.sections) == Min(p.inputLimit - FixedPart(p, fixed), Demand(p, requested, percent))
    ensures
      a.unused > 0 ==>
      a.history == HistoryLimit(p, percent) && forall s :: s in SECTIONS ==> a.sections[s] == Share(p, requested, s)
  {
    hide Allowed, HistoryLimit, FixedPart;
    assert SECTIONS[0] == "rag" && SECTIONS[1] == "tool" && SECTIONS[2] == "agent_output";
    forall s | s in SECTIONS
      ensures a.sections[s] <= Share(p, requested, s) && (a.unused > 0 ==> a.sections[s] == Share(p, requested, s))
    {
      if s in p.priority {
        var i :| 0 <= i < |p.priority| && p.priority[i] == s;
      }
    }
  }

  // A section short of what it may have: no other allocation that agrees up to it gives less
  // to anyone else.
  lemma ShortSectionTakesAll(p: Profile, fixed: int, requested: map<string, int>, percent: nat, a: Allocation,
          b: Allocation, i: nat)
    requires WellFormed(p) && Fair(p, fixed, requested, percent, a) && Fair(p, fixed, requested, percent, b)
    requires i < |p.priority| && a.sections[p.priority[i]] < Allowed(p, requested, p.priority[i])
    requires forall k :: 0 <= k < i ==> a.sections[p.priority[k]] == b.sections[p.priority[k]]
    ensures a.unused == 0 && a.history <= b.history
    ensures forall s :: s in SECTIONS && s != p.priority[i] ==> a.sections[s] <= b.sections[s]
  {
    hide Allowed, HistoryLimit, Reports, HistoryFirst, Conserves;
    forall s | s in SECTIONS && s != p.priority[i] ensures a.sections[s] <= b.sections[s] {
      if s in p.priority {
        var k :| 0 <= k < |p.priority| && p.priority[k] == s;
      }
    }
  }

  // Up to the first section on which two allocations differ, neither can give less.
  lemma NeitherGivesLess(p: Profile, fixed: int, requested: map<string, int>, percent: nat, a: Allocation,
          b: Allocation, i: nat)
    requires WellFormed(p) && Fair(p, fixed, requested, percent, a) && Fair(p, fixed, requested, percent, b)
    requires i < |p.priority|
    requires forall k :: 0 <= k < i ==> a.sections[p.priority[k]] == b.sections[p.priority[k]]
    ensures a.sections[p.priority[i]] >= b.sections[p.priority[i]]
  {
    hide Allowed, HistoryLimit, Reports, HistoryFirst, FollowsPriority;
    var first := p.priority[i];
    assert first in SECTIONS && first in p.priority;
    SumGrows(a.sections, b.sections, first);
    if a.sections[first] < b.sections[first] {
      ShortSectionTakesAll(p, fixed, requested, percent, a, b, i);
    }
  }

  lemma SumGrows(a: map<string, int>, b: map<string, int>, first: string)
    requires SectionKeys(a) && SectionKeys(b) && first in SECTIONS
    ensures
      (forall s :: s in SECTIONS && s != first ==> a[s] <= b[s]) && a[first] < b[first] ==> Sections(a) < Sections(b)
  {
    assert SECTIONS[0] == "rag" && SECTIONS[1] == "tool" && SECTIONS[2] == "agent_output";
  }

  lemma SameShares(p: Profile, fixed: int, requested: map<string, int>, percent: nat, a: Allocation, b: Allocation)
    requires WellFormed(p) && Fair(p, fixed, requested, percent, a) && Fair(p, fixed, requested, percent, b)
    ensures a.sections == b.sections
  {
    hide Fair;
    FairKeys(p, fixed, requested, percent, a);
    FairKeys(p, fixed, requested, percent, b);
    var i := 0;
    while i < |p.priority|
      invariant 0 <= i <= |p.priority|
      invariant forall k :: 0 <= k < i ==> a.sections[p.priority[k]] == b.sections[p.priority[k]]
    {
      NeitherGivesLess(p, fixed, requested, percent, a, b, i);
      NeitherGivesLess(p, fixed, requested, percent, b, a, i);
      i := i + 1;
    }
    SameSections(a.sections, b.sections);
  }

  lemma FairKeys(p: Profile, fixed: int, requested: map<string, int>, percent: nat, a: Allocation)
    requires WellFormed(p) && Fair(p, fixed, requested, percent, a)
    ensures SectionKeys(a.sections) && forall s :: s in SECTIONS && s !in p.priority ==> a.sections[s] == 0
  {
  }

  // Fairness leaves no choice: it determines the whole allocation.
  lemma FairIsUnique(p: Profile, fixed: int, requested: map<string, int>, percent: nat, a: Allocation, b: Allocation)
    requires WellFormed(p) && Fair(p, fixed, requested, percent, a) && Fair(p, fixed, requested, percent, b)
    ensures a == b
  {
    SameShares(p, fixed, requested, percent, a, b);
    SameSections(a.dropped, b.dropped);
  }

  lemma SameSections(a: map<string, int>, b: map<string, int>)
    requires SectionKeys(a) && SectionKeys(b)
    ensures (forall s :: s in SECTIONS ==> a[s] == b[s]) ==> a == b
  {
    assert SECTIONS[0] == "rag" && SECTIONS[1] == "tool" && SECTIONS[2] == "agent_output";
  }

  // What a fair allocation means for each section and the history, by the numbers of the profile
  // and of the request.
  lemma FairInNumbers(p: Profile, fixed: int, requested: map<string, int>, percent: nat, a: Allocation)
    requires WellFormed(p) && Fair(p, fixed, requested, percent, a)
    ensures a.sections.Keys == a.dropped.Keys == {"rag", "tool", "agent_output"}
    // No section gets more than its cap or its request, none that is not listed gets anything.
    ensures forall s :: s in a.sections ==>
              && 0 <= a.sections[s] && (s !in p.priority || s !in p.caps || s !in requested ==> a.sections[s] == 0)
              && (s in p.caps ==> a.sections[s] <= p.caps[s])
              && (s in requested ==> a.sections[s] <= if requested[s] > 0 then requested[s] else 0)
    // The history stays within its minimum or its mode's share of the maximum.
    ensures 0 <= a.history && (a.history <= p.historyMin || 100 * a.history <= p.historyMax * percent)
    // Every token of the limit has one use.
    ensures
      var kept := if fixed <= 0 then 0 else if fixed < p.inputLimit then fixed else p.inputLimit;
      kept + a.history + a.sections["rag"] + a.sections["tool"] + a.sections["agent_output"] + a.unused == p.inputLimit
    // A listed section below its cap and its request: no later one gets anything, the history
    // has its minimum or all there was, and nothing is unused.
    ensures forall i :: 0 <= i < |p.priority| && Short(p, requested, a, p.priority[i]) ==>
              && a.unused == 0 && a.history <= p.historyMin
              && forall j :: i < j < |p.priority| ==> p.priority[j] in a.sections && a.sections[p.priority[j]] == 0
    ensures a.history < p.historyMin ==>
              a.unused == 0 && a.sections["rag"] == a.sections["tool"] == a.sections["agent_output"] == 0
    // Tokens stay unused only when the history is at its limit.
    ensures a.unused > 0 ==> a.history >= p.historyMin && 100 * (a.history + 1) > p.historyMax * percent
    ensures a.overflow == if fixed > p.inputLimit then fixed - p.inputLimit else 0
    ensures a.shortfall == if a.history < p.historyMin then p.historyMin - a.history else 0
    ensures forall s :: s in a.dropped ==>
              a.dropped[s] == if s in requested && requested[s] > a.sections[s] then requested[s] - a.sections[s] else 0
  {
    assert SECTIONS[0] == "rag" && SECTIONS[1] == "tool" && SECTIONS[2] == "agent_output";
    assert forall s :: s in a.sections ==> s in SECTIONS;
    HistoryShare(p, percent);
  }

  // Below its cap and its request.
  predicate Short(p: Profile, requested: map<string, int>, a: Allocation, s: string) {
    s in p.caps && s in requested && s in a.sections && a.sections[s] < p.caps[s] && a.sections[s] < requested[s]
  }

  lemma HistoryShare(p: Profile, percent: nat)
    ensures
      var limit := HistoryLimit(p, percent);
      && limit >= p.historyMin && (limit == p.historyMin || 100 * limit <= p.historyMax * percent)
      && 100 * (limit + 1) > p.historyMax * percent
  {
  }

  datatype Result = Allocated(allocation: Allocation) | UnknownAgent | UnknownMode

  method Allocate(agent: string, fixed: int, requested: map<string, int>, mode: string) returns (r: Result)
    ensures r == UnknownAgent <==> agent !in PROFILES
    ensures r == UnknownMode <==> agent in PROFILES && mode !in MODE_PERCENT
    ensures r.Allocated? ==>
        WellFormed(PROFILES[agent]) && Fair(PROFILES[agent], fixed, requested, MODE_PERCENT[mode], r.allocation)
  {
    if agent !in PROFILES {
      return UnknownAgent;
    }
    if mode !in MODE_PERCENT {
      return UnknownMode;
    }
    ProfilesAreWellFormed(agent);
    var a := AllocateProfile(PROFILES[agent], fixed, requested, MODE_PERCENT[mode]);
    r := Allocated(a);
  }

  // Section i of the priority list has had its turn: available is what is left.
  ghost predicate Turn(p: Profile, requested: map<string, int>, sections: map<string, int>, i: nat, start: nat,
          available: int)
    requires WellFormed(p) && i <= |p.priority|
  {
    && SectionKeys(sections) && available >= 0 && Sections(sections) + available == start
    && Granted(p, requested, sections, i) && Served(p, requested, sections, i, available)
  }

  ghost predicate Granted(p: Profile, requested: map<string, int>, sections: map<string, int>, i: nat)
    requires WellFormed(p) && i <= |p.priority| && SectionKeys(sections)
  {
    && (forall s :: s in SECTIONS && s !in p.priority[..i] ==> sections[s] == 0)
    && (forall k :: 0 <= k < i ==> 0 <= sections[p.priority[k]] <= Allowed(p, requested, p.priority[k]))
  }

  ghost predicate Served(p: Profile, requested: map<string, int>, sections: map<string, int>, i: nat, available: int)
    requires WellFormed(p) && i <= |p.priority| && SectionKeys(sections)
  {
    forall k :: 0 <= k < i && sections[p.priority[k]] < Allowed(p, requested, p.priority[k]) ==>
      available == 0 && forall j :: k < j < i ==> sections[p.priority[j]] == 0
  }

  lemma TurnStarts(p: Profile, requested: map<string, int>, start: nat)
    requires WellFormed(p)
    ensures Turn(p, requested, map["rag" := 0, "tool" := 0, "agent_output" := 0], 0, start, start)
  {
  }

  lemma TurnKeys(p: Profile, requested: map<string, int>, sections: map<string, int>, i: nat, start: nat,
          available: int)
    requires WellFormed(p) && i <= |p.priority| && Turn(p, requested, sections, i, start, available)
    ensures SectionKeys(sections) && available >= 0
  {
  }

  lemma Grant(sections: map<string, int>, s: string, granted: int)
    requires SectionKeys(sections) && s in sections && sections[s] == 0
    ensures SectionKeys(sections[s := granted]) && Sections(sections[s := granted]) == Sections(sections) + granted
  {
  }

  lemma NextGranted(p: Profile, requested: map<string, int>, sections: map<string, int>, i: nat, granted: int)
    requires WellFormed(p) && i < |p.priority| && SectionKeys(sections) && Granted(p, requested, sections, i)
    requires 0 <= granted <= Allowed(p, requested, p.priority[i])
    ensures p.priority[i] in sections && sections[p.priority[i]] == 0
    ensures SectionKeys(sections[p.priority[i] := granted]) &&
        Granted(p, requested, sections[p.priority[i] := granted], i + 1)
  {
    hide Allowed;
    assert p.priority[i] !in p.priority[..i];
    assert p.priority[..i + 1] == p.priority[..i] + [p.priority[i]];
  }

  lemma NextServed(p: Profile, requested: map<string, int>, sections: map<string, int>, i: nat, available: int,
          granted: int)
    requires WellFormed(p) && i < |p.priority| && SectionKeys(sections) && Served(p, requested, sections, i, available)
    requires SectionKeys(sections[p.priority[i] := granted]) && available >= 0
    requires granted == Min(Allowed(p, requested, p.priority[i]), available)
    ensures Served(p, requested, sections[p.priority[i] := granted], i + 1, available - granted)
  {
    hide Allowed;
    var after := sections[p.priority[i] := granted];
    forall k | 0 <= k < i ensures after[p.priority[k]] == sections[p.priority[k]] {
    }
  }

  lemma NextTurn(p: Profile, requested: map<string, int>, sections: map<string, int>, i: nat, start: nat,
          available: int)
    requires WellFormed(p) && i < |p.priority| && Turn(p, requested, sections, i, start, available)
    ensures
      var granted := Min(Allowed(p, requested, p.priority[i]), available);
      Turn(p, requested, sections[p.priority[i] := granted], i + 1, start, available - granted)
  {
    hide Allowed, Sections, Granted, Served, SectionKeys, WellFormed;
    var granted := Min(Allowed(p, requested, p.priority[i]), available);
    NextGranted(p, requested, sections, i, granted);
    NextServed(p, requested, sections, i, available, granted);
    Grant(sections, p.priority[i], granted);
  }

  function Dropped(requested: map<string, int>, sections: map<string, int>): (r: map<string, int>)
    requires SectionKeys(sections)
    ensures SectionKeys(r) && forall s :: s in SECTIONS ==> r[s] == Max(0, Requested(requested, s) - sections[s])
  {
    map s | s in sections :: Max(0, Requested(requested, s) - sections[s])
  }

  method AllocateProfile(p: Profile, fixed: int, requested: map<string, int>, percent: nat) returns (a: Allocation)
    requires WellFormed(p)
    ensures Fair(p, fixed, requested, percent, a)
  {
    hide Fair, Sections, Requested, Turn, WellFormed;
    var available := Max(0, p.inputLimit - Max(0, fixed));
    var historyLimit := Max(p.historyMin, p.historyMax * percent / 100);
    var history := Min(p.historyMin, available);
    available := available - history;
    ghost var start: nat := available;
    var sections: map<string, int> := map["rag" := 0, "tool" := 0, "agent_output" := 0];
    TurnStarts(p, requested, start);
    var i := 0;
    while i < |p.priority|
      invariant 0 <= i <= |p.priority| && Turn(p, requested, sections, i, start, available)
    {
      NextTurn(p, requested, sections, i, start, available);
      var s := p.priority[i];
      var wanted := Max(0, Requested(requested, s));
      var granted := Min(Min(wanted, Cap(p, s)), available);
      sections := sections[s := granted];
      available := available - granted;
      i := i + 1;
    }
    TurnKeys(p, requested, sections, i, start, available);
    var extra := Min(historyLimit - history, available);
    a := Allocation(history + extra, sections, available - extra, Max(0, fixed - p.inputLimit),
        Max(0, p.historyMin - history - extra), Dropped(requested, sections));
    LastTurn(p, fixed, requested, percent, sections, history, available, a);
  }

  lemma LastTurn(p: Profile, fixed: int, requested: map<string, int>, percent: nat, sections: map<string, int>,
          history: nat, available: nat, a: Allocation)
    requires WellFormed(p) && history == Min(p.historyMin, p.inputLimit - FixedPart(p, fixed))
    requires Turn(p, requested, sections, |p.priority|, p.inputLimit - FixedPart(p, fixed) - history, available)
    requires a.sections == sections && a.history == history + Min(HistoryLimit(p, percent) - history, available)
    requires a.unused == available + history - a.history
    requires Reports(p, fixed, requested, a)
    ensures Fair(p, fixed, requested, percent, a)
  {
    assert p.priority[..|p.priority|] == p.priority;
    forall s | s in SECTIONS ensures 0 <= sections[s] <= if s in p.priority then Allowed(p, requested, s) else 0 {
      if s in p.priority {
        var k :| 0 <= k < |p.priority| && p.priority[k] == s;
      }
    }
  }

  // ---- The configured windows ----

  // More than any section may have.
  const ASKED := map["rag" := 200_000, "tool" := 200_000, "agent_output" := 200_000]

  // What an agent of this name gets when everything is asked for: the history and its two sections.
  ghost predicate Gets(agent: string, fixed: int, mode: string, history: int, rag: int, tool: int, unused: int) {
    agent in PROFILES && mode in MODE_PERCENT && WellFormed(PROFILES[agent]) &&
    forall a :: Fair(PROFILES[agent], fixed, ASKED, MODE_PERCENT[mode], a) ==>
      && SectionKeys(a.sections) && a.history == history && a.sections["rag"] == rag && a.sections["tool"] == tool
      && a.sections["agent_output"] == 0 && a.unused == unused
  }

  lemma KnowledgeStandardWindow()
    ensures Gets("knowledge", 0, "standard", 7_200, 10_000, 2_000, 8_800)
  {
    ProfilesAreWellFormed("knowledge");
  }

  lemma KnowledgeWindow()
    ensures Gets("knowledge", 0, "extended", 12_000, 10_000, 2_000, 4_000)
  {
    ProfilesAreWellFormed("knowledge");
  }

  lemma KnowledgeTightWindow()
    ensures Gets("knowledge", 12_000, "extended", 6_000, 10_000, 0, 0)
  {
    ProfilesAreWellFormed("knowledge");
  }

  lemma RealtimeWindow()
    ensures Gets("realtime", 0, "extended", 16_000, 3_000, 6_000, 3_000)
  {
    ProfilesAreWellFormed("realtime");
  }

  lemma RealtimeTightWindow()
    ensures Gets("realtime", 14_000, "extended", 8_000, 0, 6_000, 0)
  {
    ProfilesAreWellFormed("realtime");
  }

  lemma DiagnosisWindow()
    ensures Gets("diagnosis", 0, "extended", 64_000, 15_000, 10_000, 23_000)
  {
    ProfilesAreWellFormed("diagnosis");
  }

  lemma DiagnosisTightWindow()
    ensures Gets("diagnosis", 78_000, "compact", 24_000, 0, 10_000, 0)
  {
    ProfilesAreWellFormed("diagnosis");
  }

  lemma GeneralWindow()
    ensures Gets("general", 0, "extended", 32_000, 0, 0, 32_000)
  {
    ProfilesAreWellFormed("general");
  }

  lemma GeneralTightWindow()
    ensures Gets("general", 0, "compact", 8_000, 0, 0, 56_000)
  {
    ProfilesAreWellFormed("general");
  }
}
