/** An agent's context window: recent rounds in full, older history as far as it fits. */
module ContextAssembly {
  import opened Collections
  import opened Options
  import opened Ordering
  import opened ContextBudget

  datatype Message = Message(human: bool, content: string, roundId: Option<string>, roundNumber: int)
  type Round = seq<Message>

  datatype Summary = Summary(roundId: string, roundNumber: int, text: string)

  // A candidate line of history and the listed summary or round it comes from.
  datatype Origin = OfSummary(index: nat) | OfRound(index: nat)
  datatype Entry = Entry(number: int, text: string, origin: Origin)

  const KEEP_ROUNDS := 6

  // ---- Rounds ----

  ghost function Flatten(rounds: seq<Round>): seq<Message> {
    if rounds == [] then [] else Flatten(rounds[..|rounds| - 1]) + rounds[|rounds| - 1]
  }

  ghost function Humans(messages: seq<Message>): nat {
    if messages == [] then 0
    else Humans(messages[..|messages| - 1]) + if messages[|messages| - 1].human then 1 else 0
  }

  // The rounds are the messages, cut before every human message but the first.
  ghost predicate Grouped(messages: seq<Message>, rounds: seq<Round>) {
    && Flatten(rounds) == messages
    && (forall k :: 0 <= k < |rounds| ==>
        rounds[k] != [] && Humans(rounds[k]) == if Humans(messages) == 0 then 0 else 1)
    && (forall k :: 1 <= k < |rounds| ==> rounds[k][0].human)
    && (Humans(messages) == 0 ==> |rounds| <= 1)
  }

  lemma {:induction false} CountHumans(messages: seq<Message>, only: int)
    requires forall i :: 0 <= i < |messages| ==> (messages[i].human <==> i == only)
    ensures Humans(messages) == if 0 <= only < |messages| then 1 else 0
  {
    if messages != [] {
      CountHumans(messages[..|messages| - 1], only);
    }
  }

  lemma {:induction false} SomeHuman(messages: seq<Message>, i: nat)
    requires i < |messages| && messages[i].human
    ensures Humans(messages) > 0
  {
    if i < |messages| - 1 {
      SomeHuman(messages[..|messages| - 1], i);
    }
  }

  // The list comprehension of the positions of human messages.
  method HumanPositions(messages: seq<Message>) returns (positions: seq<nat>)
    ensures forall k :: 0 <= k < |positions| ==> positions[k] < |messages| && messages[positions[k]].human
    ensures forall k, l :: 0 <= k < l < |positions| ==> positions[k] < positions[l]
    ensures forall i :: 0 <= i < |messages| && messages[i].human ==> i in positions
  {
    positions := [];
    var i := 0;
    while i < |messages|
      invariant 0 <= i <= |messages|
      invariant forall k :: 0 <= k < |positions| ==> positions[k] < i && messages[positions[k]].human
      invariant forall k, l :: 0 <= k < l < |positions| ==> positions[k] < positions[l]
      invariant forall j :: 0 <= j < i && messages[j].human ==> j in positions
    {
      if messages[i].human {
        positions := positions + [i];
      }
      i := i + 1;
    }
  }

  lemma OneHuman(messages: seq<Message>, positions: seq<nat>, k: nat, start: nat, end: nat)
    requires k < |positions| && start <= positions[k] < end <= |messages|
    requires forall i :: 0 <= i < |messages| ==> (messages[i].human <==> i in positions)
    requires forall i, j :: 0 <= i < j < |positions| ==> positions[i] < positions[j]
    requires k > 0 ==> start > positions[k - 1]
    requires k + 1 < |positions| ==> end <= positions[k + 1]
    ensures Humans(messages[start..end]) == 1
  {
    forall i | 0 <= i < end - start ensures messages[start..end][i].human <==> i == positions[k] - start {
      if messages[start + i].human {
        var l :| 0 <= l < |positions| && positions[l] == start + i;
      }
    }
    CountHumans(messages[start..end], positions[k] - start);
  }

  // The messages before `reached` are cut into rounds of one human message each.
  ghost predicate CutUpTo(messages: seq<Message>, rounds: seq<Round>, reached: nat)
    requires reached <= |messages|
  {
    && Flatten(rounds) == messages[..reached]
    && (forall k :: 0 <= k < |rounds| ==> rounds[k] != [] && Humans(rounds[k]) == 1)
    && (forall k :: 1 <= k < |rounds| ==> rounds[k][0].human)
  }

  lemma CutOneMore(messages: seq<Message>, rounds: seq<Round>, start: nat, end: nat)
    requires start < end <= |messages| && CutUpTo(messages, rounds, start)
    requires Humans(messages[start..end]) == 1 && (rounds != [] ==> messages[start].human)
    ensures CutUpTo(messages, rounds + [messages[start..end]], end)
  {
    hide Humans;
    assert messages[..end] == messages[..start] + messages[start..end];
    assert (rounds + [messages[start..end]])[..|rounds|] == rounds;
  }

  lemma AllCut(messages: seq<Message>, rounds: seq<Round>, i: nat)
    requires CutUpTo(messages, rounds, |messages|) && i < |messages| && messages[i].human
    ensures Grouped(messages, rounds)
  {
    SomeHuman(messages, i);
    assert messages[..|messages|] == messages;
  }

  // Without human messages, all messages are one round.
  lemma NoHumans(messages: seq<Message>)
    requires forall i :: 0 <= i < |messages| ==> !messages[i].human
    ensures Grouped(messages, if messages == [] then [] else [messages])
  {
    CountHumans(messages, -1);
    if messages != [] {
      assert Flatten([messages]) == messages;
    }
  }

  // group_rounds
  method GroupRounds(messages: seq<Message>) returns (rounds: seq<Round>)
    ensures Grouped(messages, rounds)
  {
    hide Grouped, CutUpTo, Humans, Flatten;
    var positions := HumanPositions(messages);
    if positions == [] {
      NoHumans(messages);
      return if messages == [] then [] else [messages];
    }
    rounds := [];
    NothingCut(messages);
    var k, reached := 0, 0;
    while k < |positions|
      invariant 0 <= k <= |positions| && |rounds| == k
      invariant reached == if k == 0 then 0 else if k < |positions| then positions[k] else |messages|
      invariant CutUpTo(messages, rounds, reached)
    {
      var start := if k == 0 then 0 else positions[k];
      var end := if k + 1 < |positions| then positions[k + 1] else |messages|;
      OneHuman(messages, positions, k, start, end);
      CutOneMore(messages, rounds, start, end);
      rounds := rounds + [messages[start..end]];
      reached := end;
      k := k + 1;
    }
    AllCut(messages, rounds, positions[0]);
  }

  lemma NothingCut(messages: seq<Message>)
    ensures CutUpTo(messages, [], 0)
  {
  }

  // ---- Recent rounds ----

  function Size(count: string -> nat, round: Round): nat {
    if round == [] then 0 else Size(count, round[..|round| - 1]) + 4 + count(round[|round| - 1].content)
  }

  // Four tokens for each message beside its content.
  lemma {:induction false} SizeOfMessages(count: string -> nat, round: Round)
    ensures round == [] ==> Size(count, round) == 0
    ensures forall m :: round == [m] ==> Size(count, round) == count(m.content) + 4
    ensures forall i :: 0 <= i <= |round| ==> Size(count, round) == Size(count, round[..i]) + Size(count, round[i..])
  {
    if round != [] {
      var front, last := round[..|round| - 1], round[|round| - 1];
      SizeOfMessages(count, front);
      forall i | 0 <= i <= |round|
        ensures Size(count, round) == Size(count, round[..i]) + Size(count, round[i..])
      {
        if i < |round| {
          assert round[..i] == front[..i] && round[i..][..|round| - i - 1] == front[i..];
        } else {
          assert round[..i] == round && round[i..] == [];
        }
      }
      assert |round| == 1 ==> round[..0] == [];
    }
  }

  // Going from the newest round to the oldest: round i is kept when it is the newest or fits
  // beside the newer rounds kept.
  predicate Keeps(count: string -> nat, recent: seq<Round>, budget: int, i: nat)
    requires i < |recent|
    decreases |recent| - i, 0
  {
    i == |recent| - 1 || UsedFrom(count, recent, budget, i + 1) + Size(count, recent[i]) <= budget
  }

  function UsedFrom(count: string -> nat, recent: seq<Round>, budget: int, i: nat): nat
    requires i <= |recent|
    decreases |recent| - i, 1
  {
    if i == |recent| then 0
    else UsedFrom(count, recent, budget, i + 1) + if Keeps(count, recent, budget, i) then Size(count, recent[i]) else 0
  }

  function Kept(count: string -> nat, recent: seq<Round>, budget: int, i: nat): seq<Round>
    requires i <= |recent|
    decreases |recent| - i
  {
    if i == |recent| then []
    else (if Keeps(count, recent, budget, i) then [recent[i]] else []) + Kept(count, recent, budget, i + 1)
  }

  // The newest round is always shown; otherwise the budget holds.
  lemma {:induction false} RecentFits(count: string -> nat, recent: seq<Round>, budget: int, i: nat)
    requires i < |recent|
    ensures
      var newest := Size(count, recent[|recent| - 1]);
      newest <= UsedFrom(count, recent, budget, i) <= Max(budget, newest)
    decreases |recent| - i
  {
    hide Size;
    if i == |recent| - 1 {
      assert UsedFrom(count, recent, budget, i + 1) == 0;
    } else {
      RecentFits(count, recent, budget, i + 1);
    }
  }

  lemma {:induction false} NewestIsShown(count: string -> nat, recent: seq<Round>, budget: int, i: nat)
    requires i < |recent|
    ensures var kept := Kept(count, recent, budget, i); kept != [] && kept[|kept| - 1] == recent[|recent| - 1]
    decreases |recent| - i
  {
    hide Size, UsedFrom, Keeps, Kept;
    KeptStep(count, recent, budget, i);
    if i < |recent| - 1 {
      NewestIsShown(count, recent, budget, i + 1);
    }
  }

  lemma KeptStep(count: string -> nat, recent: seq<Round>, budget: int, i: nat)
    requires i < |recent|
    ensures
      Kept(count, recent, budget, i)
      == (if Keeps(count, recent, budget, i) then [recent[i]] else []) + Kept(count, recent, budget, i + 1)
    ensures i == |recent| - 1 ==> Keeps(count, recent, budget, i) && Kept(count, recent, budget, i + 1) == []
  {
    hide Size, UsedFrom;
  }

  lemma {:induction false} UsedIsSize(count: string -> nat, recent: seq<Round>, budget: int, i: nat)
    requires i <= |recent|
    ensures UsedFrom(count, recent, budget, i) == TotalSize(count, Kept(count, recent, budget, i))
    ensures forall r :: r in Kept(count, recent, budget, i) ==> r in recent
    decreases |recent| - i
  {
    if i < |recent| {
      UsedIsSize(count, recent, budget, i + 1);
      var newer := Kept(count, recent, budget, i + 1);
      if Keeps(count, recent, budget, i) {
        assert Kept(count, recent, budget, i) == [recent[i]] + newer && ([recent[i]] + newer)[1..] == newer;
      } else {
        assert Kept(count, recent, budget, i) == newer;
      }
    }
  }

  function TotalSize(count: string -> nat, rounds: seq<Round>): nat {
    if rounds == [] then 0 else Size(count, rounds[0]) + TotalSize(count, rounds[1..])
  }

  // A newest round beyond the budget is shown alone.
  lemma {:induction false} OversizedStandsAlone(count: string -> nat, recent: seq<Round>, budget: int, i: nat)
    requires i < |recent| && Size(count, recent[|recent| - 1]) > budget
    ensures Kept(count, recent, budget, i) == [recent[|recent| - 1]]
    decreases |recent| - i
  {
    if i < |recent| - 1 {
      OversizedStandsAlone(count, recent, budget, i + 1);
      RecentFits(count, recent, budget, i + 1);
    }
  }

  method SelectRecent(count: string -> nat, recent: seq<Round>, budget: int) returns (selected: seq<Round>, used: nat)
    ensures selected == Kept(count, recent, budget, 0) && used == UsedFrom(count, recent, budget, 0)
  {
    selected, used := [], 0;
    var i := |recent|;
    while i > 0
      invariant 0 <= i <= |recent|
      invariant selected == Kept(count, recent, budget, i) && used == UsedFrom(count, recent, budget, i)
    {
      if i < |recent| {
        NewestIsShown(count, recent, budget, i);
      }
      i := i - 1;
      var size := Size(count, recent[i]);
      if selected == [] || used + size <= budget {
        selected := [recent[i]] + selected;
        used := used + size;
      }
    }
  }

  // ---- Older history ----

  predicate EntryLeq(a: Entry, b: Entry) {
    a.number < b.number || (a.number == b.number && LexLeq(a.text, b.text))
  }

  predicate EntryGeq(a: Entry, b: Entry) {
    EntryLeq(b, a)
  }

  lemma EntryOrders()
    ensures Total(EntryLeq) && Transitive(EntryLeq) && Total(EntryGeq) && Transitive(EntryGeq)
  {
    forall a: Entry, b: Entry ensures EntryLeq(a, b) || EntryLeq(b, a) {
      LexTotal(a.text, b.text);
    }
    forall a: Entry, b: Entry, c: Entry | EntryLeq(a, b) && EntryLeq(b, c) ensures EntryLeq(a, c) {
      if a.number == b.number == c.number {
        LexTransitive(a.text, b.text, c.text);
      }
    }
  }

  function Filled(count: string -> nat, entries: seq<Entry>, remaining: nat): seq<Entry> {
    if entries == [] then []
    else if count(entries[0].text) > remaining then Filled(count, entries[1..], remaining)
    else [entries[0]] + Filled(count, entries[1..], remaining - count(entries[0].text))
  }

  function TextSize(count: string -> nat, entries: seq<Entry>): nat {
    if entries == [] then 0 else count(entries[0].text) + TextSize(count, entries[1..])
  }

  // What is filled in fits, and no entry left out would still fit into what remains.
  lemma {:induction false} FillIsMaximal(count: string -> nat, entries: seq<Entry>, remaining: nat)
    ensures TextSize(count, Filled(count, entries, remaining)) <= remaining
    ensures multiset(Filled(count, entries, remaining)) <= multiset(entries)
    ensures forall e :: multiset(entries)[e] > multiset(Filled(count, entries, remaining))[e] ==>
              count(e.text) > remaining - TextSize(count, Filled(count, entries, remaining))
  {
    if entries != [] {
      assert entries == [entries[0]] + entries[1..];
      var size := count(entries[0].text);
      if size > remaining {
        FillIsMaximal(count, entries[1..], remaining);
      } else {
        FillIsMaximal(count, entries[1..], remaining - size);
        var rest := Filled(count, entries[1..], remaining - size);
        assert Filled(count, entries, remaining) == [entries[0]] + rest && ([entries[0]] + rest)[1..] == rest;
      }
    }
  }

  // Of a higher number, or of the same and no earlier text.
  predicate NotOlder(h: Entry, e: Entry) {
    h.number > e.number || (h.number == e.number && LexLeq(e.text, h.text))
  }

  ghost function FromOn(entries: seq<Entry>, e: Entry): seq<Entry> {
    if entries == [] then []
    else
      var last := entries[|entries| - 1];
      FromOn(entries[..|entries| - 1], e) + if NotOlder(last, e) then [last] else []
  }

  lemma {:induction false} FromOnCounts(entries: seq<Entry>, e: Entry, h: Entry)
    ensures multiset(FromOn(entries, e))[h] == if NotOlder(h, e) then multiset(entries)[h] else 0
  {
    if entries != [] {
      FromOnCounts(entries[..|entries| - 1], e, h);
      assert entries == entries[..|entries| - 1] + [entries[|entries| - 1]];
    }
  }

  lemma FromOnPermutes(a: seq<Entry>, b: seq<Entry>, e: Entry)
    requires multiset(a) == multiset(b)
    ensures multiset(FromOn(a, e)) == multiset(FromOn(b, e))
  {
    forall h ensures multiset(FromOn(a, e))[h] == multiset(FromOn(b, e))[h] {
      FromOnCounts(a, e, h);
      FromOnCounts(b, e, h);
    }
  }

  lemma {:induction false} FromOnFirst(x: Entry, rest: seq<Entry>, e: Entry)
    requires NotOlder(x, e)
    ensures FromOn([x] + rest, e) == [x] + FromOn(rest, e)
  {
    hide NotOlder, FromOn;
    if rest == [] {
      FromOnLast([], x, e);
      assert [x] + rest == [] + [x];
    } else {
      var front, last := rest[..|rest| - 1], rest[|rest| - 1];
      FromOnFirst(x, front, e);
      FromOnLast([x] + front, last, e);
      FromOnLast(front, last, e);
      assert [x] + rest == ([x] + front) + [last] && rest == front + [last];
      assert [x] + (FromOn(front, e) + [last]) == ([x] + FromOn(front, e)) + [last];
    }
  }

  lemma FromOnLast(entries: seq<Entry>, last: Entry, e: Entry)
    ensures FromOn(entries + [last], e) == if NotOlder(last, e) then FromOn(entries, e) + [last] else FromOn(entries, e)
    ensures FromOn([], e) == []
  {
    hide NotOlder;
    assert (entries + [last])[..|entries|] == entries;
  }

  // The newest come first: an entry is left out only when it does not fit beside the chosen
  // ones that are not older.
  lemma {:induction false} NewestAreFilledFirst(count: string -> nat, entries: seq<Entry>, remaining: nat, e: Entry)
    requires SortedBy(entries, EntryGeq) && e in entries && e !in Filled(count, entries, remaining)
    ensures count(e.text) + TextSize(count, FromOn(Filled(count, entries, remaining), e)) > remaining
  {
    var first, rest := entries[0], entries[1..];
    if first != e {
      assert e in rest;
      var i :| 0 <= i < |rest| && rest[i] == e;
      assert EntryGeq(entries[0], entries[i + 1]);
      RestSorted(entries);
      if count(first.text) > remaining {
        NewestAreFilledFirst(count, rest, remaining, e);
      } else {
        var filled := Filled(count, rest, remaining - count(first.text));
        NewestAreFilledFirst(count, rest, remaining - count(first.text), e);
        FromOnFirst(first, filled, e);
        assert ([first] + FromOn(filled, e))[1..] == FromOn(filled, e);
      }
    }
  }

  lemma RestSorted(entries: seq<Entry>)
    requires SortedBy(entries, EntryGeq) && entries != []
    ensures SortedBy(entries[1..], EntryGeq)
  {
  }

  method FillHistory(count: string -> nat, entries: seq<Entry>, budget: nat) returns (selected: seq<Entry>,
          remaining: nat)
    ensures selected == Filled(count, entries, budget) && remaining == budget - TextSize(count, selected)
  {
    selected, remaining := [], budget;
    var i := 0;
    while i < |entries|
      invariant 0 <= i <= |entries|
      invariant selected + Filled(count, entries[i..], remaining) == Filled(count, entries, budget)
      invariant TextSize(count, selected) + remaining == budget
    {
      assert entries[i..][0] == entries[i] && entries[i..][1..] == entries[i + 1..];
      var size := count(entries[i].text);
      if size <= remaining {
        TextSizeOfMore(count, selected, entries[i]);
        selected := selected + [entries[i]];
        remaining := remaining - size;
      }
      i := i + 1;
    }
  }

  lemma {:induction false} TextSizeOfMore(count: string -> nat, entries: seq<Entry>, e: Entry)
    ensures TextSize(count, entries + [e]) == TextSize(count, entries) + count(e.text)
  {
    if entries != [] {
      TextSizeOfMore(count, entries[1..], e);
      assert (entries + [e])[1..] == entries[1..] + [e];
    }
  }

  predicate HasId(m: Message) {
    m.roundId.Some? && m.roundId.value != ""
  }

  function IdsOf(messages: seq<Message>): set<string> {
    set m | m in messages && HasId(m) :: m.roundId.value
  }

  // The first message of the round that carries a round id.
  function Metadata(round: Round): (m: Option<Message>)
    ensures m.Some? ==> m.value in round && HasId(m.value)
  {
    if round == [] then None else if HasId(round[0]) then Some(round[0]) else Metadata(round[1..])
  }

  // The input of build(): messages and summaries, and how entries are worded.
  datatype Input = Input(messages: seq<Message>, summaries: seq<Summary>, summaryText: Summary -> string,
                         roundText: Round -> string)

  // A summary is left out when its round is still among the messages; a round without a
  // round id is left out.
  predicate ShowsSummary(x: Input, k: nat)
    requires k < |x.summaries|
  {
    x.summaries[k].roundId !in IdsOf(x.messages)
  }

  function SummaryEntry(x: Input, k: nat): Entry
    requires k < |x.summaries|
  {
    Entry(x.summaries[k].roundNumber, x.summaryText(x.summaries[k]), OfSummary(k))
  }

  function RoundEntry(x: Input, rounds: seq<Round>, k: nat): Entry
    requires k < |rounds| && Metadata(rounds[k]).Some?
  {
    Entry(Metadata(rounds[k]).value.roundNumber, x.roundText(rounds[k]), OfRound(k))
  }

  // What may appear in the history.
  ghost predicate Candidate(x: Input, rounds: seq<Round>, cut: nat, e: Entry)
    requires cut <= |rounds|
  {
    match e.origin
    case OfSummary(k) => k < |x.summaries| && ShowsSummary(x, k) && e == SummaryEntry(x, k)
    case OfRound(k) => k < cut && Metadata(rounds[k]).Some? && e == RoundEntry(x, rounds, k)
  }

  // A summary is a candidate unless a message carries its round id (no message carries the empty
  // one); an older round, under the number of its first message that carries a round id.
  lemma CandidatesAre(x: Input, rounds: seq<Round>, cut: nat, e: Entry)
    requires cut <= |rounds|
    ensures
      Candidate(x, rounds, cut, e) <==>
      match e.origin
      case OfSummary(k) =>
        && k < |x.summaries|
        && e.number == x.summaries[k].roundNumber && e.text == x.summaryText(x.summaries[k])
        && (x.summaries[k].roundId == "" || forall m :: m in x.messages ==> m.roundId != Some(x.summaries[k].roundId))
      case OfRound(k) =>
        && k < cut && e.text == x.roundText(rounds[k])
        && exists i :: 0 <= i < |rounds[k]| && CarriesFirst(rounds[k], i) && e.number == rounds[k][i].roundNumber
  {
    match e.origin
    case OfSummary(k) =>
    case OfRound(k) =>
      if k < cut {
        MetadataIs(rounds[k]);
      }
  }

  // Message i is the first of the round with a round id.
  predicate CarriesFirst(round: Round, i: nat)
    requires i < |round|
  {
    && round[i].roundId != None && round[i].roundId != Some("")
    && forall j :: 0 <= j < i ==> round[j].roundId == None || round[j].roundId == Some("")
  }

  lemma {:induction false} MetadataIs(round: Round)
    ensures Metadata(round) == None ==> forall i :: 0 <= i < |round| ==> !CarriesFirst(round, i)
    ensures forall i :: 0 <= i < |round| && CarriesFirst(round, i) ==> Metadata(round) == Some(round[i])
    ensures Metadata(round).Some? ==> exists i :: 0 <= i < |round| && CarriesFirst(round, i)
  {
    if round != [] {
      var rest := round[1..];
      MetadataIs(rest);
      if HasId(round[0]) {
        assert CarriesFirst(round, 0);
      } else {
        forall i | 0 <= i < |rest| ensures CarriesFirst(rest, i) <==> CarriesFirst(round, i + 1) {
          assert forall j :: 0 <= j < i ==> rest[j] == round[j + 1];
          assert forall j :: 1 <= j < i + 1 ==> round[j] == rest[j - 1];
        }
      }
    }
  }

  ghost predicate OriginsDiffer(entries: seq<Entry>) {
    forall i, j :: 0 <= i < j < |entries| ==> entries[i].origin != entries[j].origin
  }

  ghost predicate AllCandidates(x: Input, rounds: seq<Round>, cut: nat, entries: seq<Entry>)
    requires cut <= |rounds|
  {
    forall e :: e in entries <==> Candidate(x, rounds, cut, e)
  }

  // The two loops that collect the candidates: each of them once.
  method Candidates(x: Input, rounds: seq<Round>, cut: nat) returns (entries: seq<Entry>)
    requires cut <= |rounds|
    ensures AllCandidates(x, rounds, cut, entries) && OriginsDiffer(entries)
  {
    hide IdsOf;
    entries := [];
    var i := 0;
    while i < |x.summaries|
      invariant 0 <= i <= |x.summaries| && OriginsDiffer(entries)
      invariant forall e :: e in entries <==> e.origin.OfSummary? && e.origin.index < i && Candidate(x, rounds, cut, e)
    {
      var summary := x.summaries[i];
      if summary.roundId !in IdsOf(x.messages) {
        entries := entries + [Entry(summary.roundNumber, x.summaryText(summary), OfSummary(i))];
      }
      i := i + 1;
    }
    var k := 0;
    while k < cut
      invariant 0 <= k <= cut && OriginsDiffer(entries)
      invariant forall e :: e in entries <==> Candidate(x, rounds, cut, e) && (e.origin.OfRound? ==> e.origin.index < k)
    {
      var metadata := Metadata(rounds[k]);
      if metadata.Some? {
        entries := entries + [Entry(metadata.value.roundNumber, x.roundText(rounds[k]), OfRound(k))];
      }
      k := k + 1;
    }
  }

  // ---- Reordering ----

  lemma {:induction false} TextSizeAt(count: string -> nat, entries: seq<Entry>, i: nat)
    requires i < |entries|
    ensures TextSize(count, entries) == count(entries[i].text) + TextSize(count, entries[..i] + entries[i + 1..])
  {
    if i == 0 {
      assert entries[..0] + entries[1..] == entries[1..];
    } else {
      TextSizeAt(count, entries[1..], i - 1);
      var without := entries[..i] + entries[i + 1..];
      assert without[1..] == entries[1..][..i - 1] + entries[1..][i..];
    }
  }

  lemma RemovedAt(xs: seq<Entry>, i: nat)
    requires i < |xs|
    ensures multiset(xs[..i] + xs[i + 1..]) == multiset(xs) - multiset{xs[i]}
  {
    assert xs == xs[..i] + [xs[i]] + xs[i + 1..];
  }

  lemma RemovedFirst(xs: seq<Entry>)
    requires xs != []
    ensures multiset(xs[1..]) == multiset(xs) - multiset{xs[0]}
  {
    assert xs == [xs[0]] + xs[1..];
  }

  lemma Found(xs: seq<Entry>, x: Entry) returns (i: nat)
    requires x in multiset(xs)
    ensures i < |xs| && xs[i] == x
  {
    i :| 0 <= i < |xs| && xs[i] == x;
  }

  // The size of a history does not depend on its order.
  lemma {:induction false} TextSizePermutes(count: string -> nat, a: seq<Entry>, b: seq<Entry>)
    requires multiset(a) == multiset(b)
    ensures TextSize(count, a) == TextSize(count, b)
    decreases |a|
  {
    if a == [] {
      assert |multiset(b)| == |b|;
    } else {
      RemovedFirst(a);
      assert a[0] in multiset(a);
      var i := Found(b, a[0]);
      RemovedAt(b, i);
      TextSizeAt(count, b, i);
      TextSizePermutes(count, a[1..], b[..i] + b[i + 1..]);
    }
  }

  lemma OriginsDifferAmong(a: seq<Entry>, b: seq<Entry>)
    requires OriginsDiffer(a) && multiset(b) <= multiset(a)
    ensures OriginsDiffer(b)
  {
    forall i, j | 0 <= i < j < |b| ensures b[i].origin != b[j].origin {
      assert b[i] in multiset(a) && b[j] in multiset(a);
      var k :| 0 <= k < |a| && a[k] == b[i];
      var l :| 0 <= l < |a| && a[l] == b[j];
      Twice(b, i, j);
      OnlyOnce(a, k);
    }
  }

  lemma OnlyOnce(xs: seq<Entry>, k: nat)
    requires OriginsDiffer(xs) && k < |xs|
    ensures multiset(xs)[xs[k]] == 1
  {
    assert xs == xs[..k] + [xs[k]] + xs[k + 1..];
    assert xs[k] !in xs[..k] && xs[k] !in xs[k + 1..];
    assert multiset(xs) == multiset(xs[..k]) + multiset{xs[k]} + multiset(xs[k + 1..]);
  }

  // ---- The window ----

  datatype Window = Window(recent: seq<Round>, history: seq<Entry>, used: nat, remaining: nat)

  function CutOf(rounds: seq<Round>): nat {
    if |rounds| <= KEEP_ROUNDS then 0 else |rounds| - KEEP_ROUNDS
  }

  function NewestSize(count: string -> nat, rounds: seq<Round>): nat {
    if rounds == [] then 0 else Size(count, rounds[|rounds| - 1])
  }

  lemma OnlyNewestExceeds(count: string -> nat, rounds: seq<Round>, budget: nat)
    ensures UsedFrom(count, rounds[CutOf(rounds)..], budget, 0) <= Max(budget, NewestSize(count, rounds))
  {
    if rounds != [] {
      RecentFits(count, rounds[CutOf(rounds)..], budget, 0);
    }
  }

  // The account is about what is shown: the rounds in full and the lines of history.
  ghost predicate Accounted(w: Window, budget: int, count: string -> nat) {
    && w.used == TotalSize(count, w.recent) + TextSize(count, w.history)
    && w.remaining == Max(budget, TotalSize(count, w.recent)) - w.used
  }

  // The history has candidates only, each at most once, oldest first: no round of the
  // messages is summarised, and the rounds shown as history come before the recent ones.
  ghost predicate ShownOnce(w: Window, x: Input, rounds: seq<Round>) {
    && (forall e :: e in w.history ==> Candidate(x, rounds, CutOf(rounds), e))
    && OriginsDiffer(w.history) && SortedBy(w.history, EntryLeq)
  }

  // No candidate left out would still fit.
  ghost predicate Filling(w: Window, x: Input, rounds: seq<Round>, count: string -> nat) {
    forall e :: Candidate(x, rounds, CutOf(rounds), e) && e !in w.history ==> count(e.text) > w.remaining
  }

  // No candidate left out would have fitted beside those shown that are not older.
  ghost predicate NewestFirst(w: Window, budget: int, x: Input, rounds: seq<Round>, count: string -> nat) {
    forall e :: Candidate(x, rounds, CutOf(rounds), e) && e !in w.history ==>
      count(e.text) + TextSize(count, FromOn(w.history, e)) > budget - TotalSize(count, w.recent)
  }

  ghost predicate IsWindow(w: Window, budget: int, x: Input, rounds: seq<Round>, count: string -> nat) {
    && Grouped(x.messages, rounds) && w.recent == Kept(count, rounds[CutOf(rounds)..], budget, 0)
    && Accounted(w, budget, count) && w.used <= Max(budget, NewestSize(count, rounds))
    && ShownOnce(w, x, rounds) && Filling(w, x, rounds, count) && NewestFirst(w, budget, x, rounds, count)
  }

  // build(), from the history budget on.
  method Assemble(budget: int, x: Input, count: string -> nat) returns (w: Window, ghost rounds: seq<Round>)
    requires budget >= 0
    ensures IsWindow(w, budget, x, rounds, count)
  {
    hide Grouped, Filled, SortedBy, Candidate, Kept, Sort, UsedFrom, Size, TotalSize, TextSize, EntryLeq, EntryGeq;
    hide OriginsDiffer, NewestSize, FromOn;
    var grouped := GroupRounds(x.messages);
    rounds := grouped;
    var cut := CutOf(grouped);
    var recent := grouped[cut..];
    var selected, used := SelectRecent(count, recent, budget);
    UsedIsSize(count, recent, budget, 0);
    OnlyNewestExceeds(count, grouped, budget);
    var entries := Candidates(x, grouped, cut);
    var left: nat := Max(0, budget - used);
    var history, remaining := ShowHistory(count, entries, left);
    w := Window(selected, history, used + (left - remaining), remaining);
  }

  // Newest entries first as long as they fit, shown oldest first.
  method ShowHistory(count: string -> nat, entries: seq<Entry>, budget: nat) returns (history: seq<Entry>,
          remaining: nat)
    requires OriginsDiffer(entries)
    ensures SortedBy(history, EntryLeq) && multiset(history) == multiset(Filled(count, Sort(entries, EntryGeq), budget))
    ensures remaining <= budget && remaining == budget - TextSize(count, history)
    ensures OriginsDiffer(history) && forall e :: e in history ==> e in entries
    ensures forall e :: e in entries && e !in history ==> count(e.text) > remaining
    ensures forall e :: e in entries && e !in history ==>
              count(e.text) + TextSize(count, FromOn(history, e)) > budget
  {
    hide Filled, SortedBy, FromOn, NotOlder, Sort, TextSize, EntryLeq, OriginsDiffer;
    var sorted := Sort(entries, EntryGeq);
    SortElements(entries, EntryGeq);
    var chosen, left := FillHistory(count, sorted, budget);
    remaining := left;
    FillIsMaximal(count, sorted, budget);
    FilledMembers(count, sorted, chosen, remaining);
    history := Sort(chosen, EntryLeq);
    EntryOrders();
    SortSorts(chosen, EntryLeq);
    SortElements(chosen, EntryLeq);
    TextSizePermutes(count, chosen, history);
    OriginsDifferAmong(entries, history);
    SortSorts(entries, EntryGeq);
    forall e | e in entries && e !in history
      ensures count(e.text) + TextSize(count, FromOn(history, e)) > budget
    {
      LeftOut(count, entries, sorted, chosen, history, budget, e);
    }
  }

  lemma LeftOut(count: string -> nat, entries: seq<Entry>, sorted: seq<Entry>, chosen: seq<Entry>,
          history: seq<Entry>, budget: nat, e: Entry)
    requires multiset(sorted) == multiset(entries) && multiset(history) == multiset(chosen)
    requires SortedBy(sorted, EntryGeq) && chosen == Filled(count, sorted, budget)
    requires e in entries && e !in history
    ensures count(e.text) + TextSize(count, FromOn(history, e)) > budget
  {
    hide Filled, SortedBy, TextSize, EntryLeq, FromOn, NotOlder;
    assert e in multiset(sorted) && e !in multiset(chosen);
    NewestAreFilledFirst(count, sorted, budget, e);
    FromOnPermutes(chosen, history, e);
    TextSizePermutes(count, FromOn(chosen, e), FromOn(history, e));
  }

  lemma FilledMembers(count: string -> nat, entries: seq<Entry>, chosen: seq<Entry>, remaining: nat)
    requires multiset(chosen) <= multiset(entries)
    requires forall e :: multiset(entries)[e] > multiset(chosen)[e] ==> count(e.text) > remaining
    ensures forall e :: e in chosen ==> e in entries
    ensures forall e :: e in entries && e !in chosen ==> count(e.text) > remaining
  {
    forall e | e in chosen ensures e in entries {
      assert e in multiset(chosen);
    }
    forall e | e in entries && e !in chosen ensures count(e.text) > remaining {
      assert e in multiset(entries) && e !in multiset(chosen);
    }
  }

  // The rounds shown in full are among the last six, and all of these when they fit together;
  // rounds shown as history come before.
  lemma LastSixInFull(w: Window, budget: int, x: Input, rounds: seq<Round>, count: string -> nat)
    requires IsWindow(w, budget, x, rounds, count)
    ensures forall r :: r in w.recent ==> exists k :: |rounds| - 6 <= k < |rounds| && k >= 0 && rounds[k] == r
    ensures
      var last := rounds[if |rounds| <= 6 then 0 else |rounds| - 6..];
      TotalSize(count, last) <= budget ==> w.recent == last
    ensures forall e :: e in w.history && e.origin.OfRound? ==> e.origin.index < |rounds| - 6
  {
    hide Grouped, Accounted, Filling, NewestFirst, OriginsDiffer, Size, Kept, UsedFrom;
    var recent := rounds[CutOf(rounds)..];
    UsedIsSize(count, recent, budget, 0);
    forall r | r in w.recent ensures exists k :: |rounds| - 6 <= k < |rounds| && k >= 0 && rounds[k] == r {
      var i :| 0 <= i < |recent| && recent[i] == r;
      assert rounds[CutOf(rounds) + i] == r;
    }
    if TotalSize(count, recent) <= budget {
      AllKept(count, recent, budget, 0);
      assert recent[0..] == recent;
    }
    assert forall e :: e in w.history ==> Candidate(x, rounds, CutOf(rounds), e);
  }

  lemma {:induction false} AllKept(count: string -> nat, recent: seq<Round>, budget: int, i: nat)
    requires i <= |recent| && TotalSize(count, recent[i..]) <= budget
    ensures Kept(count, recent, budget, i) == recent[i..]
    ensures UsedFrom(count, recent, budget, i) == TotalSize(count, recent[i..])
    decreases |recent| - i
  {
    if i < |recent| {
      assert recent[i..][0] == recent[i] && recent[i..][1..] == recent[i + 1..];
      AllKept(count, recent, budget, i + 1);
    }
  }

  // No round is shown both in full and as a summary: not even by a message of its own, and
  // when each round has one summary, no two lines of history are about one round.
  lemma NoRoundShownTwice(w: Window, budget: int, x: Input, rounds: seq<Round>, count: string -> nat, i: nat, j: nat)
    requires IsWindow(w, budget, x, rounds, count) && i < |w.history| && w.history[i].origin.OfSummary?
    ensures w.history[i].origin.index < |x.summaries|
    ensures
      var roundId := x.summaries[w.history[i].origin.index].roundId;
      && (forall r, m :: r in rounds && m in r && HasId(m) ==> m.roundId.value != roundId)
      && (i < j < |w.history| && w.history[j].origin.OfSummary?
          && (forall k, l :: 0 <= k < l < |x.summaries| ==> x.summaries[k].roundId != x.summaries[l].roundId)
          ==> x.summaries[w.history[j].origin.index].roundId != roundId)
  {
    assert w.history[i] in w.history && Candidate(x, rounds, CutOf(rounds), w.history[i]);
    var roundId := x.summaries[w.history[i].origin.index].roundId;
    forall r, m | r in rounds && m in r && HasId(m) ensures m.roundId.value != roundId {
      FlattenHolds(rounds, r, m);
      assert m.roundId.value in IdsOf(x.messages);
    }
    if i < j < |w.history| {
      assert w.history[j] in w.history && w.history[i].origin != w.history[j].origin;
    }
  }

  lemma {:induction false} FlattenHolds(rounds: seq<Round>, r: Round, m: Message)
    requires r in rounds && m in r
    ensures m in Flatten(rounds)
  {
    if r != rounds[|rounds| - 1] {
      FlattenHolds(rounds[..|rounds| - 1], r, m);
    }
  }

  // build(): what the agent is shown exceeds its input limit by no more than the overflow of
  // its fixed part and the excess of the newest round over the history budget.
  method Build(agent: string, fixed: int, requested: map<string, int>, mode: string, x: Input, count: string -> nat)
    returns (r: Result, w: Window, ghost rounds: seq<Round>)
    ensures r.Allocated? <==> agent in PROFILES && mode in MODE_PERCENT
    ensures
      r.Allocated? ==>
      var p, a := PROFILES[agent], r.allocation;
      && WellFormed(p) && Fair(p, fixed, requested, MODE_PERCENT[mode], a) && IsWindow(w, a.history, x, rounds, count)
      && Max(0, fixed) + TotalSize(count, w.recent) + TextSize(count, w.history) + Sections(a.sections)
         <= p.inputLimit + a.overflow + Max(0, NewestSize(count, rounds) - a.history)
  {
    hide Fair, IsWindow, NewestSize, WellFormed, Sections, TotalSize, TextSize;
    rounds := [];
    w := Window([], [], 0, 0);
    r := Allocate(agent, fixed, requested, mode);
    if r.Allocated? {
      WithinLimit(PROFILES[agent], fixed, requested, MODE_PERCENT[mode], r.allocation, 0, 0);
      w, rounds := Assemble(r.allocation.history, x, count);
      WindowSize(w, r.allocation.history, x, rounds, count);
      WithinLimit(PROFILES[agent], fixed, requested, MODE_PERCENT[mode], r.allocation, w.used,
          NewestSize(count, rounds));
    }
  }

  lemma WindowSize(w: Window, budget: int, x: Input, rounds: seq<Round>, count: string -> nat)
    requires IsWindow(w, budget, x, rounds, count)
    ensures TotalSize(count, w.recent) + TextSize(count, w.history) == w.used <= Max(budget, NewestSize(count, rounds))
  {
  }

  lemma WithinLimit(p: Profile, fixed: int, requested: map<string, int>, percent: nat, a: Allocation, used: nat,
          newest: nat)
    requires WellFormed(p) && Fair(p, fixed, requested, percent, a) && used <= Max(a.history, newest)
    ensures a.history >= 0 && SectionKeys(a.sections)
    ensures Max(0, fixed) + used + Sections(a.sections) <= p.inputLimit + a.overflow + Max(0, newest - a.history)
  {
  }
}
