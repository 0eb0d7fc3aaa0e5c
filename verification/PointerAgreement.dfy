/** The published pointer and the releases table: a worker switches the pointer while it holds the
    lease, and records the release in the table after the lease is given back. */
module PointerAgreement {
  import opened Options
  import opened Ordering
  import opened KnowledgeAdmin

  // What a worker puts in place: a build it has just made, or a recorded one.
  datatype Task = NewBuild(buildId: string, draftId: string) | OldBuild(buildId: string)

  datatype Stage = Idle | Between | Over

  datatype Shelf = Shelf(pointer: Option<string>, releases: Releases, stages: map<nat, Stage>)

  // The upsert of the pointer, and the completing transaction.
  datatype Move = Switch(worker: nat) | Record(worker: nat)

  predicate Accepts(releases: Releases, task: Task) {
    match task
    case NewBuild(b, _) => b !in releases
    case OldBuild(b) => b in releases && !Refused(releases, b)
  }

  function Entered(releases: Releases, task: Task): Releases
    requires Accepts(releases, task)
  {
    match task
    case NewBuild(b, d) => WithPublished(releases, b, d)
    case OldBuild(b) => WithRestored(releases, b)
  }

  predicate Records(tasks: map<nat, Task>, s: Shelf, m: Move) {
    m.Record? && m.worker in tasks && m.worker in s.stages && s.stages[m.worker] == Between &&
    Accepts(s.releases, tasks[m.worker])
  }

  function Step(tasks: map<nat, Task>, s: Shelf, m: Move): Shelf {
    if m.worker !in tasks || m.worker !in s.stages then s
    else if m.Switch? then
      if s.stages[m.worker] != Idle then s
      else s.(pointer := Some(tasks[m.worker].buildId), stages := s.stages[m.worker := Between])
    else if s.stages[m.worker] != Between then s
    else
      var releases := if Records(tasks, s, m) then Entered(s.releases, tasks[m.worker]) else s.releases;
      s.(releases := releases, stages := s.stages[m.worker := Over])
  }

  function Run(tasks: map<nat, Task>, s: Shelf, moves: seq<Move>): Shelf {
    if moves == [] then s else Step(tasks, Run(tasks, s, moves[..|moves| - 1]), moves[|moves| - 1])
  }

  // The current release of the table is the one pointed at.
  ghost predicate Names(pointer: Option<string>, releases: Releases) {
    && OneCurrent(releases)
    && match pointer
       case None => releases == map[]
       case Some(b) => IsCurrent(releases, b)
  }

  ghost predicate Agrees(s: Shelf) {
    Names(s.pointer, s.releases)
  }

  lemma EnteredIsCurrent(releases: Releases, task: Task)
    requires Accepts(releases, task)
    ensures Names(Some(task.buildId), Entered(releases, task))
  {
    match task
    case NewBuild(b, d) => PublishedIsCurrent(releases, b, d);
    case OldBuild(b) => RestoredIsCurrent(releases, b);
  }

  lemma NamesOne(a: Option<string>, b: Option<string>, releases: Releases)
    requires Names(a, releases)
    ensures Names(b, releases) <==> a == b
  {
  }

  // ---- Agreement over every run ----

  // The build that the last accepted record entered.
  function LastEntered(tasks: map<nat, Task>, s: Shelf, moves: seq<Move>): Option<string> {
    if moves == [] then s.pointer
    else
      var front, m := moves[..|moves| - 1], moves[|moves| - 1];
      if Records(tasks, Run(tasks, s, front), m) then Some(tasks[m.worker].buildId) else LastEntered(tasks, s, front)
  }

  // However workers interleave, pointer and table agree at the end exactly when the last switch
  // and the last accepted record are about the same build.
  lemma {:induction false} AgreesIffLastOnesMatch(tasks: map<nat, Task>, s: Shelf, moves: seq<Move>)
    requires Agrees(s)
    ensures Names(LastEntered(tasks, s, moves), Run(tasks, s, moves).releases)
    ensures Agrees(Run(tasks, s, moves)) <==> Run(tasks, s, moves).pointer == LastEntered(tasks, s, moves)
  {
    hide Names, Accepts, Entered;
    if moves != [] {
      var front, m := moves[..|moves| - 1], moves[|moves| - 1];
      AgreesIffLastOnesMatch(tasks, s, front);
      var before := Run(tasks, s, front);
      if Records(tasks, before, m) {
        EnteredByRecord(tasks, before, m);
      }
    }
    NamesOne(LastEntered(tasks, s, moves), Run(tasks, s, moves).pointer, Run(tasks, s, moves).releases);
  }

  lemma EnteredByRecord(tasks: map<nat, Task>, s: Shelf, m: Move)
    requires Records(tasks, s, m)
    ensures Names(Some(tasks[m.worker].buildId), Step(tasks, s, m).releases)
  {
    EnteredIsCurrent(s.releases, tasks[m.worker]);
  }

  // ---- One worker at a time ----

  ghost predicate NoneBetween(s: Shelf) {
    forall w :: w in s.stages ==> s.stages[w] != Between
  }

  // No worker switches between another one's switch and record, and no record is turned down.
  ghost predicate InTurn(tasks: map<nat, Task>, s: Shelf, m: Move) {
    && (m.Switch? ==> NoneBetween(s))
    && (m.Record? && m.worker in tasks && m.worker in s.stages && s.stages[m.worker] == Between ==>
          Accepts(s.releases, tasks[m.worker]))
  }

  ghost predicate AllInTurn(tasks: map<nat, Task>, s: Shelf, moves: seq<Move>) {
    forall i :: 0 <= i < |moves| ==> InTurn(tasks, Run(tasks, s, moves[..i]), moves[i])
  }

  ghost predicate OnlyBetween(s: Shelf, w: nat) {
    w in s.stages && s.stages[w] == Between && forall v :: v in s.stages && s.stages[v] == Between ==> v == w
  }

  // Nobody is between, and all agrees; or one worker is, and the pointer is its build.
  ghost predicate TurnOk(tasks: map<nat, Task>, s: Shelf) {
    || (NoneBetween(s) && Agrees(s))
    || (exists w :: w in tasks && OnlyBetween(s, w) && s.pointer == Some(tasks[w].buildId))
  }

  lemma SwitchKeepsTurn(tasks: map<nat, Task>, s: Shelf, w: nat)
    requires TurnOk(tasks, s) && NoneBetween(s)
    ensures TurnOk(tasks, Step(tasks, s, Switch(w)))
  {
    hide Agrees;
    var after := Step(tasks, s, Switch(w));
    if w in tasks && w in s.stages && s.stages[w] == Idle {
      assert OnlyBetween(after, w);
    } else {
      assert after == s;
    }
  }

  lemma RecordKeepsTurn(tasks: map<nat, Task>, s: Shelf, w: nat)
    requires TurnOk(tasks, s) && InTurn(tasks, s, Record(w))
    ensures TurnOk(tasks, Step(tasks, s, Record(w)))
  {
    hide Names, Accepts, Entered;
    var after := Step(tasks, s, Record(w));
    if w in tasks && w in s.stages && s.stages[w] == Between {
      EnteredByRecord(tasks, s, Record(w));
      assert NoneBetween(after) && Agrees(after);
    } else {
      assert after == s;
    }
  }

  lemma {:induction false} TurnsKeepOk(tasks: map<nat, Task>, s: Shelf, moves: seq<Move>)
    requires TurnOk(tasks, s) && AllInTurn(tasks, s, moves)
    ensures TurnOk(tasks, Run(tasks, s, moves))
  {
    hide TurnOk, InTurn, Step;
    if moves != [] {
      var front, m := moves[..|moves| - 1], moves[|moves| - 1];
      forall i | 0 <= i < |front| ensures InTurn(tasks, Run(tasks, s, front[..i]), front[i]) {
        assert front[..i] == moves[..i];
      }
      TurnsKeepOk(tasks, s, front);
      OneTurn(tasks, Run(tasks, s, front), m);
    }
  }

  lemma OneTurn(tasks: map<nat, Task>, s: Shelf, m: Move)
    requires TurnOk(tasks, s) && InTurn(tasks, s, m)
    ensures TurnOk(tasks, Step(tasks, s, m))
  {
    hide TurnOk, Step;
    match m
    case Switch(w) => SwitchKeepsTurn(tasks, s, w);
    case Record(w) => RecordKeepsTurn(tasks, s, w);
  }

  // Workers that take turns leave pointer and table in agreement whenever none is between.
  lemma TurnsAgree(tasks: map<nat, Task>, s: Shelf, moves: seq<Move>)
    requires Agrees(s) && NoneBetween(s) && AllInTurn(tasks, s, moves) && NoneBetween(Run(tasks, s, moves))
    ensures Agrees(Run(tasks, s, moves))
  {
    hide Agrees, AllInTurn;
    TurnsKeepOk(tasks, s, moves);
  }

  // ---- Where they part ----

  // Two publishers, the first to switch the last to record: both records are accepted, and the
  // pointer names the build of one while the table's current release is that of the other.
  lemma CrossingWorkersDisagree(tasks: map<nat, Task>, s: Shelf, v: nat, w: nat)
    requires Agrees(s) && v != w && v in tasks && w in tasks
    requires v in s.stages && w in s.stages && s.stages[v] == s.stages[w] == Idle
    requires tasks[v].NewBuild? && tasks[w].NewBuild? && tasks[v].buildId != tasks[w].buildId
    requires tasks[v].buildId !in s.releases && tasks[w].buildId !in s.releases
    ensures
      var end := Run(tasks, s, [Switch(v), Switch(w), Record(w), Record(v)]);
      end.pointer == Some(tasks[w].buildId) && IsCurrent(end.releases, tasks[v].buildId) && !Agrees(end)
  {
    hide Step, Agrees, IsCurrent, OneCurrent;
    FourMoves(tasks, s, Switch(v), Switch(w), Record(w), Record(v));
    BothSwitch(tasks, s, v, w);
    BothRecord(tasks, Step(tasks, Step(tasks, s, Switch(v)), Switch(w)), v, w);
  }

  lemma FourMoves(tasks: map<nat, Task>, s: Shelf, a: Move, b: Move, c: Move, d: Move)
    ensures Run(tasks, s, [a, b, c, d]) == Step(tasks, Step(tasks, Step(tasks, Step(tasks, s, a), b), c), d)
  {
    hide Step;
    TwoMoves(tasks, s, a, b);
    assert [a, b, c, d][..3] == [a, b, c] && [a, b, c][..2] == [a, b];
  }

  lemma TwoMoves(tasks: map<nat, Task>, s: Shelf, a: Move, b: Move)
    ensures Run(tasks, s, [a, b]) == Step(tasks, Step(tasks, s, a), b)
  {
    hide Step;
    assert [a, b][..1] == [a] && [a][..0] == [];
    assert Run(tasks, s, [a]) == Step(tasks, s, a);
  }

  lemma BothSwitch(tasks: map<nat, Task>, s: Shelf, v: nat, w: nat)
    requires v != w && v in tasks && w in tasks
    requires v in s.stages && w in s.stages && s.stages[v] == s.stages[w] == Idle
    ensures
      Step(tasks, Step(tasks, s, Switch(v)), Switch(w))
      == Shelf(Some(tasks[w].buildId), s.releases, s.stages[v := Between][w := Between])
  {
  }

  lemma BothRecord(tasks: map<nat, Task>, s: Shelf, v: nat, w: nat)
    requires v != w && v in tasks && w in tasks
    requires v in s.stages && w in s.stages && s.stages[v] == s.stages[w] == Between
    requires tasks[v].NewBuild? && tasks[w].NewBuild? && tasks[v].buildId != tasks[w].buildId
    requires tasks[v].buildId !in s.releases && tasks[w].buildId !in s.releases
    requires s.pointer == Some(tasks[w].buildId)
    ensures
      var end := Step(tasks, Step(tasks, s, Record(w)), Record(v));
      end.pointer == Some(tasks[w].buildId) && IsCurrent(end.releases, tasks[v].buildId) && !Agrees(end)
  {
    hide IsCurrent, OneCurrent;
    var one := Step(tasks, s, Record(w));
    assert Accepts(one.releases, tasks[v]);
    EnteredByRecord(tasks, one, Record(v));
    NamesOne(Some(tasks[v].buildId), Some(tasks[w].buildId), Step(tasks, one, Record(v)).releases);
  }

  // A rollback on its own leaves agreement exactly when its target does not sort before the
  // current release; otherwise the pointer has moved and the table refuses to follow.
  lemma RollbackAgreesIff(tasks: map<nat, Task>, s: Shelf, w: nat, current: string)
    requires Agrees(s) && s.pointer == Some(current) && w in tasks && w in s.stages && s.stages[w] == Idle
    requires tasks[w].OldBuild? && tasks[w].buildId in s.releases
    ensures Agrees(Run(tasks, s, [Switch(w), Record(w)])) <==> LexLeq(current, tasks[w].buildId)
  {
    hide OneCurrent, Names, WithRestored;
    var target := tasks[w].buildId;
    var switched := Shelf(Some(target), s.releases, s.stages[w := Between]);
    TwoMoves(tasks, s, Switch(w), Record(w));
    assert Step(tasks, s, Switch(w)) == switched;
    RefusedIffBefore(s.releases, current, target);
    var end := Step(tasks, switched, Record(w));
    if Records(tasks, switched, Record(w)) {
      EnteredByRecord(tasks, switched, Record(w));
      assert Agrees(end);
    } else {
      assert end.releases == s.releases;
      NamesOne(Some(current), Some(target), s.releases);
      LexReflexive(target);
    }
  }

  lemma RefusedIffBefore(releases: Releases, current: string, target: string)
    requires Names(Some(current), releases)
    ensures Refused(releases, target) <==> !LexLeq(current, target)
  {
    LexTotal(current, target);
    if LexLeq(current, target) && LexLeq(target, current) {
      LexAntisymmetric(current, target);
    }
    assert forall b :: b in releases && releases[b].status == Current ==> IsCurrent(releases, b);
  }

  lemma LexReflexive(a: string)
    ensures LexLeq(a, a)
  {
    LexTotal(a, a);
  }
}
