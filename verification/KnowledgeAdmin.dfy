/** Drafts, jobs, releases and the audit log of knowledge administration, changed by transactions. */
module KnowledgeAdmin {
  import opened Collections
  import opened Options
  import opened Ordering

  datatype DraftStatus =
    Uploaded | Validating | ReadyToPublish | Publishing | Published | ValidationFailed | PublishFailed
  datatype JobKind = ValidateDraft | PublishDraft | RollbackRelease | GetStatus
  datatype JobStatus = Queued | Running | Succeeded | Failed
  datatype ReleaseStatus = Current | Superseded | RolledBack

  datatype Job = Job(kind: JobKind, status: JobStatus, draftId: Option<string>, releaseId: Option<string>,
          queuedAt: int)
  datatype Release = Release(draftId: string, status: ReleaseStatus)
  datatype Action = UploadDraft | Work(kind: JobKind)
  datatype AuditEvent = AuditEvent(action: Action, result: JobStatus, draftId: Option<string>, jobId: Option<string>,
          releaseId: Option<string>)

  datatype Error = UnknownDraft | UnknownJob | UnknownRelease | NotRunning | IllegalTransition
                 | WrongKind | WrongDraft | WrongRelease | ActiveRollback | DuplicateKey | Raised

  type Drafts = map<string, DraftStatus>
  type Jobs = map<string, Job>
  type Releases = map<string, Release>

  datatype Tables = Tables(drafts: Drafts, jobs: Jobs, releases: Releases, audit: seq<AuditEvent>)

  // _DRAFT_TRANSITIONS
  predicate Allowed(from: DraftStatus, to: DraftStatus) {
    match from
    case Uploaded => to == Validating
    case Validating => to == ReadyToPublish || to == ValidationFailed
    case ReadyToPublish => to == Publishing
    case Publishing => to == Published || to == PublishFailed
    case ValidationFailed => to == Validating
    case PublishFailed => to == Validating
    case Published => false
  }

  predicate Active(job: Job) {
    job.status == Queued || job.status == Running
  }

  predicate OnDraft(job: Job) {
    job.kind == ValidateDraft || job.kind == PublishDraft
  }

  // The status a draft has while a job of this kind is under way.
  function Doing(kind: JobKind): DraftStatus
    requires kind == ValidateDraft || kind == PublishDraft
  {
    if kind == ValidateDraft then Validating else Publishing
  }

  predicate Busy(status: DraftStatus) {
    status == Validating || status == Publishing
  }

  // ---- Drafts and the jobs that work on them ----

  ghost predicate Occupies(jobs: Jobs, j: string, d: string) {
    j in jobs && OnDraft(jobs[j]) && Active(jobs[j]) && jobs[j].draftId == Some(d)
  }

  ghost predicate Aimed(drafts: Drafts, releases: Releases, job: Job) {
    && (job.draftId.Some? ==> job.draftId.value in drafts) && (job.releaseId.Some? ==> job.releaseId.value in releases)
    && (OnDraft(job) ==> job.draftId.Some?) && (job.kind == RollbackRelease ==> job.releaseId.Some?)
  }

  ghost predicate AllAimed(drafts: Drafts, jobs: Jobs, releases: Releases) {
    forall j :: j in jobs ==> Aimed(drafts, releases, jobs[j])
  }

  // A draft is busy exactly while one job works on it, and then with that job's kind of work.
  ghost predicate WorkMatches(drafts: Drafts, jobs: Jobs) {
    && (forall j, d :: Occupies(jobs, j, d) ==> d in drafts && drafts[d] == Doing(jobs[j].kind))
    && (forall i, j, d :: Occupies(jobs, i, d) && Occupies(jobs, j, d) ==> i == j)
    && (forall d :: d in drafts && Busy(drafts[d]) ==> exists j :: Occupies(jobs, j, d))
  }

  ghost function ActiveJobs(jobs: Jobs, kind: JobKind, d: string): set<string> {
    set j | j in jobs && jobs[j].kind == kind && Active(jobs[j]) && jobs[j].draftId == Some(d)
  }

  // validating <=> exactly one active validate_draft job; publishing <=> exactly one active
  // publish_draft job; otherwise there is none.
  lemma BusyExactlyWithOneJob(drafts: Drafts, jobs: Jobs, d: string, kind: JobKind)
    requires WorkMatches(drafts, jobs) && d in drafts && (kind == ValidateDraft || kind == PublishDraft)
    ensures drafts[d] == Doing(kind) <==> |ActiveJobs(jobs, kind, d)| == 1
    ensures drafts[d] != Doing(kind) <==> ActiveJobs(jobs, kind, d) == {}
  {
    var active := ActiveJobs(jobs, kind, d);
    forall j ensures j in active ==> Occupies(jobs, j, d) && drafts[d] == Doing(kind) {
    }
    if drafts[d] == Doing(kind) {
      var j :| Occupies(jobs, j, d);
      assert active == {j};
    }
  }

  lemma NewDraftMatches(drafts: Drafts, jobs: Jobs, d: string)
    requires WorkMatches(drafts, jobs) && d !in drafts
    ensures WorkMatches(drafts[d := Uploaded], jobs)
  {
  }

  lemma StartMatches(drafts: Drafts, jobs: Jobs, id: string, job: Job)
    requires WorkMatches(drafts, jobs) && id !in jobs
    requires OnDraft(job) && Active(job) && job.draftId.Some? && job.draftId.value in drafts &&
        !Busy(drafts[job.draftId.value])
    ensures WorkMatches(drafts[job.draftId.value := Doing(job.kind)], jobs[id := job])
  {
    var d := job.draftId.value;
    var drafts', jobs' := drafts[d := Doing(job.kind)], jobs[id := job];
    assert Occupies(jobs', id, d);
    forall j, e ensures Occupies(jobs', j, e) <==> (j == id && e == d) || Occupies(jobs, j, e) {
    }
    forall j ensures !Occupies(jobs, j, d) {
    }
    forall e | e in drafts' && Busy(drafts'[e]) ensures exists j :: Occupies(jobs', j, e) {
      if e != d {
        var j :| Occupies(jobs, j, e);
        assert Occupies(jobs', j, e);
      }
    }
  }

  lemma FinishMatches(drafts: Drafts, jobs: Jobs, id: string, done: Job, status: DraftStatus)
    requires WorkMatches(drafts, jobs) && id in jobs && OnDraft(jobs[id]) && Active(jobs[id]) && jobs[id].draftId.Some?
    requires !Active(done) && !Busy(status)
    ensures jobs[id].draftId.value in drafts && drafts[jobs[id].draftId.value] == Doing(jobs[id].kind)
    ensures WorkMatches(drafts[jobs[id].draftId.value := status], jobs[id := done])
  {
    var d := jobs[id].draftId.value;
    assert Occupies(jobs, id, d);
    var drafts', jobs' := drafts[d := status], jobs[id := done];
    forall j, e ensures Occupies(jobs', j, e) <==> j != id && Occupies(jobs, j, e) {
    }
    forall j ensures !Occupies(jobs', j, d) {
    }
    forall e | e in drafts' && Busy(drafts'[e]) ensures exists j :: Occupies(jobs', j, e) {
      var j :| Occupies(jobs, j, e);
      assert Occupies(jobs', j, e);
    }
  }

  // Other changes to a job: it stays active, or it never worked on a draft.
  lemma OtherJobMatches(drafts: Drafts, jobs: Jobs, id: string, job: Job)
    requires WorkMatches(drafts, jobs)
    requires
      if id in jobs then
        job == jobs[id].(status := job.status) && (Active(job) == Active(jobs[id]) || !OnDraft(job))
      else !OnDraft(job)
    ensures WorkMatches(drafts, jobs[id := job])
  {
    var jobs' := jobs[id := job];
    forall j, e ensures Occupies(jobs', j, e) <==> Occupies(jobs, j, e) {
    }
    forall e | e in drafts && Busy(drafts[e]) ensures exists j :: Occupies(jobs', j, e) {
      var j :| Occupies(jobs, j, e);
      assert Occupies(jobs', j, e);
    }
  }

  // ---- The audit log ----

  function EventOf(id: string, job: Job, result: JobStatus): AuditEvent {
    AuditEvent(Work(job.kind), result, job.draftId, Some(id), job.releaseId)
  }

  // The events of one job, oldest first.
  function Trail(audit: seq<AuditEvent>, id: string): seq<AuditEvent> {
    if audit == [] then []
    else
      var last := audit[|audit| - 1];
      Trail(audit[..|audit| - 1], id) + if last.jobId == Some(id) then [last] else []
  }

  // queued, running, then succeeded or failed, as far as the job has come.
  function Expected(id: string, job: Job): seq<AuditEvent> {
    match job.status
    case Queued => [EventOf(id, job, Queued)]
    case Running => [EventOf(id, job, Queued), EventOf(id, job, Running)]
    case _ => [EventOf(id, job, Queued), EventOf(id, job, Running), EventOf(id, job, job.status)]
  }

  ghost predicate TrailsMatch(jobs: Jobs, audit: seq<AuditEvent>) {
    forall id :: Trail(audit, id) == if id in jobs then Expected(id, jobs[id]) else []
  }

  predicate Follows(before: JobStatus, after: JobStatus) {
    (before == Queued && after == Running) || (before == Running && (after == Succeeded || after == Failed))
  }

  lemma TrailGrows(audit: seq<AuditEvent>, event: AuditEvent, id: string)
    ensures Trail(audit + [event], id) == Trail(audit, id) + if event.jobId == Some(id) then [event] else []
  {
    assert (audit + [event])[..|audit|] == audit;
  }

  lemma UploadTrails(jobs: Jobs, audit: seq<AuditEvent>, event: AuditEvent)
    requires TrailsMatch(jobs, audit) && event.jobId == None
    ensures TrailsMatch(jobs, audit + [event])
  {
    forall id ensures Trail(audit + [event], id) == Trail(audit, id) {
      TrailGrows(audit, event, id);
    }
  }

  lemma QueuedTrails(jobs: Jobs, audit: seq<AuditEvent>, id: string, job: Job)
    requires TrailsMatch(jobs, audit) && id !in jobs && job.status == Queued
    ensures TrailsMatch(jobs[id := job], audit + [EventOf(id, job, Queued)])
  {
    var event := EventOf(id, job, Queued);
    forall i ensures Trail(audit + [event], i) == Trail(audit, i) + if i == id then [event] else [] {
      TrailGrows(audit, EventOf(id, job, Queued), i);
    }
  }

  lemma AdvancedTrails(jobs: Jobs, audit: seq<AuditEvent>, id: string, status: JobStatus)
    requires TrailsMatch(jobs, audit) && id in jobs && Follows(jobs[id].status, status)
    ensures TrailsMatch(jobs[id := jobs[id].(status := status)], audit + [EventOf(id, jobs[id], status)])
  {
    var event := EventOf(id, jobs[id], status);
    forall i ensures Trail(audit + [event], i) == Trail(audit, i) + if i == id then [event] else [] {
      TrailGrows(audit, EventOf(id, jobs[id], status), i);
    }
  }

  // Reading the log from the start: each event sets the status of its job.
  function Replay(audit: seq<AuditEvent>): map<string, JobStatus> {
    if audit == [] then map[]
    else
      var last := audit[|audit| - 1];
      var before := Replay(audit[..|audit| - 1]);
      if last.jobId.Some? then before[last.jobId.value := last.result] else before
  }

  lemma {:induction false} ReplayReadsTrails(audit: seq<AuditEvent>, id: string)
    ensures id in Replay(audit) <==> Trail(audit, id) != []
    ensures id in Replay(audit) ==> Replay(audit)[id] == Trail(audit, id)[|Trail(audit, id)| - 1].result
  {
    if audit != [] {
      ReplayReadsTrails(audit[..|audit| - 1], id);
    }
  }

  // The audit log replays to the job table.
  lemma AuditReplaysToJobs(jobs: Jobs, audit: seq<AuditEvent>)
    requires TrailsMatch(jobs, audit)
    ensures Replay(audit) == map j | j in jobs :: jobs[j].status
  {
    forall id ensures id in Replay(audit) <==> id in jobs
              ensures id in jobs ==> Replay(audit)[id] == jobs[id].status
    {
      ReplayReadsTrails(audit, id);
      assert Trail(audit, id) == if id in jobs then Expected(id, jobs[id]) else [];
    }
  }

  // ---- What the log tells about drafts ----

  // The status that an event gives a draft, if any.
  function Tells(e: AuditEvent, d: string): Option<DraftStatus> {
    if e.draftId != Some(d) || e.result == Running then None
    else
      match e.action
      case UploadDraft => Some(Uploaded)
      case Work(kind) =>
        match kind
        case ValidateDraft =>
          Some(match e.result case Queued => Validating case Failed => ValidationFailed case _ => ReadyToPublish)
        case PublishDraft =>
          Some(match e.result case Queued => Publishing case Failed => PublishFailed case _ => Published)
        case _ => None
  }

  function Told(audit: seq<AuditEvent>, d: string): Option<DraftStatus> {
    if audit == [] then None
    else
      var last := audit[|audit| - 1];
      if Tells(last, d).Some? then Tells(last, d) else Told(audit[..|audit| - 1], d)
  }

  // The life of a draft: an upload, a validation, then perhaps a publication; after a failure
  // another validation.
  predicate Legal(before: Option<DraftStatus>, after: DraftStatus) {
    match after
    case Uploaded => before == None
    case Validating => before in {Some(Uploaded), Some(ValidationFailed), Some(PublishFailed)}
    case ReadyToPublish => before == Some(Validating)
    case ValidationFailed => before == Some(Validating)
    case Publishing => before == Some(ReadyToPublish)
    case Published => before == Some(Publishing)
    case PublishFailed => before == Some(Publishing)
  }

  // The log tells every draft's status, and its events form a legal life.
  ghost predicate LogTells(drafts: Drafts, audit: seq<AuditEvent>) {
    && (forall d :: Told(audit, d) == if d in drafts then Some(drafts[d]) else None)
    && (forall k, d :: 0 <= k < |audit| && Tells(audit[k], d).Some? ==>
          Legal(Told(audit[..k], d), Tells(audit[k], d).value))
    && (forall e :: e in audit && e.action.Work? ==> e.jobId.Some?)
  }

  lemma ToldGrows(audit: seq<AuditEvent>, e: AuditEvent, d: string)
    ensures Told(audit + [e], d) == if Tells(e, d).Some? then Tells(e, d) else Told(audit, d)
  {
    assert (audit + [e])[..|audit|] == audit;
  }

  lemma LifeGrows(drafts: Drafts, audit: seq<AuditEvent>, e: AuditEvent)
    requires LogTells(drafts, audit) && (e.action.Work? ==> e.jobId.Some?)
    requires forall d :: Tells(e, d).Some? ==> Legal(Told(audit, d), Tells(e, d).value)
    ensures forall k, d :: 0 <= k < |audit + [e]| && Tells((audit + [e])[k], d).Some? ==>
              Legal(Told((audit + [e])[..k], d), Tells((audit + [e])[k], d).value)
    ensures forall x :: x in audit + [e] && x.action.Work? ==> x.jobId.Some?
  {
    hide Told, Tells, Legal;
    var longer := audit + [e];
    forall k, d | 0 <= k < |longer| && Tells(longer[k], d).Some?
      ensures Legal(Told(longer[..k], d), Tells(longer[k], d).value)
    {
      assert longer[..k] == audit[..k] && audit[..|audit|] == audit;
    }
  }

  // An event that tells nothing about any draft.
  lemma SilentTells(drafts: Drafts, audit: seq<AuditEvent>, e: AuditEvent)
    requires LogTells(drafts, audit) && e.action.Work? && e.jobId.Some?
    requires e.result == Running || e.draftId == None || e.action.kind in {RollbackRelease, GetStatus}
    ensures LogTells(drafts, audit + [e])
  {
    hide Told, Legal;
    LifeGrows(drafts, audit, e);
    forall d ensures Told(audit + [e], d) == Told(audit, d) {
      ToldGrows(audit, e, d);
    }
  }

  // An event that tells a draft's next status.
  lemma NextTells(drafts: Drafts, audit: seq<AuditEvent>, e: AuditEvent, d: string, status: DraftStatus)
    requires LogTells(drafts, audit) && (e.action.Work? ==> e.jobId.Some?)
    requires e.draftId == Some(d) && Tells(e, d) == Some(status)
    requires Legal(if d in drafts then Some(drafts[d]) else None, status)
    ensures LogTells(drafts[d := status], audit + [e])
  {
    hide Told, Legal;
    forall c ensures Tells(e, c).Some? ==> c == d {
    }
    LifeGrows(drafts, audit, e);
    forall c ensures Told(audit + [e], c) == if c == d then Some(status) else Told(audit, c) {
      ToldGrows(audit, e, c);
    }
  }

  lemma NoLogTells()
    ensures LogTells(map[], [])
  {
  }

  // The last event that tells a draft's status.
  lemma {:induction false} LastTold(audit: seq<AuditEvent>, d: string) returns (k: nat)
    requires Told(audit, d).Some?
    ensures k < |audit| && Tells(audit[k], d) == Told(audit, d)
    ensures forall m :: k < m < |audit| ==> Tells(audit[m], d) == None
  {
    hide Tells;
    var last := |audit| - 1;
    if Tells(audit[last], d).Some? {
      k := last;
    } else {
      k := LastTold(audit[..last], d);
    }
  }

  // The end of the draft's last validation, in a log that tells so.
  ghost predicate ValidationEnds(e: AuditEvent, d: string) {
    e.action == Work(ValidateDraft) && e.result == Succeeded && e.draftId == Some(d)
  }

  ghost predicate PublicationStarts(e: AuditEvent, d: string) {
    e.action == Work(PublishDraft) && e.result == Queued && e.draftId == Some(d)
  }

  // A job of the draft was queued, or ended.
  ghost predicate Moves(e: AuditEvent, d: string) {
    e.action in {Work(ValidateDraft), Work(PublishDraft)} && e.result != Running && e.draftId == Some(d)
  }

  // A draft that is being or has been published was validated by a job that succeeded, and its
  // publication was queued with no other job of the draft queued or ended in between.
  lemma PublishedWasValidated(t: Tables, d: string) returns (v: nat, k: nat, j: string)
    requires Sound(t) && d in t.drafts && t.drafts[d] in {Publishing, Published}
    ensures v < k < |t.audit| && ValidationEnds(t.audit[v], d) && PublicationStarts(t.audit[k], d)
    ensures forall m :: v < m < k ==> !Moves(t.audit[m], d)
    ensures t.audit[v].jobId == Some(j) && j in t.jobs
    ensures t.jobs[j].kind == ValidateDraft && t.jobs[j].status == Succeeded && t.jobs[j].draftId == Some(d)
  {
    hide AllAimed, WorkMatches, OneCurrent, LogTells, TrailsMatch, Told, Tells;
    k := PublicationQueued(t.drafts, t.audit, d);
    v := ValidationBefore(t.audit, d, k);
    j := JobOf(t.drafts, t.jobs, t.audit, v);
  }

  lemma JobOf(drafts: Drafts, jobs: Jobs, audit: seq<AuditEvent>, v: nat) returns (j: string)
    requires LogTells(drafts, audit) && TrailsMatch(jobs, audit) && v < |audit|
    requires audit[v].action.Work? && audit[v].result == Succeeded
    ensures audit[v].jobId == Some(j) && j in jobs && jobs[j].status == Succeeded
    ensures audit[v].action == Work(jobs[j].kind) && audit[v].draftId == jobs[j].draftId
  {
    hide Told, Tells;
    assert audit[v] in audit;
    j := audit[v].jobId.value;
    TrailHolds(audit, audit[v], j);
    assert Trail(audit, j) == if j in jobs then Expected(j, jobs[j]) else [];
  }

  lemma ValidationBefore(audit: seq<AuditEvent>, d: string, k: nat) returns (v: nat)
    requires k <= |audit| && Told(audit[..k], d) == Some(ReadyToPublish)
    ensures v < k && ValidationEnds(audit[v], d) && forall m :: v < m < k ==> !Moves(audit[m], d)
  {
    hide Told;
    v := LastTold(audit[..k], d);
    assert audit[..k][v] == audit[v];
    forall m | v < m < k ensures !Moves(audit[m], d) {
      assert audit[..k][m] == audit[m];
    }
  }

  lemma PublicationQueued(drafts: Drafts, audit: seq<AuditEvent>, d: string) returns (k: nat)
    requires LogTells(drafts, audit) && d in drafts && drafts[d] in {Publishing, Published}
    ensures k < |audit| && PublicationStarts(audit[k], d) && Told(audit[..k], d) == Some(ReadyToPublish)
  {
    k := LastTold(audit, d);
    assert Legal(Told(audit[..k], d), Tells(audit[k], d).value);
    if drafts[d] == Published {
      var p := LastTold(audit[..k], d);
      assert audit[..k][p] == audit[p] && audit[..k][..p] == audit[..p];
      k := p;
      assert Legal(Told(audit[..k], d), Tells(audit[k], d).value);
    }
  }

  lemma {:induction false} TrailHolds(audit: seq<AuditEvent>, e: AuditEvent, j: string)
    requires e in audit && e.jobId == Some(j)
    ensures e in Trail(audit, j)
  {
    if e != audit[|audit| - 1] {
      TrailHolds(audit[..|audit| - 1], e, j);
    }
  }

  // ---- Releases ----

  ghost predicate IsCurrent(releases: Releases, b: string) {
    b in releases && releases[b].status == Current
  }

  // Once there is a release, exactly one is current.
  ghost predicate OneCurrent(releases: Releases) {
    && (forall a, b :: IsCurrent(releases, a) && IsCurrent(releases, b) ==> a == b)
    && (releases != map[] ==> exists b :: IsCurrent(releases, b))
  }

  // Every current release but `keep` gets another status.
  function Demoted(releases: Releases, keep: Option<string>, status: ReleaseStatus): Releases {
    map b | b in releases ::
        if releases[b].status == Current && Some(b) != keep then releases[b].(status := status) else releases[b]
  }

  // What recording a new release, and restoring an old one, make of the table.
  function WithPublished(releases: Releases, b: string, draftId: string): Releases {
    Demoted(releases, None, Superseded)[b := Release(draftId, Current)]
  }

  function WithRestored(releases: Releases, b: string): Releases
    requires b in releases
  {
    Demoted(releases, Some(b), RolledBack)[b := releases[b].(status := Current)]
  }

  lemma PublishedIsCurrent(releases: Releases, b: string, d: string)
    ensures OneCurrent(WithPublished(releases, b, d)) && IsCurrent(WithPublished(releases, b, d), b)
  {
    assert IsCurrent(WithPublished(releases, b, d), b);
  }

  lemma RestoredIsCurrent(releases: Releases, b: string)
    requires b in releases
    ensures OneCurrent(WithRestored(releases, b)) && IsCurrent(WithRestored(releases, b), b)
  {
    assert IsCurrent(WithRestored(releases, b), b);
  }

  // The unique index turns down a restored row that is written before that of the release it
  // replaces. Changed rows are written in the order of their keys.
  predicate Refused(releases: Releases, target: string) {
    exists b :: b in releases && releases[b].status == Current && b != target && LexLeq(target, b)
  }

  // The rows that restoring the target changes.
  predicate Changes(releases: Releases, target: string, b: string) {
    b in releases && target in releases && WithRestored(releases, target)[b] != releases[b]
  }

  function WriteRows(releases: Releases, target: string, rows: seq<string>): Releases {
    if rows == [] then releases
    else
      var before, b := WriteRows(releases, target, rows[..|rows| - 1]), rows[|rows| - 1];
      if b in releases && target in releases then before[b := WithRestored(releases, target)[b]] else before
  }

  ghost predicate AtMostOneCurrent(releases: Releases) {
    forall a, b :: IsCurrent(releases, a) && IsCurrent(releases, b) ==> a == b
  }

  // Written row by row in key order, a rollback meets two current releases on the way exactly
  // if the target sorts before the current release.
  lemma RefusedIffOutOfOrder(releases: Releases, target: string, rows: seq<string>)
    requires OneCurrent(releases) && target in releases
    requires forall b :: b in rows <==> Changes(releases, target, b)
    requires Distinct(rows) && SortedBy(rows, LexLeq)
    ensures
      (forall n :: 0 <= n <= |rows| ==> AtMostOneCurrent(WriteRows(releases, target, rows[..n])))
      <==> !Refused(releases, target)
    ensures WriteRows(releases, target, rows) == WithRestored(releases, target)
  {
    var current :| IsCurrent(releases, current);
    if current == target {
      NothingChanges(releases, target, rows);
    } else {
      TwoRows(releases, target, current, rows);
      TwoWrites(releases, target, current, rows);
    }
  }

  lemma NothingChanges(releases: Releases, target: string, rows: seq<string>)
    requires OneCurrent(releases) && IsCurrent(releases, target)
    requires forall b :: b in rows <==> Changes(releases, target, b)
    ensures rows == [] && WithRestored(releases, target) == releases && !Refused(releases, target)
  {
    forall b | b in releases ensures WithRestored(releases, target)[b] == releases[b] {
      assert b != target ==> !IsCurrent(releases, b);
    }
    SomeElement(rows);
    assert forall b :: b in releases && releases[b].status == Current ==> IsCurrent(releases, b);
  }

  lemma TwoRows(releases: Releases, target: string, current: string, rows: seq<string>)
    requires OneCurrent(releases) && IsCurrent(releases, current) && target in releases && current != target
    requires forall b :: b in rows <==> Changes(releases, target, b)
    requires Distinct(rows) && SortedBy(rows, LexLeq)
    ensures rows == if LexLeq(target, current) then [target, current] else [current, target]
    ensures Refused(releases, target) <==> LexLeq(target, current)
  {
    OnlyTheseChange(releases, target, current);
    TwoElements(rows, target, current);
    assert LexLeq(rows[0], rows[1]);
    if LexLeq(target, current) && LexLeq(current, target) {
      LexAntisymmetric(target, current);
    }
    LexTotal(target, current);
    assert forall b :: b in releases && releases[b].status == Current ==> IsCurrent(releases, b);
  }

  lemma OnlyTheseChange(releases: Releases, target: string, current: string)
    requires OneCurrent(releases) && IsCurrent(releases, current) && target in releases && current != target
    ensures forall b :: Changes(releases, target, b) <==> b == target || b == current
  {
    assert !IsCurrent(releases, target);
    forall b ensures Changes(releases, target, b) <==> b == target || b == current {
      assert b in releases && b != current ==> !IsCurrent(releases, b);
    }
  }

  lemma RestoredRows(releases: Releases, target: string, current: string)
    requires OneCurrent(releases) && IsCurrent(releases, current) && target in releases && current != target
    ensures
      var after := WithRestored(releases, target);
      && after.Keys == releases.Keys && after[target].status == Current && after[current].status == RolledBack
      && !IsCurrent(releases, target)
      && forall b :: b in releases && b != target && b != current ==> after[b] == releases[b] && !IsCurrent(releases, b)
  {
    OnlyTheseChange(releases, target, current);
    forall b | b in releases && b != target && b != current ensures WithRestored(releases, target)[b] == releases[b] {
      assert !Changes(releases, target, b);
    }
  }

  lemma WrittenRows(releases: Releases, target: string, a: string, b: string)
    requires target in releases && a in releases && b in releases
    ensures WriteRows(releases, target, [a]) == releases[a := WithRestored(releases, target)[a]]
    ensures WriteRows(releases, target, [a, b])
        == releases[a := WithRestored(releases, target)[a]][b := WithRestored(releases, target)[b]]
  {
    hide WithRestored, WriteRows;
    NoRows(releases, target);
    OneMoreRow(releases, target, [], a);
    OneMoreRow(releases, target, [a], b);
    assert [] + [a] == [a] && [a] + [b] == [a, b];
  }

  lemma OneMoreRow(releases: Releases, target: string, rows: seq<string>, b: string)
    requires target in releases && b in releases
    ensures WriteRows(releases, target, rows + [b])
        == WriteRows(releases, target, rows)[b := WithRestored(releases, target)[b]]
  {
    hide WithRestored;
    assert (rows + [b])[..|rows|] == rows;
  }

  // Written first, the row of the target meets the current one.
  lemma TargetFirst(releases: Releases, target: string, current: string)
    requires OneCurrent(releases) && IsCurrent(releases, current) && target in releases && current != target
    ensures !AtMostOneCurrent(WriteRows(releases, target, [target]))
    ensures WriteRows(releases, target, [target, current]) == WithRestored(releases, target)
  {
    hide WithRestored, WriteRows, OneCurrent;
    RestoredRows(releases, target, current);
    WrittenRows(releases, target, target, current);
    var after := WithRestored(releases, target);
    assert releases[target := after[target]][current := after[current]] == after;
    var first := WriteRows(releases, target, [target]);
    assert IsCurrent(first, target) && IsCurrent(first, current);
  }

  lemma CurrentFirst(releases: Releases, target: string, current: string)
    requires OneCurrent(releases) && IsCurrent(releases, current) && target in releases && current != target
    ensures AtMostOneCurrent(WriteRows(releases, target, [current]))
    ensures WriteRows(releases, target, [current, target]) == WithRestored(releases, target)
  {
    hide WithRestored, WriteRows, OneCurrent;
    RestoredRows(releases, target, current);
    WrittenRows(releases, target, current, target);
    var after := WithRestored(releases, target);
    assert releases[current := after[current]][target := after[target]] == after;
    var first := WriteRows(releases, target, [current]);
    assert forall b :: !IsCurrent(first, b);
  }

  lemma TwoWrites(releases: Releases, target: string, current: string, rows: seq<string>)
    requires OneCurrent(releases) && IsCurrent(releases, current) && target in releases && current != target
    requires rows == [target, current] || rows == [current, target]
    ensures
      (forall n :: 0 <= n <= |rows| ==> AtMostOneCurrent(WriteRows(releases, target, rows[..n])))
      <==> rows[0] == current
    ensures WriteRows(releases, target, rows) == WithRestored(releases, target)
  {
    hide WithRestored, WriteRows, OneCurrent, AtMostOneCurrent, IsCurrent;
    assert rows[..0] == [] && rows[..1] == [rows[0]] && rows[..2] == rows;
    NoRows(releases, target);
    AtMostOneBefore(releases);
    AfterIsFine(releases, target);
    if rows[0] == target {
      TargetFirst(releases, target, current);
      assert !AtMostOneCurrent(WriteRows(releases, target, rows[..1]));
    } else {
      CurrentFirst(releases, target, current);
    }
  }

  lemma NoRows(releases: Releases, target: string)
    ensures WriteRows(releases, target, []) == releases
  {
  }

  lemma AtMostOneBefore(releases: Releases)
    requires OneCurrent(releases)
    ensures AtMostOneCurrent(releases)
  {
  }

  lemma AfterIsFine(releases: Releases, target: string)
    requires target in releases
    ensures AtMostOneCurrent(WithRestored(releases, target))
  {
    RestoredIsCurrent(releases, target);
  }

  // ---- What every transaction keeps, and what none takes back ----

  ghost predicate Sound(t: Tables) {
    && AllAimed(t.drafts, t.jobs, t.releases) && WorkMatches(t.drafts, t.jobs)
    && TrailsMatch(t.jobs, t.audit) && OneCurrent(t.releases) && LogTells(t.drafts, t.audit)
  }

  predicate JobEvolves(before: Job, after: Job) {
    after == before.(status := after.status) && (after.status == before.status || Follows(before.status, after.status))
  }

  ghost predicate JobsEvolve(before: Jobs, after: Jobs) {
    forall j :: j in before ==> j in after && JobEvolves(before[j], after[j])
  }

  ghost predicate DraftsEvolve(before: Drafts, after: Drafts) {
    forall d :: d in before ==> d in after && (after[d] == before[d] || Legal(Some(before[d]), after[d]))
  }

  // Rows never vanish, drafts and jobs move along the governed transitions, the log only grows.
  ghost predicate Evolves(t: Tables, u: Tables) {
    && DraftsEvolve(t.drafts, u.drafts) && JobsEvolve(t.jobs, u.jobs)
    && t.releases.Keys <= u.releases.Keys && t.audit <= u.audit
  }

  ghost predicate History(states: seq<Tables>) {
    forall i :: 0 < i < |states| ==> Evolves(states[i - 1], states[i])
  }

  // Over any run: a published draft and a finished job never change again, a claimed job is
  // never queued again, and past events stay what they were.
  lemma {:induction false} FinishedForGood(states: seq<Tables>)
    requires History(states) && |states| > 0
    ensures
      var first, last := states[0], states[|states| - 1];
      && first.audit <= last.audit
      && (forall d :: d in first.drafts && first.drafts[d] == Published ==>
          d in last.drafts && last.drafts[d] == Published)
      && (forall j :: j in first.jobs && !Active(first.jobs[j]) ==> j in last.jobs && last.jobs[j] == first.jobs[j])
      && (forall j :: j in first.jobs && first.jobs[j].status != Queued ==>
          j in last.jobs && last.jobs[j].status != Queued)
  {
    if |states| > 1 {
      var front := states[..|states| - 1];
      FinishedForGood(front);
      assert Evolves(states[|states| - 2], states[|states| - 1]);
    }
  }

  // While a job works on a draft, nothing else can be queued for it; so a worker that dies
  // after its claim blocks the draft for good.
  lemma BusyDraftIsBlocked(t: Tables, j: string, kind: JobKind)
    requires Sound(t) && j in t.jobs && OnDraft(t.jobs[j]) && Active(t.jobs[j])
    requires kind == ValidateDraft || kind == PublishDraft
    ensures t.jobs[j].draftId.Some? && t.jobs[j].draftId.value in t.drafts
    ensures t.drafts[t.jobs[j].draftId.value] in {Validating, Publishing}
    ensures !Legal(Some(t.drafts[t.jobs[j].draftId.value]), Doing(kind))
  {
    assert Aimed(t.drafts, t.releases, t.jobs[j]);
    assert Occupies(t.jobs, j, t.jobs[j].draftId.value);
  }

  // ---- Claiming ----

  // order_by(queued_at, id)
  predicate Before(jobs: Jobs, i: string, j: string)
    requires i in jobs && j in jobs
  {
    jobs[i].queuedAt < jobs[j].queuedAt || (jobs[i].queuedAt == jobs[j].queuedAt && LexLeq(i, j))
  }

  ghost predicate IsOldest(jobs: Jobs, waiting: set<string>, i: string) {
    i in waiting && i in jobs && forall j :: j in waiting && j in jobs ==> Before(jobs, i, j)
  }

  lemma {:induction false} OldestExists(jobs: Jobs, waiting: set<string>)
    requires waiting != {} && waiting <= jobs.Keys
    ensures exists i :: IsOldest(jobs, waiting, i)
    decreases |waiting|
  {
    var k :| k in waiting;
    LexTotal(k, k);
    if waiting == {k} {
      assert IsOldest(jobs, waiting, k);
    } else {
      assert waiting - {k} != {};
      OldestExists(jobs, waiting - {k});
      var i :| IsOldest(jobs, waiting - {k}, i);
      LexTotal(i, k);
      if Before(jobs, i, k) {
        assert IsOldest(jobs, waiting, i);
      } else {
        forall j | j in waiting && j in jobs ensures Before(jobs, k, j) {
          if j != k && LexLeq(k, i) && LexLeq(i, j) {
            LexTransitive(k, i, j);
          }
        }
        assert IsOldest(jobs, waiting, k);
      }
    }
  }

  lemma OldestIsUnique(jobs: Jobs, waiting: set<string>, i: string, j: string)
    requires IsOldest(jobs, waiting, i) && IsOldest(jobs, waiting, j)
    ensures i == j
  {
    assert Before(jobs, i, j) && Before(jobs, j, i);
    LexAntisymmetric(i, j);
  }

  lemma OldestWritten(jobs: Jobs, i: string)
    requires IsOldest(jobs, Waiting(jobs), i)
    ensures forall j :: j in jobs && jobs[j].status == Queued ==>
              jobs[i].queuedAt <= jobs[j].queuedAt && (jobs[i].queuedAt == jobs[j].queuedAt ==> LexLeq(i, j))
  {
    forall j | j in jobs && jobs[j].status == Queued ensures Before(jobs, i, j) {
      assert j in Waiting(jobs);
    }
  }

  function Waiting(jobs: Jobs): set<string> {
    set j | j in jobs && jobs[j].status == Queued
  }

  // ---- The transactions ----

  class Repository {
    var drafts: Drafts
    var jobs: Jobs
    var releases: Releases
    var audit: seq<AuditEvent>

    constructor ()
      ensures Valid() && State() == Tables(map[], map[], map[], [])
    {
      drafts, jobs, releases, audit := map[], map[], map[], [];
      NoLogTells();
    }

    ghost function State(): Tables
      reads this
    {
      Tables(drafts, jobs, releases, audit)
    }

    ghost predicate Valid()
      reads this
    {
      Sound(State())
    }

    // ---- Parts of transactions ----

    method Audit(event: AuditEvent)
      modifies this`audit
      ensures audit == old(audit) + [event]
    {
      audit := audit + [event];
    }

    // A new job and its first event; the key must be new.
    method Enqueue(id: string, kind: JobKind, draftId: Option<string>, releaseId: Option<string>, now: int)
      modifies this`jobs, this`audit
      ensures jobs == old(jobs)[id := Job(kind, Queued, draftId, releaseId, now)]
      ensures audit == old(audit) + [EventOf(id, Job(kind, Queued, draftId, releaseId, now), Queued)]
    {
      var job := Job(kind, Queued, draftId, releaseId, now);
      jobs := jobs[id := job];
      Audit(EventOf(id, job, Queued));
    }

    // The end of a job's transaction: its new status and the event for it.
    method Advance(id: string, status: JobStatus)
      requires id in jobs
      modifies this`jobs, this`audit
      ensures jobs == old(jobs)[id := old(jobs)[id].(status := status)]
      ensures audit == old(audit) + [EventOf(id, old(jobs)[id], status)]
    {
      jobs := jobs[id := jobs[id].(status := status)];
      Audit(EventOf(id, jobs[id], status));
    }

    // The loop over the current releases.
    method Demote(keep: Option<string>, status: ReleaseStatus)
      modifies this`releases
      ensures releases == Demoted(old(releases), keep, status)
    {
      var current := set b | b in releases && releases[b].status == Current;
      while current != {}
        invariant current <= old(releases).Keys == releases.Keys
        invariant forall b :: b in current ==> releases[b] == old(releases)[b]
        invariant forall b :: b in releases && b !in current ==> releases[b] == Demoted(old(releases), keep, status)[b]
      {
        var b :| b in current;
        if Some(b) != keep {
          releases := releases[b := releases[b].(status := status)];
        }
        current := current - {b};
      }
    }

    // ---- Public operations ----

    method CreateDraft(id: string) returns (error: Option<Error>)
      requires Valid()
      modifies this`drafts, this`audit
      ensures Valid() && Evolves(old(State()), State())
      ensures error == if id in old(drafts) then Some(DuplicateKey) else None
      ensures error.Some? ==> State() == old(State())
      ensures error == None ==> drafts == old(drafts)[id := Uploaded]
      ensures error == None ==> audit == old(audit) + [AuditEvent(UploadDraft, Succeeded, Some(id), None, None)]
    {
      hide WorkMatches, TrailsMatch, OneCurrent, LogTells;
      if id in drafts {
        return Some(DuplicateKey);
      }
      var upload := AuditEvent(UploadDraft, Succeeded, Some(id), None, None);
      NewDraftMatches(drafts, jobs, id);
      UploadTrails(jobs, audit, upload);
      NextTells(drafts, audit, upload, id, Uploaded);
      drafts := drafts[id := Uploaded];
      Audit(upload);
      error := None;
    }

    method CreateDraftAndQueueValidation(id: string, jobId: string, now: int) returns (error: Option<Error>)
      requires Valid()
      modifies this`drafts, this`jobs, this`audit
      ensures Valid() && Evolves(old(State()), State())
      ensures error == if id in old(drafts) || jobId in old(jobs) then Some(DuplicateKey) else None
      ensures error.Some? ==> State() == old(State())
      ensures error == None ==> drafts == old(drafts)[id := Validating]
      ensures error == None ==> jobs == old(jobs)[jobId := Job(ValidateDraft, Queued, Some(id), None, now)]
      ensures error == None ==>
          audit == old(audit) + [AuditEvent(UploadDraft, Succeeded, Some(id), None, None)] +
          [EventOf(jobId, jobs[jobId], Queued)]
    {
      hide WorkMatches, TrailsMatch, OneCurrent, LogTells;
      if id in drafts || jobId in jobs {
        return Some(DuplicateKey);
      }
      var upload := AuditEvent(UploadDraft, Succeeded, Some(id), None, None);
      var job := Job(ValidateDraft, Queued, Some(id), None, now);
      NewDraftMatches(drafts, jobs, id);
      UploadTrails(jobs, audit, upload);
      StartMatches(drafts[id := Uploaded], jobs, jobId, job);
      QueuedTrails(jobs, audit + [upload], jobId, job);
      NextTells(drafts, audit, upload, id, Uploaded);
      NextTells(drafts[id := Uploaded], audit + [upload], EventOf(jobId, job, Queued), id, Validating);
      drafts := drafts[id := Uploaded];
      Audit(upload);
      drafts := drafts[id := Validating];
      Enqueue(jobId, ValidateDraft, Some(id), None, now);
      error := None;
    }

    // queue_validation and queue_publish.
    method QueueDraftJob(kind: JobKind, draftId: string, jobId: string, now: int) returns (error: Option<Error>)
      requires Valid() && (kind == ValidateDraft || kind == PublishDraft)
      modifies this`drafts, this`jobs, this`audit
      ensures Valid() && Evolves(old(State()), State())
      ensures
        error == if draftId !in old(drafts) then Some(UnknownDraft)
                 else if !Allowed(old(drafts)[draftId], Doing(kind)) then Some(IllegalTransition)
                 else if jobId in old(jobs) then Some(DuplicateKey) else None
      // Only a validated draft is published; only a new or failed one is validated.
      ensures
        error == Some(IllegalTransition) <==>
        && draftId in old(drafts)
        && if kind == PublishDraft then old(drafts)[draftId] != ReadyToPublish
           else old(drafts)[draftId] !in {Uploaded, ValidationFailed, PublishFailed}
      ensures error.Some? ==> State() == old(State())
      ensures error == None ==>
          drafts == old(drafts)[draftId := if kind == PublishDraft then Publishing else Validating]
      ensures error == None ==> jobs == old(jobs)[jobId := Job(kind, Queued, Some(draftId), None, now)]
      ensures error == None ==> audit == old(audit) + [EventOf(jobId, jobs[jobId], Queued)]
      ensures error == None ==>
          ActiveJobs(old(jobs), ValidateDraft, draftId) == ActiveJobs(old(jobs), PublishDraft, draftId) == {}
    {
      hide WorkMatches, TrailsMatch, OneCurrent, LogTells, ActiveJobs;
      if draftId !in drafts {
        return Some(UnknownDraft);
      }
      if !Allowed(drafts[draftId], Doing(kind)) {
        return Some(IllegalTransition);
      }
      if jobId in jobs {
        return Some(DuplicateKey);
      }
      var job := Job(kind, Queued, Some(draftId), None, now);
      BusyExactlyWithOneJob(drafts, jobs, draftId, ValidateDraft);
      BusyExactlyWithOneJob(drafts, jobs, draftId, PublishDraft);
      StartMatches(drafts, jobs, jobId, job);
      QueuedTrails(jobs, audit, jobId, job);
      NextTells(drafts, audit, EventOf(jobId, job, Queued), draftId, Doing(kind));
      drafts := drafts[draftId := Doing(kind)];
      Enqueue(jobId, kind, Some(draftId), None, now);
      error := None;
    }

    method QueueRollback(buildId: string, jobId: string, now: int) returns (error: Option<Error>)
      requires Valid()
      modifies this`jobs, this`audit
      ensures Valid() && Evolves(old(State()), State())
      ensures
        var active := exists j ::
          && j in old(jobs) && old(jobs)[j].kind == RollbackRelease && old(jobs)[j].releaseId == Some(buildId)
          && old(jobs)[j].status in {Queued, Running};
        error == if buildId !in old(releases) then Some(UnknownRelease)
                 else if active then Some(ActiveRollback)
                 else if jobId in old(jobs) then Some(DuplicateKey) else None
      ensures error.Some? ==> State() == old(State())
      ensures error == None ==> jobs == old(jobs)[jobId := Job(RollbackRelease, Queued, None, Some(buildId), now)]
      ensures error == None ==> audit == old(audit) + [EventOf(jobId, jobs[jobId], Queued)]
    {
      hide WorkMatches, TrailsMatch, OneCurrent, LogTells;
      if buildId !in releases {
        return Some(UnknownRelease);
      }
      if exists j :: j in jobs && RollsBack(jobs, j, buildId) {
        return Some(ActiveRollback);
      }
      if jobId in jobs {
        return Some(DuplicateKey);
      }
      var job := Job(RollbackRelease, Queued, None, Some(buildId), now);
      OtherJobMatches(drafts, jobs, jobId, job);
      QueuedTrails(jobs, audit, jobId, job);
      SilentTells(drafts, audit, EventOf(jobId, job, Queued));
      Enqueue(jobId, RollbackRelease, None, Some(buildId), now);
      error := None;
    }

    method ClaimNextJob() returns (claimed: Option<string>)
      requires Valid()
      modifies this`jobs, this`audit
      ensures Valid() && Evolves(old(State()), State())
      ensures claimed == None <==> Waiting(old(jobs)) == {}
      ensures claimed == None ==> State() == old(State())
      ensures claimed.Some? ==> IsOldest(old(jobs), Waiting(old(jobs)), claimed.value)
      // No queued job was queued before it, and of those queued at the same time it has the least id.
      ensures
        claimed.Some? ==>
        && claimed.value in old(jobs) && old(jobs)[claimed.value].status == Queued
        && forall j :: j in old(jobs) && old(jobs)[j].status == Queued ==>
            && old(jobs)[claimed.value].queuedAt <= old(jobs)[j].queuedAt
            && (old(jobs)[claimed.value].queuedAt == old(jobs)[j].queuedAt ==> LexLeq(claimed.value, j))
      ensures claimed.Some? ==> jobs == old(jobs)[claimed.value := old(jobs)[claimed.value].(status := Running)]
      ensures claimed.Some? ==> audit == old(audit) + [EventOf(claimed.value, old(jobs)[claimed.value], Running)]
    {
      hide WorkMatches, TrailsMatch, OneCurrent, LogTells, Before;
      var waiting := Waiting(jobs);
      if waiting == {} {
        return None;
      }
      OldestExists(jobs, waiting);
      var id :| id in waiting && forall j :: j in waiting ==> Before(jobs, id, j);
      OldestWritten(jobs, id);
      OtherJobMatches(drafts, jobs, id, jobs[id].(status := Running));
      AdvancedTrails(jobs, audit, id, Running);
      SilentTells(drafts, audit, EventOf(id, jobs[id], Running));
      Advance(id, Running);
      claimed := Some(id);
    }

    // _locked_running_job
    function RunningJob(id: string): Option<Error>
      reads this`jobs
    {
      if id !in jobs then Some(UnknownJob) else if jobs[id].status != Running then Some(NotRunning) else None
    }

    // complete_job: a running job never meets an illegal draft transition.
    method CompleteJob(id: string) returns (error: Option<Error>)
      requires Valid()
      modifies this`drafts, this`jobs, this`audit
      ensures Valid() && Evolves(old(State()), State())
      ensures
        error == if old(RunningJob(id)).Some? then old(RunningJob(id))
                 else if old(jobs)[id].kind == RollbackRelease then Some(WrongKind) else None
      ensures error.Some? ==> State() == old(State())
      ensures error == None ==> audit == old(audit) + [EventOf(id, old(jobs)[id], Succeeded)]
      ensures error == None ==> jobs == old(jobs)[id := old(jobs)[id].(status := Succeeded)]
      ensures
        error == None && OnDraft(old(jobs)[id]) ==>
        var status := if old(jobs)[id].kind == ValidateDraft then ReadyToPublish else Published;
        drafts == old(drafts)[old(jobs)[id].draftId.value := status]
      ensures error == None && !OnDraft(old(jobs)[id]) ==> drafts == old(drafts)
    {
      hide WorkMatches, TrailsMatch, OneCurrent, LogTells;
      error := RunningJob(id);
      if error.Some? {
        return;
      }
      if jobs[id].kind == RollbackRelease {
        return Some(WrongKind);
      }
      var done := jobs[id].(status := Succeeded);
      if OnDraft(jobs[id]) {
        var status := if jobs[id].kind == ValidateDraft then ReadyToPublish else Published;
        FinishMatches(drafts, jobs, id, done, status);
        NextTells(drafts, audit, EventOf(id, jobs[id], Succeeded), jobs[id].draftId.value, status);
        error := Transition(jobs[id].draftId.value, status);
      } else {
        OtherJobMatches(drafts, jobs, id, done);
        SilentTells(drafts, audit, EventOf(id, jobs[id], Succeeded));
      }
      AdvancedTrails(jobs, audit, id, Succeeded);
      Advance(id, Succeeded);
    }

    // transition_draft
    method Transition(draftId: string, target: DraftStatus) returns (error: Option<Error>)
      requires draftId in drafts
      modifies this`drafts
      ensures error == if Legal(Some(old(drafts)[draftId]), target) then None else Some(IllegalTransition)
      ensures drafts == if error == None then old(drafts)[draftId := target] else old(drafts)
    {
      if !Allowed(drafts[draftId], target) {
        return Some(IllegalTransition);
      }
      drafts := drafts[draftId := target];
      error := None;
    }

    method FailJob(id: string) returns (error: Option<Error>)
      requires Valid()
      modifies this`drafts, this`jobs, this`audit
      ensures Valid() && Evolves(old(State()), State())
      ensures error == old(RunningJob(id))
      ensures error.Some? ==> State() == old(State())
      ensures error == None ==> audit == old(audit) + [EventOf(id, old(jobs)[id], Failed)]
      ensures error == None ==> jobs == old(jobs)[id := old(jobs)[id].(status := Failed)]
      ensures
        error == None && OnDraft(old(jobs)[id]) ==>
        var status := if old(jobs)[id].kind == ValidateDraft then ValidationFailed else PublishFailed;
        drafts == old(drafts)[old(jobs)[id].draftId.value := status]
      ensures error == None && !OnDraft(old(jobs)[id]) ==> drafts == old(drafts)
    {
      hide WorkMatches, TrailsMatch, OneCurrent, LogTells;
      error := RunningJob(id);
      if error.Some? {
        return;
      }
      var done := jobs[id].(status := Failed);
      if OnDraft(jobs[id]) {
        var status := if jobs[id].kind == ValidateDraft then ValidationFailed else PublishFailed;
        FinishMatches(drafts, jobs, id, done, status);
        NextTells(drafts, audit, EventOf(id, jobs[id], Failed), jobs[id].draftId.value, status);
        error := Transition(jobs[id].draftId.value, status);
      } else {
        OtherJobMatches(drafts, jobs, id, done);
        SilentTells(drafts, audit, EventOf(id, jobs[id], Failed));
      }
      AdvancedTrails(jobs, audit, id, Failed);
      Advance(id, Failed);
    }

    // record_release
    method RecordRelease(buildId: string, draftId: string) returns (error: Option<Error>)
      requires Valid()
      modifies this`releases
      ensures Valid() && Evolves(old(State()), State())
      ensures
        error == if draftId !in old(drafts) then Some(UnknownDraft)
                 else if buildId in old(releases) then Some(DuplicateKey) else None
      ensures error.Some? ==> State() == old(State())
      ensures error == None ==>
          releases == WithPublished(old(releases), buildId, draftId)
      // The new release is current, the one before superseded, and every other release as it was.
      ensures
        error == None ==>
        && releases.Keys == old(releases).Keys + {buildId} && releases[buildId] == Release(draftId, Current)
        && forall b :: b in old(releases) ==>
            releases[b] == Release(old(releases)[b].draftId,
                if old(releases)[b].status == Current then Superseded else old(releases)[b].status)
      ensures error == None ==> IsCurrent(releases, buildId)
    {
      hide WorkMatches, TrailsMatch, OneCurrent, LogTells, IsCurrent;
      if draftId !in drafts {
        return Some(UnknownDraft);
      }
      if buildId in releases {
        return Some(DuplicateKey);
      }
      PublishedIsCurrent(releases, buildId, draftId);
      Demote(None, Superseded);
      releases := releases[buildId := Release(draftId, Current)];
      error := None;
    }

    method CompletePublishJob(id: string, buildId: string, draftId: string) returns (error: Option<Error>)
      requires Valid()
      modifies this`drafts, this`jobs, this`releases, this`audit
      ensures Valid() && Evolves(old(State()), State())
      ensures
        error == if old(RunningJob(id)).Some? then old(RunningJob(id))
                 else if old(jobs)[id].kind != PublishDraft then Some(WrongKind)
                 else if old(jobs)[id].draftId != Some(draftId) then Some(WrongDraft)
                 else if buildId in old(releases) then Some(DuplicateKey) else None
      ensures error.Some? ==> State() == old(State())
      ensures error == None ==> audit == old(audit) + [EventOf(id, old(jobs)[id], Succeeded)]
      ensures error == None ==>
          jobs == old(jobs)[id := old(jobs)[id].(status := Succeeded)] && drafts == old(drafts)[draftId := Published]
      ensures error == None ==>
          releases == WithPublished(old(releases), buildId, draftId)
      // The new release is current, the one before superseded, and every other release as it was.
      ensures
        error == None ==>
        && releases.Keys == old(releases).Keys + {buildId} && releases[buildId] == Release(draftId, Current)
        && forall b :: b in old(releases) ==>
            releases[b] == Release(old(releases)[b].draftId,
                if old(releases)[b].status == Current then Superseded else old(releases)[b].status)
      ensures error == None ==> IsCurrent(releases, buildId)
    {
      hide WorkMatches, TrailsMatch, OneCurrent, LogTells, IsCurrent;
      error := RunningJob(id);
      if error.Some? {
        return;
      }
      if jobs[id].kind != PublishDraft {
        return Some(WrongKind);
      }
      if jobs[id].draftId != Some(draftId) {
        return Some(WrongDraft);
      }
      FinishMatches(drafts, jobs, id, jobs[id].(status := Succeeded), Published);
      AdvancedTrails(jobs, audit, id, Succeeded);
      NextTells(drafts, audit, EventOf(id, jobs[id], Succeeded), draftId, Published);
      error := RecordRelease(buildId, draftId);
      if error.Some? {
        return;
      }
      error := FinishPublication(draftId);
      Advance(id, Succeeded);
    }

    method FinishPublication(draftId: string) returns (error: Option<Error>)
      requires draftId in drafts
      modifies this`drafts
      ensures
        error == if old(drafts)[draftId] == ReadyToPublish || old(drafts)[draftId] == Publishing then None
                 else Some(IllegalTransition)
      ensures drafts == if error == None then old(drafts)[draftId := Published] else old(drafts)
    {
      if drafts[draftId] == ReadyToPublish {
        error := Transition(draftId, Publishing);
      }
      error := Transition(draftId, Published);
    }

    // complete_rollback_job
    method CompleteRollbackJob(id: string, restored: string) returns (error: Option<Error>)
      requires Valid()
      modifies this`jobs, this`releases, this`audit
      ensures Valid() && Evolves(old(State()), State())
      ensures
        error == if old(RunningJob(id)).Some? then old(RunningJob(id))
                 else if old(jobs)[id].kind != RollbackRelease then Some(WrongKind)
                 else if old(jobs)[id].releaseId != Some(restored) then Some(WrongRelease)
                 else if Refused(old(releases), restored) then Some(DuplicateKey) else None
      ensures error.Some? ==> State() == old(State())
      ensures error == None ==> audit == old(audit) + [EventOf(id, old(jobs)[id], Succeeded)]
      ensures error == None ==>
          jobs == old(jobs)[id := old(jobs)[id].(status := Succeeded)] && restored in old(releases)
      ensures error == None ==>
          releases == WithRestored(old(releases), restored)
      // The target is current, the one it replaces rolled back, and every other release as it was.
      ensures
        error == None ==>
        && releases.Keys == old(releases).Keys
        && forall b :: b in old(releases) ==>
            releases[b] == Release(old(releases)[b].draftId,
                if b == restored then Current
                else if old(releases)[b].status == Current then RolledBack else old(releases)[b].status)
      ensures error == None ==> IsCurrent(releases, restored)
    {
      hide WorkMatches, TrailsMatch, OneCurrent, LogTells, IsCurrent;
      error := RunningJob(id);
      if error.Some? {
        return;
      }
      if jobs[id].kind != RollbackRelease {
        return Some(WrongKind);
      }
      if jobs[id].releaseId != Some(restored) {
        return Some(WrongRelease);
      }
      assert Aimed(drafts, releases, jobs[id]);
      if Refused(releases, restored) {
        return Some(DuplicateKey);
      }
      RestoredIsCurrent(releases, restored);
      OtherJobMatches(drafts, jobs, id, jobs[id].(status := Succeeded));
      AdvancedTrails(jobs, audit, id, Succeeded);
      SilentTells(drafts, audit, EventOf(id, jobs[id], Succeeded));
      Demote(Some(restored), RolledBack);
      releases := releases[restored := releases[restored].(status := Current)];
      Advance(id, Succeeded);
      error := None;
    }

    // ---- Other transactions, and runs of them ----

    // One transaction of another session.
    method Serve(r: Request)
      requires Valid()
      modifies this
      ensures Valid() && Evolves(old(State()), State())
      ensures forall j :: j in old(jobs) && old(jobs)[j].status == Running && r.Ends() != Some(j) ==>
          j in jobs && jobs[j] == old(jobs)[j]
      ensures forall j :: j in jobs && j !in old(jobs) ==>
          && jobs[j].status == Queued
          && match r
             case NewDraftToValidate(d, id, _) => j == id && jobs[j].kind == ValidateDraft && jobs[j].draftId == Some(d)
             case Validate(d, id, _) => j == id && jobs[j].kind == ValidateDraft && jobs[j].draftId == Some(d)
             case Publish(d, id, _) => j == id && jobs[j].kind == PublishDraft && jobs[j].draftId == Some(d)
             case RollBack(b, id, _) => j == id && jobs[j].kind == RollbackRelease && jobs[j].releaseId == Some(b)
             case _ => false
    {
      hide Sound, Evolves;
      var error: Option<Error>;
      match r {
        case NewDraft(id) => error := CreateDraft(id);
        case NewDraftToValidate(id, jobId, now) => error := CreateDraftAndQueueValidation(id, jobId, now);
        case Validate(draftId, jobId, now) => error := QueueDraftJob(ValidateDraft, draftId, jobId, now);
        case Publish(draftId, jobId, now) => error := QueueDraftJob(PublishDraft, draftId, jobId, now);
        case RollBack(buildId, jobId, now) => error := QueueRollback(buildId, jobId, now);
        case Claim => {
          var claimed := ClaimNextJob();
          if claimed.Some? {
            OldestIsAJob(old(jobs), claimed.value);
          }
        }
        case Complete(jobId) => error := CompleteJob(jobId);
        case CompletePublication(jobId, buildId, draftId) => error := CompletePublishJob(jobId, buildId, draftId);
        case CompleteRollback(jobId, buildId) => error := CompleteRollbackJob(jobId, buildId);
        case Fail(jobId) => error := FailJob(jobId);
        case RecordOf(buildId, draftId) => error := RecordRelease(buildId, draftId);
      }
    }

    // Any sequence of transactions is a run in the sense of History, and leaves alone a
    // running job that it does not end.
    method ServeAll(requests: seq<Request>, mine: string) returns (ghost run: seq<Tables>)
      requires Valid() && forall r :: r in requests ==> r.Ends() != Some(mine)
      modifies this
      ensures Valid() && History(run) && |run| == |requests| + 1 && run[0] == old(State()) && run[|run| - 1] == State()
      ensures mine in old(jobs) && old(jobs)[mine].status == Running ==> mine in jobs && jobs[mine] == old(jobs)[mine]
    {
      hide Sound, Evolves;
      run := [State()];
      for i := 0 to |requests|
        invariant Valid() && History(run) && |run| == i + 1 && run[0] == old(State()) && run[|run| - 1] == State()
        invariant mine in old(jobs) && old(jobs)[mine].status == Running ==>
            mine in jobs && jobs[mine] == old(jobs)[mine]
      {
        assert requests[i] in requests;
        Serve(requests[i]);
        run := run + [State()];
      }
    }

    // ---- The worker ----

    // The completing transaction of each handler of process_job. `work` is what the work outside
    // the database comes to: None when it raises, otherwise the build id it returns.
    method EndValidation(id: string, work: Option<string>) returns (error: Option<Error>)
      requires Valid() && RunningJob(id) == None && jobs[id].kind == ValidateDraft
      modifies this`drafts, this`jobs, this`audit
      ensures Valid() && Evolves(old(State()), State())
      ensures error.Some? ==> State() == old(State())
      ensures error == None <==> WorkSucceeds(old(jobs)[id], work, old(releases))
      ensures error == None ==> jobs == old(jobs)[id := old(jobs)[id].(status := Succeeded)]
    {
      hide Sound, Evolves;
      if work == None {
        EvolvesNowhere();
        return Some(Raised);
      }
      error := CompleteJob(id);
    }

    method EndPublication(id: string, draftId: string, work: Option<string>) returns (error: Option<Error>)
      requires Valid() && RunningJob(id) == None && jobs[id].kind == PublishDraft && jobs[id].draftId == Some(draftId)
      modifies this`drafts, this`jobs, this`releases, this`audit
      ensures Valid() && Evolves(old(State()), State())
      ensures error.Some? ==> State() == old(State())
      ensures error == None <==> WorkSucceeds(old(jobs)[id], work, old(releases))
      ensures error == None ==> jobs == old(jobs)[id := old(jobs)[id].(status := Succeeded)]
      ensures error == None ==> IsCurrent(releases, work.value)
    {
      hide Sound, Evolves, IsCurrent;
      if work == None || work.value == "" {
        EvolvesNowhere();
        return Some(Raised);
      }
      error := CompletePublishJob(id, work.value, draftId);
    }

    method EndRollback(id: string, work: Option<string>) returns (error: Option<Error>)
      requires Valid() && RunningJob(id) == None && jobs[id].kind == RollbackRelease
      modifies this`jobs, this`releases, this`audit
      ensures Valid() && Evolves(old(State()), State())
      ensures error.Some? ==> State() == old(State())
      ensures error == None <==> WorkSucceeds(old(jobs)[id], work, old(releases))
      ensures error == None ==> jobs == old(jobs)[id := old(jobs)[id].(status := Succeeded)]
      ensures error == None ==> IsCurrent(releases, work.value)
    {
      hide Sound, Evolves, IsCurrent, Refused;
      if work == None {
        EvolvesNowhere();
        return Some(Raised);
      }
      error := CompleteRollbackJob(id, work.value);
    }

    method CompleteWork(id: string, work: Option<string>) returns (error: Option<Error>)
      requires Valid() && RunningJob(id) == None
      modifies this
      ensures Valid() && Evolves(old(State()), State())
      ensures error.Some? ==> State() == old(State())
      ensures error == None <==> WorkSucceeds(old(jobs)[id], work, old(releases))
      ensures error == None ==> jobs == old(jobs)[id := old(jobs)[id].(status := Succeeded)]
      ensures error == None && jobs[id].kind in {PublishDraft, RollbackRelease} ==> IsCurrent(releases, work.value)
    {
      hide Sound, Evolves, IsCurrent, Refused;
      match jobs[id].kind {
        case ValidateDraft => error := EndValidation(id, work);
        case PublishDraft =>
          RunningMeansBusy(id);
          error := EndPublication(id, jobs[id].draftId.value, work);
        case RollbackRelease => error := EndRollback(id, work);
        case GetStatus => error := CompleteJob(id);
      }
    }

    // process_job: whatever other sessions do while the work runs, and between a failed
    // completion and fail_job, short of ending this very job, the claimed job ends; it ends well
    // exactly when its work does. `run` is the history of the tables up to the last transaction,
    // and run[at] what the completion found.
    method ProcessJob(id: string, work: Option<string>, others: seq<Request>, later: seq<Request>)
        returns (raised: bool, ghost run: seq<Tables>, ghost at: nat)
      requires Valid() && RunningJob(id) == None
      requires forall r :: r in others + later ==> r.Ends() != Some(id)
      modifies this
      ensures Valid() && History(run + [State()]) && run != [] && run[0] == old(State())
      ensures at == |others| < |run| && |run| == (if raised then |others| + |later| + 1 else |others| + 1)
      ensures !raised <==> WorkSucceeds(old(jobs)[id], work, run[at].releases)
      ensures
        var before := run[|run| - 1];
        && id in before.jobs && before.jobs[id] == old(jobs)[id]
        && jobs == before.jobs[id := before.jobs[id].(status := if raised then Failed else Succeeded)]
        && (raised ==> releases == before.releases)
      ensures !raised && old(jobs)[id].kind in {PublishDraft, RollbackRelease} ==> IsCurrent(releases, work.value)
    {
      hide Sound, Evolves, IsCurrent, WorkSucceeds, History;
      var done := work;
      if OnDraft(jobs[id]) {
        RunningMeansBusy(id);
        var error := RequireDraftStatus(jobs[id], Doing(jobs[id].kind));
        if error.Some? {
          done := None;
        }
      }
      ghost var job := jobs[id];
      run := ServeAll(others, id);
      at := |others|;
      var error := CompleteWork(id, done);
      raised := error.Some?;
      if raised {
        ghost var waited := ServeAll(later, id);
        JoinHistories(run, waited);
        run := run + waited[1..];
        error := FailJob(id);
      }
      LongerHistory(run, State());
    }

    // process_next_job, with nothing in between.
    method ProcessNextJob(work: string -> Option<string>) returns (done: Option<string>, raised: bool)
      requires Valid()
      modifies this
      ensures Valid()
      ensures done == None <==> Waiting(old(jobs)) == {}
      ensures done == None ==> State() == old(State()) && !raised
      ensures
        done.Some? ==>
        && IsOldest(old(jobs), Waiting(old(jobs)), done.value)
        && jobs == old(jobs)[done.value := old(jobs)[done.value].(status := if raised then Failed else Succeeded)]
        && Waiting(jobs) == Waiting(old(jobs)) - {done.value}
    {
      hide Sound, Evolves, IsOldest, WorkSucceeds, IsCurrent, History;
      raised := false;
      done := ClaimNextJob();
      if done.Some? {
        assert done.value in old(jobs) by {
          OldestIsAJob(old(jobs), done.value);
        }
        ghost var run, at;
        raised, run, at := ProcessJob(done.value, work(done.value), [], []);
      }
    }

    lemma RunningMeansBusy(id: string)
      requires Valid() && RunningJob(id) == None && OnDraft(jobs[id])
      ensures jobs[id].draftId.Some? && jobs[id].draftId.value in drafts &&
          drafts[jobs[id].draftId.value] == Doing(jobs[id].kind)
    {
      assert Aimed(drafts, releases, jobs[id]);
      assert Occupies(jobs, id, jobs[id].draftId.value);
    }

    lemma EvolvesNowhere()
      ensures Evolves(State(), State())
    {
    }

    // get_draft and _require_draft_status.
    method RequireDraftStatus(job: Job, expected: DraftStatus) returns (error: Option<Error>)
      ensures error == None
          <==> job.draftId.Some? && job.draftId.value in drafts && drafts[job.draftId.value] == expected
    {
      if job.draftId == None || job.draftId.value !in drafts {
        return Some(UnknownDraft);
      }
      error := if drafts[job.draftId.value] == expected then None else Some(IllegalTransition);
    }
  }

  lemma OldestIsAJob(jobs: Jobs, i: string)
    requires IsOldest(jobs, Waiting(jobs), i)
    ensures i in jobs && jobs[i].status == Queued
  {
  }

  // The transactions that the repository offers.
  datatype Request =
    | NewDraft(id: string)
    | NewDraftToValidate(id: string, jobId: string, now: int)
    | Validate(draftId: string, jobId: string, now: int)
    | Publish(draftId: string, jobId: string, now: int)
    | RollBack(buildId: string, jobId: string, now: int)
    | Claim
    | Complete(jobId: string)
    | CompletePublication(jobId: string, buildId: string, draftId: string)
    | CompleteRollback(jobId: string, buildId: string)
    | Fail(jobId: string)
    | RecordOf(buildId: string, draftId: string)
  {
    // The job that the transaction would end.
    function Ends(): Option<string> {
      if Complete? || CompletePublication? || CompleteRollback? || Fail? then Some(jobId) else None
    }
  }

  predicate RollsBack(jobs: Jobs, j: string, buildId: string) {
    j in jobs && jobs[j].kind == RollbackRelease && jobs[j].releaseId == Some(buildId) && Active(jobs[j])
  }

  // When a claimed job ends well: its work returned, a publication under a new build id, a
  // rollback with the requested release restored and its rows accepted.
  predicate WorkSucceeds(job: Job, work: Option<string>, releases: Releases) {
    match job.kind
    case ValidateDraft => work.Some?
    case PublishDraft => work.Some? && work.value != "" && work.value !in releases
    case RollbackRelease => work.Some? && work == job.releaseId &&
        !Refused(releases, work.value)
    case GetStatus => true
  }

  lemma LongerHistory(run: seq<Tables>, t: Tables)
    requires History(run) && run != [] && Evolves(run[|run| - 1], t)
    ensures History(run + [t])
  {
    hide Evolves;
  }

  lemma JoinHistories(a: seq<Tables>, b: seq<Tables>)
    requires History(a) && History(b) && a != [] && b != [] && a[|a| - 1] == b[0]
    ensures History(a + b[1..])
  {
    hide Evolves;
    var run := a + b[1..];
    forall i | 0 < i < |run| ensures Evolves(run[i - 1], run[i]) {
      if i >= |a| {
        assert Evolves(b[i - |a|], b[i - |a| + 1]);
      }
    }
  }
}
