/** The Redis lease that serializes knowledge publication, and the pointer record that
    publishers and rollbacks read and overwrite under it. */
module PublicationLease {
  import opened Options

  // ---- The release pointer ----

  datatype Release = Release(buildId: string, collectionName: string, artifactSha256: string)

  datatype Pointer = Pointer(current: Release, previous: Option<Release>)

  function CurrentOf(seen: Option<Pointer>): Option<Release> {
    match seen
    case Some(p) => Some(p.current)
    case None => None
  }

  // publish_validated_release on the pointer it read.
  function Published(release: Release, seen: Option<Pointer>): Pointer {
    Pointer(release, CurrentOf(seen))
  }

  // rollback_release_pointer: current and previous change places.
  function Swapped(p: Pointer): Pointer
    requires p.previous.Some?
  {
    Pointer(p.previous.value, Some(p.current))
  }

  lemma RollbackTwiceRestores(p: Pointer)
    requires p.previous.Some?
    ensures Swapped(p).previous.Some? && Swapped(Swapped(p)) == p
  {
  }

  // ---- The key in Redis ----

  datatype Lease = Lease(token: string, expiresAt: nat)

  // GET: an expired value is gone.
  function Holder(key: Option<Lease>, now: nat): Option<string> {
    if key.Some? && now < key.value.expiresAt then Some(key.value.token) else None
  }

  predicate Owns(key: Option<Lease>, now: nat, token: string) {
    Holder(key, now) == Some(token)
  }

  // SET NX PX, and the renew and release scripts; the flag is the reply.
  function SetIfAbsent(key: Option<Lease>, now: nat, token: string, ttl: nat): (Option<Lease>, bool) {
    if Holder(key, now).None? then (Some(Lease(token, now + ttl)), true) else (key, false)
  }

  function RenewIfOwned(key: Option<Lease>, now: nat, token: string, ttl: nat): (Option<Lease>, bool) {
    if Owns(key, now, token) then (Some(Lease(token, now + ttl)), true) else (key, false)
  }

  function DeleteIfOwned(key: Option<Lease>, now: nat, token: string): (Option<Lease>, bool) {
    if Owns(key, now, token) then (None, true) else (key, false)
  }

  // A command is answered, does not reach Redis, or is executed without the client learning
  // of it; in the last two cases the client sees an exception.
  datatype Link = Answered | Unreachable | ReplyLost

  datatype LockResult = Ok | Locked | LockError

  function Outcome(link: Link, done: bool, refused: LockResult): LockResult {
    if link == ReplyLost then LockError else if done then Ok else refused
  }

  // What acquire, renew and release do to the key, and what the caller learns.
  function AcquireOver(link: Link, key: Option<Lease>, now: nat, token: string, ttl: nat): (Option<Lease>, LockResult) {
    if link == Unreachable then (key, LockError)
    else var (key', done) := SetIfAbsent(key, now, token, ttl); (key', Outcome(link, done, Locked))
  }

  function RenewOver(link: Link, key: Option<Lease>, now: nat, token: string, ttl: nat): (Option<Lease>, LockResult) {
    if link == Unreachable then (key, LockError)
    else var (key', done) := RenewIfOwned(key, now, token, ttl); (key', Outcome(link, done, LockError))
  }

  function DeleteOver(link: Link, key: Option<Lease>, now: nat, token: string): (Option<Lease>, LockResult) {
    if link == Unreachable then (key, LockError)
    else var (key', done) := DeleteIfOwned(key, now, token); (key', Outcome(link, done, LockError))
  }

  // ---- The lock object ----

  class RedisKey {
    var key: Option<Lease>

    constructor ()
      ensures key == None
    {
      key := None;
    }

    method Set(link: Link, now: nat, token: string, ttl: nat) returns (r: LockResult)
      modifies this
      ensures (key, r) == AcquireOver(link, old(key), now, token, ttl)
    {
      var done := false;
      if link != Unreachable {
        var (after, acquired) := SetIfAbsent(key, now, token, ttl);
        key, done := after, acquired;
      }
      r := if link != Answered then LockError else if done then Ok else Locked;
    }

    method EvalRenew(link: Link, now: nat, token: string, ttl: nat) returns (r: LockResult)
      modifies this
      ensures (key, r) == RenewOver(link, old(key), now, token, ttl)
    {
      var done := false;
      if link != Unreachable {
        var (after, renewed) := RenewIfOwned(key, now, token, ttl);
        key, done := after, renewed;
      }
      r := if link == Answered && done then Ok else LockError;
    }

    method EvalDelete(link: Link, now: nat, token: string) returns (r: LockResult)
      modifies this
      ensures (key, r) == DeleteOver(link, old(key), now, token)
    {
      var done := false;
      if link != Unreachable {
        var (after, deleted) := DeleteIfOwned(key, now, token);
        key, done := after, deleted;
      }
      r := if link == Answered && done then Ok else LockError;
    }
  }

  class PublicationLock {
    const redis: RedisKey
    const token: string
    const ttl: nat
    var held: bool
    var renewalError: bool

    constructor (redis: RedisKey, token: string, ttl: nat)
      requires 0 < ttl <= 900_000
      ensures this.redis == redis && this.token == token && this.ttl == ttl
      ensures !held && !renewalError
    {
      this.redis, this.token, this.ttl := redis, token, ttl;
      held, renewalError := false, false;
    }

    // Success proves ownership now and for the next `ttl`.
    method Acquire(now: nat, link: Link) returns (r: LockResult)
      modifies this`held, redis
      ensures (redis.key, r) == AcquireOver(link, old(redis.key), now, token, ttl)
      ensures held == (old(held) || r == Ok)
      ensures
        var k := old(redis.key);
        var free := k == None || k.value.expiresAt <= now;
        && redis.key == (if free && link != Unreachable then Some(Lease(token, now + ttl)) else k)
        && r == (if link != Answered then LockError else if free then Ok else Locked)
    {
      r := redis.Set(link, now, token, ttl);
      if r == Ok {
        held := true;
      }
    }

    method Renew(now: nat, link: Link) returns (r: LockResult)
      modifies redis
      ensures (redis.key, r) == RenewOver(link, old(redis.key), now, token, ttl)
      ensures
        var k := old(redis.key);
        var mine := k.Some? && k.value.token == token && now < k.value.expiresAt;
        && redis.key == (if mine && link != Unreachable then Some(Lease(token, now + ttl)) else k)
        && r == (if mine && link == Answered then Ok else LockError)
    {
      r := redis.EvalRenew(link, now, token, ttl);
    }

    // One turn of the heartbeat thread, which ends with the first failed renewal; that is
    // remembered for good.
    method Heartbeat(now: nat, link: Link)
      modifies this`renewalError, redis
      ensures old(renewalError) ==> renewalError && redis.key == old(redis.key)
      ensures
        !old(renewalError) ==>
        (redis.key, if renewalError then LockError else Ok) == RenewOver(link, old(redis.key), now, token, ttl)
      ensures
        var k := old(redis.key);
        var mine := k.Some? && k.value.token == token && now < k.value.expiresAt;
        && (renewalError <==> old(renewalError) || !mine || link != Answered)
        && redis.key == if mine && link != Unreachable && !old(renewalError) then Some(Lease(token, now + ttl)) else k
    {
      if renewalError {
        return;
      }
      var r := Renew(now, link);
      if r != Ok {
        renewalError := true;
      }
    }

    // Fails closed: success proves ownership now and for the next `ttl`.
    method AssertHeld(now: nat, link: Link) returns (r: LockResult)
      modifies redis
      ensures renewalError || !held ==> r == LockError && redis.key == old(redis.key)
      ensures !renewalError && held ==> (redis.key, r) == RenewOver(link, old(redis.key), now, token, ttl)
      ensures
        var k := old(redis.key);
        var mine := k.Some? && k.value.token == token && now < k.value.expiresAt;
        && r == (if !renewalError && held && mine && link == Answered then Ok else LockError)
        && (r == Ok ==> redis.key == Some(Lease(token, now + ttl)))
    {
      if renewalError || !held {
        return LockError;
      }
      r := Renew(now, link);
    }

    method Release(now: nat, link: Link) returns (r: LockResult)
      modifies this`held, redis
      ensures !old(held) ==> r == Ok && redis.key == old(redis.key) && !held
      ensures old(held) ==> (redis.key, r) == DeleteOver(link, old(redis.key), now, token) && held == (r != Ok)
      // The key goes exactly if it carries this token and the command arrives; success proves both.
      ensures
        var k := old(redis.key);
        var mine := k.Some? && k.value.token == token && now < k.value.expiresAt;
        && redis.key == (if old(held) && mine && link != Unreachable then None else k)
        && r == (if old(held) && !(mine && link == Answered) then LockError else Ok)
        && held == (r != Ok)
    {
      if !held {
        return Ok;
      }
      r := redis.EvalDelete(link, now, token);
      if r == Ok {
        held := false;
      }
    }
  }

  // ---- Many operators on one key and one pointer ----

  datatype Job = Publish(release: Release) | RollBack

  // Publishing asserts the lease and then reads the pointer; a rollback reads it first.
  datatype Phase =
    | Idle
    | Holding
    | Seen(seen: Option<Pointer>)                // a rollback that has read
    | Asserted(at: nat)                          // a publisher that has asserted
    | Ready(at: nat, seen: Option<Pointer>)      // the upsert is next
    | Over

  datatype Operator = Operator(token: string, job: Job, phase: Phase, held: bool, renewalError: bool)

  datatype World = World(now: nat, key: Option<Lease>, pointer: Option<Pointer>, operators: map<nat, Operator>,
          history: seq<Pointer>)

  datatype Event =
    | Tick(elapsed: nat)
    | Acquire(id: nat, link: Link)
    | Heartbeat(id: nat, link: Link)
    | AssertHeld(id: nat, link: Link)
    | Read(id: nat)
    | Upsert(id: nat)
    | LetGo(id: nat, link: Link)

  predicate CanAssert(o: Operator) {
    (o.job.Publish? && o.phase == Holding) || (o.job.RollBack? && o.phase.Seen?)
  }

  // What one event of an operator does to the key, to the operator and to the pointer.
  datatype Effect = Effect(key: Option<Lease>, operator: Operator, write: Option<Pointer>)

  function Act(w: World, o: Operator, e: Event, ttl: nat): Effect
    requires !e.Tick?
  {
    var same := Effect(w.key, o, None);
    match e
    case Acquire(_, link) =>
      if o.phase != Idle then same
      else
        var (key, r) := AcquireOver(link, w.key, w.now, o.token, ttl);
        Effect(key, o.(phase := if r == Ok then Holding else Over, held := r == Ok), None)
    case Heartbeat(_, link) =>
      if !o.held || o.renewalError then same
      else
        var (key, r) := RenewOver(link, w.key, w.now, o.token, ttl);
        Effect(key, o.(renewalError := r != Ok), None)
    case AssertHeld(_, link) =>
      if !CanAssert(o) then same
      else if o.renewalError || !o.held then Effect(w.key, o.(phase := Over), None)
      else
        var (key, r) := RenewOver(link, w.key, w.now, o.token, ttl);
        Effect(key, o.(phase :=
          if r != Ok then Over else if o.job.Publish? then Asserted(w.now) else Ready(w.now, o.phase.seen)), None)
    case Read(_) =>
      if o.job.Publish? && o.phase.Asserted? then Effect(w.key, o.(phase := Ready(o.phase.at, w.pointer)), None)
      else if o.job.RollBack? && o.phase == Holding then
        // A rollback with nothing to swap raises.
        var swappable := w.pointer.Some? && w.pointer.value.previous.Some?;
        Effect(w.key, o.(phase := if swappable then Seen(w.pointer) else Over), None)
      else same
    case Upsert(_) =>
      if !CanUpsert(o) then same else Effect(w.key, o.(phase := Over), Some(NewPointer(o.job, o.phase.seen)))
    case LetGo(_, link) =>
      if o.phase == Idle then same
      else if !o.held then Effect(w.key, o.(phase := Over), None)
      else
        var (key, r) := DeleteOver(link, w.key, w.now, o.token);
        Effect(key, o.(phase := Over, held := r != Ok), None)
  }

  function Apply(w: World, id: nat, f: Effect): World {
    match f.write
    case None => w.(key := f.key, operators := w.operators[id := f.operator])
    case Some(p) => World(w.now, f.key, f.write, w.operators[id := f.operator], w.history + [p])
  }

  function Step(w: World, e: Event, ttl: nat): World {
    if e.Tick? then w.(now := w.now + e.elapsed)
    else if e.id !in w.operators then w
    else Apply(w, e.id, Act(w, w.operators[e.id], e, ttl))
  }

  predicate CanUpsert(o: Operator) {
    o.phase.Ready? && (o.job.RollBack? ==> o.phase.seen.Some? && o.phase.seen.value.previous.Some?)
  }

  function NewPointer(job: Job, seen: Option<Pointer>): Pointer
    requires job.RollBack? ==> seen.Some? && seen.value.previous.Some?
  {
    match job
    case Publish(release) => Published(release, seen)
    case RollBack => Swapped(seen.value)
  }

  function Run(w: World, events: seq<Event>, ttl: nat): World {
    if events == [] then w else Step(Run(w, events[..|events| - 1], ttl), events[|events| - 1], ttl)
  }

  // ---- The lock object is what the operators use ----

  ghost predicate Mirrors(lock: PublicationLock, w: World, o: Operator)
    reads lock, lock.redis
  {
    lock.redis.key == w.key && lock.token == o.token && lock.held == o.held && lock.renewalError == o.renewalError
  }

  // An operator's lock events are calls of its PublicationLock.
  method CallLock(lock: PublicationLock, ghost w: World, ghost o: Operator, e: Event, now: nat)
    requires Mirrors(lock, w, o) && now == w.now
    requires match e
             case Acquire(_, _) => o.phase == Idle && !o.held
             case AssertHeld(_, _) => CanAssert(o)
             case Heartbeat(_, _) => o.held
             case LetGo(_, _) => o.phase != Idle
             case _ => false
    modifies lock, lock.redis
    ensures Mirrors(lock, w.(key := Act(w, o, e, lock.ttl).key), Act(w, o, e, lock.ttl).operator)
  {
    match e {
      case Acquire(_, link) => var r := lock.Acquire(now, link);
      case Heartbeat(_, link) => lock.Heartbeat(now, link);
      case AssertHeld(_, link) => var r := lock.AssertHeld(now, link);
      case LetGo(_, link) => var r := lock.Release(now, link);
    }
  }

  // ---- Ownership over runs ----

  // Ownership is only ever gained by acquiring.
  predicate Acquires(w: World, e: Event, token: string) {
    e.Acquire? && e.id in w.operators && w.operators[e.id].token == token && w.operators[e.id].phase == Idle
  }

  lemma OwnedBefore(w: World, e: Event, ttl: nat, token: string)
    requires Owns(Step(w, e, ttl).key, Step(w, e, ttl).now, token)
    ensures Owns(w.key, w.now, token) || Acquires(w, e, token)
  {
  }

  ghost predicate OwnsAfter(w: World, events: seq<Event>, ttl: nat, token: string, n: nat)
    requires n <= |events|
  {
    Owns(Run(w, events[..n], ttl).key, Run(w, events[..n], ttl).now, token)
  }

  // A token that owns the key at the end of a run acquired it at some step and has owned it
  // ever since.
  lemma {:induction false} OwnershipIsUnbroken(w: World, events: seq<Event>, ttl: nat, token: string) returns (k: nat)
    requires w.key == None && OwnsAfter(w, events, ttl, token, |events|)
    ensures k < |events| && Acquires(Run(w, events[..k], ttl), events[k], token)
    ensures forall n :: k < n <= |events| ==> OwnsAfter(w, events, ttl, token, n)
  {
    hide Step, Owns, Acquires;
    assert events[..|events|] == events;
    if events == [] {
      NoOwner(w, token);
    } else {
      var front := events[..|events| - 1];
      assert front[..|front|] == front;
      OwnedBefore(Run(w, front, ttl), events[|events| - 1], ttl, token);
      if Acquires(Run(w, front, ttl), events[|events| - 1], token) {
        k := |events| - 1;
      } else {
        k := OwnershipIsUnbroken(w, front, ttl, token);
        assert events[..k] == front[..k];
        forall n | k < n <= |events| ensures OwnsAfter(w, events, ttl, token, n) {
          if n < |events| {
            assert events[..n] == front[..n] && OwnsAfter(w, front, ttl, token, n);
          }
        }
      }
    }
  }

  // A lease given back: once its owner has let go, and until somebody acquires, the key is free at
  // any time, so that the next operator acquires it.
  lemma {:induction false} FreeUntilAcquired(w: World, events: seq<Event>, ttl: nat)
    requires w.key == None && forall e :: e in events ==> !e.Acquire?
    ensures Run(w, events, ttl).key == None
  {
    if events != [] {
      FreeUntilAcquired(w, events[..|events| - 1], ttl);
      assert events[|events| - 1] in events;
    }
  }

  lemma LetGoFreesTheKey(w: World, a: nat, events: seq<Event>, b: nat, ttl: nat)
    requires a in w.operators && w.operators[a].held && w.operators[a].phase != Idle
    requires w.key.Some? && w.key.value.token == w.operators[a].token && w.now < w.key.value.expiresAt
    requires forall e :: e in events ==> !e.Acquire?
    ensures
      var let := Step(w, LetGo(a, Answered), ttl);
      let.key == None && !let.operators[a].held
    ensures
      var before := Run(Step(w, LetGo(a, Answered), ttl), events, ttl);
      b in before.operators && before.operators[b].phase == Idle ==>
      var after := Step(before, Acquire(b, Answered), ttl);
      && after.operators[b].phase == Holding && after.operators[b].held
      && after.key == Some(Lease(before.operators[b].token, before.now + ttl))
  {
    FreeUntilAcquired(Step(w, LetGo(a, Answered), ttl), events, ttl);
  }

  // The way of an operator: it acquires; a publisher asserts its lease, reads and upserts; a
  // rollback reads, asserts and upserts.
  lemma PhasesInOrder(w: World, e: Event, ttl: nat, id: nat)
    requires id in w.operators && Step(w, e, ttl).operators.Keys == w.operators.Keys
    ensures
      var before, after := w.operators[id], Step(w, e, ttl).operators[id];
      after.phase == before.phase || after.phase == Over ||
      (!e.Tick? && e.id == id &&
       match after.phase
       case Holding => e.Acquire? && before.phase == Idle && after.held
       case Seen(seen) => e.Read? && before.job == RollBack && before.phase == Holding && seen == w.pointer
       case Asserted(at) => e.AssertHeld? && before.job.Publish? && before.phase == Holding && at == w.now
       case Ready(at, seen) =>
         || (e.Read? && before.job.Publish? && before.phase == Asserted(at) && seen == w.pointer)
         || (e.AssertHeld? && before.job == RollBack && before.phase == Seen(seen) && at == w.now)
       case _ => false)
  {
  }

  // Success of assert_held in that way: the owner's key, extended from now.
  lemma AssertionsRenew(w: World, e: Event, ttl: nat)
    requires e.AssertHeld? && e.id in w.operators
    requires Step(w, e, ttl).operators[e.id].phase != w.operators[e.id].phase
    requires Step(w, e, ttl).operators[e.id].phase != Over
    ensures
      var o := w.operators[e.id];
      && o.held && !o.renewalError && w.key.Some? && w.key.value.token == o.token && w.now < w.key.value.expiresAt
      && Step(w, e, ttl).key == Some(Lease(o.token, w.now + ttl))
  {
  }

  // What an upsert writes: a publication names its release and keeps what was read as the
  // previous one, a rollback exchanges the two. Nothing else writes.
  lemma StepWrites(w: World, e: Event, ttl: nat)
    requires e.Upsert? && e.id in w.operators && w.operators[e.id].phase.Ready?
    ensures
      var o, w' := w.operators[e.id], Step(w, e, ttl);
      var seen := o.phase.seen;
      match o.job
      case Publish(release) =>
        && w'.pointer.Some? && w'.pointer.value.current == release
        && w'.pointer.value.previous == (if seen.Some? then Some(seen.value.current) else None)
        && w'.history == w.history + [w'.pointer.value] && w'.operators[e.id].phase == Over
      case RollBack =>
        seen.Some? && seen.value.previous.Some? ==>
        && w'.pointer == Some(Pointer(seen.value.previous.value, Some(seen.value.current)))
        && w'.history == w.history + [w'.pointer.value] && w'.operators[e.id].phase == Over
  {
  }

  lemma OnlyUpsertsWrite(w: World, e: Event, ttl: nat)
    requires !e.Upsert? || e.id !in w.operators || !w.operators[e.id].phase.Ready?
    ensures Step(w, e, ttl).pointer == w.pointer && Step(w, e, ttl).history == w.history
  {
  }

  lemma NoOwner(w: World, token: string)
    requires w.key == None
    ensures !Owns(w.key, w.now, token)
  {
  }

  // ---- No update is lost under the lease ----

  ghost predicate Initial(w: World) {
    && w.key == None && w.history == []
    && (forall id :: id in w.operators ==> w.operators[id].phase == Idle && !w.operators[id].held)
    && DistinctTokens(w.operators)
  }

  ghost predicate DistinctTokens(operators: map<nat, Operator>) {
    forall a, b :: a in operators && b in operators && a != b ==> operators[a].token != operators[b].token
  }

  // The key carries the operator's token when it upserts.
  predicate Owned(w: World, e: Event) {
    e.Upsert? && e.id in w.operators && CanUpsert(w.operators[e.id]) ==> Owns(w.key, w.now, w.operators[e.id].token)
  }

  ghost predicate AllOwned(w: World, events: seq<Event>, ttl: nat) {
    forall i :: 0 <= i < |events| ==> Owned(Run(w, events[..i], ttl), events[i])
  }

  // An operator that still owns the key and has read the pointer knows the pointer.
  ghost predicate OperatorOk(w: World, o: Operator) {
    match o.phase
    case Idle => !Owns(w.key, w.now, o.token)
    case Seen(seen) => o.job.RollBack? && seen.Some? && seen.value.previous.Some? &&
        (Owns(w.key, w.now, o.token) ==> seen == w.pointer)
    case Asserted(_) => o.job.Publish?
    case Ready(_, seen) => CanUpsert(o) && (Owns(w.key, w.now, o.token) ==> seen == w.pointer)
    case _ => true
  }

  // The pointer in place just before the i-th upsert.
  function Before(initial: Option<Pointer>, history: seq<Pointer>, i: nat): Option<Pointer>
    requires i <= |history|
  {
    if i == 0 then initial else Some(history[i - 1])
  }

  // Every upsert records as previous what was current just before it.
  ghost predicate Chained(initial: Option<Pointer>, history: seq<Pointer>) {
    forall i :: 0 <= i < |history| ==> history[i].previous == CurrentOf(Before(initial, history, i))
  }

  ghost predicate Inv(w: World, initial: Option<Pointer>) {
    && DistinctTokens(w.operators)
    && (forall id :: id in w.operators ==> OperatorOk(w, w.operators[id]))
    && w.pointer == Before(initial, w.history, |w.history|)
    && Chained(initial, w.history)
  }

  lemma ActKeepsToken(w: World, o: Operator, e: Event, ttl: nat)
    requires !e.Tick?
    ensures Act(w, o, e, ttl).operator.token == o.token
  {
  }

  lemma StepOperators(w: World, e: Event, ttl: nat)
    requires DistinctTokens(w.operators)
    ensures DistinctTokens(Step(w, e, ttl).operators) && Step(w, e, ttl).operators.Keys == w.operators.Keys
    ensures forall id :: id in w.operators && (e.Tick? || id != e.id) ==>
        Step(w, e, ttl).operators[id] == w.operators[id]
  {
    hide Act;
    if !e.Tick? && e.id in w.operators {
      ActKeepsToken(w, w.operators[e.id], e, ttl);
    }
  }

  lemma StepKeepsOthers(w: World, e: Event, initial: Option<Pointer>, ttl: nat, id: nat)
    requires Inv(w, initial) && Owned(w, e) && id in w.operators && (e.Tick? || id != e.id)
    ensures OperatorOk(Step(w, e, ttl), w.operators[id])
  {
    var o := w.operators[id];
    assert OperatorOk(w, o);
    if !e.Tick? && e.id in w.operators {
      assert OperatorOk(w, w.operators[e.id]) && w.operators[e.id].token != o.token;
    }
  }

  lemma StepKeepsActor(w: World, e: Event, initial: Option<Pointer>, ttl: nat)
    requires Inv(w, initial) && Owned(w, e) && !e.Tick? && e.id in w.operators
    ensures OperatorOk(Step(w, e, ttl), Step(w, e, ttl).operators[e.id])
  {
    assert OperatorOk(w, w.operators[e.id]);
  }

  lemma StepKeepsChain(w: World, e: Event, initial: Option<Pointer>, ttl: nat)
    requires Inv(w, initial) && Owned(w, e)
    ensures
      var w' := Step(w, e, ttl);
      w'.pointer == Before(initial, w'.history, |w'.history|) && Chained(initial, w'.history)
  {
    if e.Upsert? && e.id in w.operators && CanUpsert(w.operators[e.id]) {
      var o := w.operators[e.id];
      assert OperatorOk(w, o);
      ExtendChained(initial, w.history, NewPointer(o.job, o.phase.seen));
    }
  }

  lemma ExtendChained(initial: Option<Pointer>, history: seq<Pointer>, p: Pointer)
    requires Chained(initial, history)
    requires p.previous == CurrentOf(Before(initial, history, |history|))
    ensures Chained(initial, history + [p])
  {
    var longer := history + [p];
    forall i | 0 <= i < |longer| ensures longer[i].previous == CurrentOf(Before(initial, longer, i)) {
      assert Before(initial, longer, i) == Before(initial, history, i);
      assert longer[i] == if i < |history| then history[i] else p;
    }
  }

  lemma StepKeepsInv(w: World, e: Event, initial: Option<Pointer>, ttl: nat)
    requires Inv(w, initial) && Owned(w, e)
    ensures Inv(Step(w, e, ttl), initial)
  {
    hide Step, OperatorOk, Chained, Owned, DistinctTokens;
    StepOperators(w, e, ttl);
    StepKeepsChain(w, e, initial, ttl);
    forall id | id in w.operators ensures OperatorOk(Step(w, e, ttl), Step(w, e, ttl).operators[id]) {
      if e.Tick? || id != e.id {
        StepKeepsOthers(w, e, initial, ttl, id);
      } else {
        StepKeepsActor(w, e, initial, ttl);
      }
    }
  }

  lemma {:induction false} RunKeepsInv(w: World, events: seq<Event>, ttl: nat)
    requires Initial(w) && AllOwned(w, events, ttl)
    ensures Inv(Run(w, events, ttl), w.pointer)
  {
    if events != [] {
      var front := events[..|events| - 1];
      forall i | 0 <= i < |front| ensures Owned(Run(w, front[..i], ttl), front[i]) {
        assert front[..i] == events[..i];
      }
      RunKeepsInv(w, front, ttl);
      StepKeepsInv(Run(w, front, ttl), events[|events| - 1], w.pointer, ttl);
    }
  }

  // Every interleaving in which the key still carries an operator's token when it upserts: no
  // pointer update is lost, and at any moment at most one operator owns the key.
  lemma NoUpdateIsLost(w: World, events: seq<Event>, ttl: nat)
    requires Initial(w) && AllOwned(w, events, ttl)
    ensures
      var end := Run(w, events, ttl);
      && Chained(w.pointer, end.history)
      && end.pointer == Before(w.pointer, end.history, |end.history|)
      && forall a, b :: a in end.operators && b in end.operators && IsOwner(end, a) && IsOwner(end, b) ==> a == b
  {
    hide Initial, AllOwned, Run, Chained, DistinctTokens, OperatorOk, IsOwner;
    RunKeepsInv(w, events, ttl);
    var end := Run(w, events, ttl);
    forall a, b | a in end.operators && b in end.operators && IsOwner(end, a) && IsOwner(end, b) ensures a == b {
      OneOwner(end, a, b);
    }
  }

  predicate IsOwner(w: World, id: nat)
    requires id in w.operators
  {
    Owns(w.key, w.now, w.operators[id].token)
  }

  lemma OneOwner(w: World, a: nat, b: nat)
    requires DistinctTokens(w.operators) && a in w.operators && b in w.operators && IsOwner(w, a) && IsOwner(w, b)
    ensures a == b
  {
  }

  // ---- Punctual upserts are owned ----

  // The upsert lands within the lifetime that the last assert_held renewed.
  predicate OnTime(w: World, e: Event, ttl: nat) {
    e.Upsert? && e.id in w.operators && CanUpsert(w.operators[e.id]) ==> w.now < w.operators[e.id].phase.at + ttl
  }

  ghost predicate AllOnTime(w: World, events: seq<Event>, ttl: nat) {
    forall i :: 0 <= i < |events| ==> OnTime(Run(w, events[..i], ttl), events[i], ttl)
  }

  // After assert_held the key is the operator's for that lifetime, whatever others do.
  ghost predicate Secured(w: World, o: Operator, ttl: nat) {
    match o.phase
    case Idle => !Owns(w.key, w.now, o.token) && !o.held
    case Asserted(at) => at <= w.now && (w.now < at + ttl ==> OwnsUntil(w, o.token, at + ttl))
    case Ready(at, _) => at <= w.now && (w.now < at + ttl ==> OwnsUntil(w, o.token, at + ttl))
    case _ => true
  }

  ghost predicate OwnsUntil(w: World, token: string, until: nat) {
    Owns(w.key, w.now, token) && until <= w.key.value.expiresAt
  }

  ghost predicate AllSecured(w: World, ttl: nat) {
    DistinctTokens(w.operators) && forall id :: id in w.operators ==> Secured(w, w.operators[id], ttl)
  }

  lemma StepSecuresOthers(w: World, e: Event, ttl: nat, id: nat)
    requires AllSecured(w, ttl) && id in w.operators && (e.Tick? || id != e.id)
    ensures Secured(Step(w, e, ttl), w.operators[id], ttl)
  {
    var o := w.operators[id];
    assert Secured(w, o, ttl);
    if !e.Tick? && e.id in w.operators {
      assert w.operators[e.id].token != o.token;
    }
  }

  lemma StepSecuresActor(w: World, e: Event, ttl: nat)
    requires AllSecured(w, ttl) && !e.Tick? && e.id in w.operators
    ensures Secured(Step(w, e, ttl), Step(w, e, ttl).operators[e.id], ttl)
  {
    assert Secured(w, w.operators[e.id], ttl);
  }

  lemma {:induction false} RunSecures(w: World, events: seq<Event>, ttl: nat)
    requires Initial(w)
    ensures AllSecured(Run(w, events, ttl), ttl)
  {
    hide Step, Secured, DistinctTokens;
    if events == [] {
      StartsSecured(w, ttl);
    } else {
      var before, e := Run(w, events[..|events| - 1], ttl), events[|events| - 1];
      RunSecures(w, events[..|events| - 1], ttl);
      StepOperators(before, e, ttl);
      forall id | id in before.operators
          ensures Secured(Step(before, e, ttl), Step(before, e, ttl).operators[id], ttl) {
        if e.Tick? || id != e.id {
          StepSecuresOthers(before, e, ttl, id);
        } else {
          StepSecuresActor(before, e, ttl);
        }
      }
    }
  }

  lemma StartsSecured(w: World, ttl: nat)
    requires Initial(w)
    ensures AllSecured(w, ttl)
  {
  }

  // So a publisher or rollback that is on time needs no more.
  lemma PunctualUpdatesAreOwned(w: World, events: seq<Event>, ttl: nat)
    requires Initial(w) && AllOnTime(w, events, ttl)
    ensures AllOwned(w, events, ttl)
  {
    hide Initial, Run, Owned, OnTime, AllSecured;
    forall i | 0 <= i < |events| ensures Owned(Run(w, events[..i], ttl), events[i]) {
      RunSecures(w, events[..i], ttl);
      OnTimeIsOwned(Run(w, events[..i], ttl), events[i], ttl);
    }
  }

  lemma OnTimeIsOwned(w: World, e: Event, ttl: nat)
    requires AllSecured(w, ttl) && OnTime(w, e, ttl)
    ensures Owned(w, e)
  {
    if e.Upsert? && e.id in w.operators {
      assert Secured(w, w.operators[e.id], ttl);
    }
  }

  // ---- One upsert after the lease is enough to lose an update ----

  function Remaining(w: World): nat {
    if w.key.Some? && w.key.value.expiresAt > w.now then w.key.value.expiresAt - w.now else 0
  }

  // Operator `id` waits until the key is free; another one publishes; then `id` upserts.
  function Overtaking(w: World, id: nat, other: nat): seq<Event> {
    [Tick(Remaining(w)), Acquire(other, Answered), AssertHeld(other, Answered), Read(other), Upsert(other), Upsert(id)]
  }

  // `other` is about to publish another release than `id` took for the current one.
  ghost predicate CanBeOvertaken(w: World, id: nat, other: nat) {
    && DistinctTokens(w.operators) && id in w.operators && other in w.operators && id != other
    && CanUpsert(w.operators[id])
    && var o := w.operators[other];
       o.phase == Idle && !o.held && !o.renewalError && o.job.Publish? &&
       CurrentOf(w.operators[id].phase.seen) != Some(o.job.release)
  }

  // Where `other` has got to, with nothing else changed.
  ghost predicate Overtakes(w: World, w': World, id: nat, other: nat, phase: Phase, held: bool) {
    && id in w.operators && other in w.operators && id != other
    && w'.operators.Keys == w.operators.Keys && w'.operators[id] == w.operators[id]
    && w'.operators[other] == w.operators[other].(phase := phase, held := held)
    && DistinctTokens(w'.operators)
    && (if held then Owns(w'.key, w'.now, w.operators[other].token) else Holder(w'.key, w'.now).None?)
    && w'.pointer == w.pointer && w'.history == w.history
  }

  lemma WaitsForTheKey(w: World, id: nat, other: nat, ttl: nat)
    requires CanBeOvertaken(w, id, other)
    ensures Overtakes(w, Step(w, Tick(Remaining(w)), ttl), id, other, Idle, false)
  {
  }

  lemma TakesTheKey(w: World, w': World, id: nat, other: nat, ttl: nat)
    requires CanBeOvertaken(w, id, other) && Overtakes(w, w', id, other, Idle, false) && ttl > 0
    ensures Overtakes(w, Step(w', Acquire(other, Answered), ttl), id, other, Holding, true)
  {
    StepOperators(w', Acquire(other, Answered), ttl);
  }

  lemma Asserts(w: World, w': World, id: nat, other: nat, ttl: nat)
    requires CanBeOvertaken(w, id, other) && Overtakes(w, w', id, other, Holding, true) && ttl > 0
    ensures Overtakes(w, Step(w', AssertHeld(other, Answered), ttl), id, other, Asserted(w'.now), true)
    ensures Step(w', AssertHeld(other, Answered), ttl).now == w'.now
  {
    StepOperators(w', AssertHeld(other, Answered), ttl);
  }

  lemma Reads(w: World, w': World, id: nat, other: nat, ttl: nat)
    requires CanBeOvertaken(w, id, other) && Overtakes(w, w', id, other, Asserted(w'.now), true)
    ensures Overtakes(w, Step(w', Read(other), ttl), id, other, Ready(w'.now, w.pointer), true)
    ensures Step(w', Read(other), ttl).now == w'.now
  {
    StepOperators(w', Read(other), ttl);
  }

  // `other` publishes under its own key, and so breaks what `id` has read.
  lemma Publishes(w: World, w': World, id: nat, other: nat, ttl: nat)
    requires CanBeOvertaken(w, id, other) && Overtakes(w, w', id, other, Ready(w'.now, w.pointer), true)
    ensures Owned(w', Upsert(other))
    ensures
      var after := Step(w', Upsert(other), ttl);
      && after.history == w.history + [Published(w.operators[other].job.release, w.pointer)]
      && id in after.operators && after.operators[id] == w.operators[id]
      && !Owns(after.key, after.now, w.operators[id].token)
  {
    assert w'.operators[id].token != w'.operators[other].token;
  }

  lemma LosesIt(w: World, w': World, id: nat, other: nat, initial: Option<Pointer>, ttl: nat)
    requires CanBeOvertaken(w, id, other) && id in w'.operators && w'.operators[id] == w.operators[id]
    requires w'.history == w.history + [Published(w.operators[other].job.release, w.pointer)]
    requires !Owns(w'.key, w'.now, w.operators[id].token)
    ensures !Owned(w', Upsert(id)) && !Chained(initial, Step(w', Upsert(id), ttl).history)
  {
    var o := w.operators[id];
    var history := Step(w', Upsert(id), ttl).history;
    assert history == w'.history + [NewPointer(o.job, o.phase.seen)];
    var n := |w'.history|;
    assert history[n - 1] == w'.history[n - 1] && Before(initial, history, n) == Some(history[n - 1]);
    assert history[n].previous != CurrentOf(Before(initial, history, n));
  }

  lemma RunOne(w: World, events: seq<Event>, i: nat, ttl: nat)
    requires i < |events|
    ensures Run(w, events[..i + 1], ttl) == Step(Run(w, events[..i], ttl), events[i], ttl)
    ensures Run(w, events[..0], ttl) == w
  {
    assert events[..i + 1][..i] == events[..i];
  }

  // The other half of NoUpdateIsLost: whenever an operator is ready to upsert, owning the key or
  // not, and another is about to publish a release that it does not take for the current one,
  // some continuation loses the update of the other, though no upsert but the last is unowned.
  lemma UnownedUpsertLosesAnUpdate(w: World, id: nat, other: nat, initial: Option<Pointer>, ttl: nat)
    requires CanBeOvertaken(w, id, other) && ttl > 0
    ensures
      var events := Overtaking(w, id, other);
      && (forall i :: 0 <= i < 5 ==> Owned(Run(w, events[..i], ttl), events[i]))
      && !Owned(Run(w, events[..5], ttl), events[5])
      && !Chained(initial, Run(w, events, ttl).history)
  {
    hide Step, Overtakes, CanBeOvertaken, Owned, Chained, Published, Owns;
    var events := Overtaking(w, id, other);
    forall i | 0 <= i < 6 ensures Run(w, events[..i + 1], ttl) == Step(Run(w, events[..i], ttl), events[i], ttl) {
      RunOne(w, events, i, ttl);
    }
    RunOne(w, events, 0, ttl);
    WaitsForTheKey(w, id, other, ttl);
    TakesTheKey(w, Run(w, events[..1], ttl), id, other, ttl);
    Asserts(w, Run(w, events[..2], ttl), id, other, ttl);
    Reads(w, Run(w, events[..3], ttl), id, other, ttl);
    Publishes(w, Run(w, events[..4], ttl), id, other, ttl);
    LosesIt(w, Run(w, events[..5], ttl), id, other, initial, ttl);
    assert events[..6] == events;
    forall i | 0 <= i < 4 ensures Owned(Run(w, events[..i], ttl), events[i]) {
      NoUpsertIsOwned(Run(w, events[..i], ttl), events[i]);
    }
  }

  lemma NoUpsertIsOwned(w: World, e: Event)
    requires !e.Upsert?
    ensures Owned(w, e)
  {
  }

  // A reachable run of this kind: a publisher reads within its lease of one unit, stalls past
  // it, and overwrites what another one published meanwhile.
  const ONE := Release("1", "c1", "s1")
  const TWO := Release("2", "c2", "s2")

  function First(phase: Phase): Operator {
    Operator("a", Publish(ONE), phase, phase != Idle, false)
  }

  const SECOND := Operator("b", Publish(TWO), Idle, false, false)

  function LateWorld(key: Option<Lease>, one: Phase): World {
    World(0, key, None, map[0 := First(one), 1 := SECOND], [])
  }

  const LATE_EVENTS := [Acquire(0, Answered), AssertHeld(0, Answered), Read(0)]

  lemma StepOne(key: Option<Lease>, one: Phase, e: Event, f: Effect)
    requires !e.Tick? && e.id == 0 && f.write == None && f.operator == First(f.operator.phase)
    requires Act(LateWorld(key, one), First(one), e, 1) == f
    ensures Step(LateWorld(key, one), e, 1) == LateWorld(f.key, f.operator.phase)
  {
    var w := LateWorld(key, one);
    assert w.operators[0 := f.operator] == map[0 := f.operator, 1 := SECOND];
  }

  lemma FirstReads()
    ensures Run(LateWorld(None, Idle), LATE_EVENTS, 1) == LateWorld(Some(Lease("a", 1)), Ready(0, None))
  {
    var w, key := LateWorld(None, Idle), Some(Lease("a", 1));
    StepOne(None, Idle, Acquire(0, Answered), Effect(key, First(Holding), None));
    StepOne(key, Holding, AssertHeld(0, Answered), Effect(key, First(Asserted(0)), None));
    StepOne(key, Asserted(0), Read(0), Effect(key, First(Ready(0, None)), None));
    FirstRuns(w);
  }

  lemma FirstRuns(w: World)
    ensures Run(w, LATE_EVENTS, 1)
        == Step(Step(Step(w, Acquire(0, Answered), 1), AssertHeld(0, Answered), 1), Read(0), 1)
  {
    hide Step;
    RunOne(w, LATE_EVENTS, 2, 1);
    RunOne(w, LATE_EVENTS, 1, 1);
    RunOne(w, LATE_EVENTS, 0, 1);
    assert LATE_EVENTS[..3] == LATE_EVENTS;
  }

  lemma LateStart()
    ensures Initial(LateWorld(None, Idle)) && CanBeOvertaken(LateWorld(Some(Lease("a", 1)), Ready(0, None)), 0, 1)
  {
    assert "a"[0] != "b"[0];
  }

  lemma {:induction false} RunAppends(w: World, a: seq<Event>, b: seq<Event>, ttl: nat)
    ensures Run(w, a + b, ttl) == Run(Run(w, a, ttl), b, ttl)
  {
    if b == [] {
      assert a + b == a;
    } else {
      RunAppends(w, a, b[..|b| - 1], ttl);
      assert (a + b)[..|a + b| - 1] == a + b[..|b| - 1];
    }
  }

  lemma LateUpsertLosesAnUpdate()
    ensures Initial(LateWorld(None, Idle))
    ensures
      var late := Overtaking(LateWorld(Some(Lease("a", 1)), Ready(0, None)), 0, 1);
      !Chained(None, Run(LateWorld(None, Idle), LATE_EVENTS + late, 1).history)
  {
    hide Step, Run, Chained, Initial, CanBeOvertaken;
    var w := LateWorld(Some(Lease("a", 1)), Ready(0, None));
    LateStart();
    FirstReads();
    UnownedUpsertLosesAnUpdate(w, 0, 1, None, 1);
    RunAppends(LateWorld(None, Idle), LATE_EVENTS, Overtaking(w, 0, 1), 1);
  }
}
