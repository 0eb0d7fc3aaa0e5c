/** The naive account of the login limiter: every attempt it ever admitted, in order,
    with its outcome and the scopes whose budget no longer counts it. */
module AttemptLog {
  import opened Collections
  import opened ExpiryHeap

  datatype Token = Token(sequence: int, secret: string)

  // The three budgets an attempt is charged to.
  datatype ScopeKeys = ScopeKeys(pairBucket: string, usernameBucket: string, ipBucket: string) {
    function Key(s: Scope): BucketKey {
      match s
      case Pair => BucketKey(Pair, pairBucket)
      case Username => BucketKey(Username, usernameBucket)
      case Ip => BucketKey(Ip, ipBucket)
    }

    function All(): seq<BucketKey> {
      [Key(Pair), Key(Username), Key(Ip)]
    }
  }

  // From the normalised (or digested) user name and the digest of the client address.
  function KeysOf(usernameKey: string, ipKey: string): ScopeKeys {
    ScopeKeys(usernameKey + ":" + ipKey, usernameKey, ipKey)
  }

  datatype Lease = Lease(token: Token, sequence: int, keys: ScopeKeys, startedAt: real)

  datatype State = Pending | Failed

  datatype Attempt = Attempt(lease: Lease, state: State, cleared: set<Scope>)

  datatype Policy = Policy(
    pairMax: nat, usernameMax: nat, ipMax: nat, windowSeconds: nat, maxTrackedKeys: nat)
  {
    predicate Valid() {
      pairMax > 0 && usernameMax > 0 && ipMax > 0 && windowSeconds > 0 && maxTrackedKeys >= 3
    }

    function Limit(s: Scope): nat {
      match s
      case Pair => pairMax
      case Username => usernameMax
      case Ip => ipMax
    }

    function Window(): real {
      windowSeconds as real
    }
  }

  datatype Decision = Admitted(lease: Lease) | Blocked(retryAfter: int) | ReservationFailed

  const ALL: set<Scope> := {Pair, Username, Ip}

  predicate Unexpired(a: Attempt, p: Policy, now: real) {
    now < a.lease.startedAt + p.Window()
  }

  // The budget of `key` counts this attempt at time `now`.
  predicate CountsFor(a: Attempt, key: BucketKey, p: Policy, now: real) {
    a.lease.keys.Key(key.scope) == key && key.scope !in a.cleared && Unexpired(a, p, now)
  }

  // The attempts that the budget of `key` counts, as positions in the log, oldest first.
  function Live(log: seq<Attempt>, key: BucketKey, p: Policy, now: real): seq<int> {
    if log == [] then []
    else
      var n := |log| - 1;
      Live(log[..n], key, p, now) + (if CountsFor(log[n], key, p, now) then [n] else [])
  }

  ghost function LiveKeys(log: seq<Attempt>, p: Policy, now: real): set<BucketKey> {
    set i, s | 0 <= i < |log| && s in ALL && CountsFor(log[i], log[i].lease.keys.Key(s), p, now) ::
        log[i].lease.keys.Key(s)
  }

  function Ceil(x: real): int {
    -((-x).Floor)
  }

  // The wait that one scope demands: until its oldest counted attempt leaves the window.
  function ScopeRetry(log: seq<Attempt>, key: BucketKey, p: Policy, now: real): int {
    var live := Live(log, key, p, now);
    if live == [] || |live| < p.Limit(key.scope) || !(0 <= live[0] < |log|) then 0
    else Max(Ceil(log[live[0]].lease.startedAt + p.Window() - now), 1)
  }

  function ScopesRetry(log: seq<Attempt>, keys: seq<BucketKey>, p: Policy, now: real): int {
    if keys == [] then 0
    else Max(ScopesRetry(log, keys[..|keys| - 1], p, now), ScopeRetry(log, keys[|keys| - 1], p, now))
  }

  // The answer of the limiter, from the log alone; 0 admits the attempt.
  ghost function RetryAfter(log: seq<Attempt>, keys: seq<BucketKey>, p: Policy, now: real): int {
    var scopes := ScopesRetry(log, keys, p, now);
    if |LiveKeys(log, p, now) + Elements(keys)| > p.maxTrackedKeys
    then Max(scopes, p.windowSeconds)
    else scopes
  }

  ghost predicate LogOk(log: seq<Attempt>, now: real) {
    && (forall i :: 0 <= i < |log| ==>
          && log[i].lease.sequence == i + 1 && log[i].lease.token.sequence == i + 1
          && log[i].lease.startedAt <= now)
    && (forall i, j :: 0 <= i <= j < |log| ==> log[i].lease.startedAt <= log[j].lease.startedAt)
  }

  // ---- Operations on the log ----

  function Admit(log: seq<Attempt>, lease: Lease): seq<Attempt> {
    log + [Attempt(lease, Pending, {})]
  }

  // What takes attempts off budgets: a success, a cancellation, or a reset of the failures.
  datatype Clearance = BySuccess(lease: Lease) | ByCancel(lease: Lease) | ByReset(keys: ScopeKeys) {
    function Key(s: Scope): BucketKey {
      if ByReset? then keys.Key(s) else lease.keys.Key(s)
    }
  }

  // Whether the clearance takes an attempt off the budget of one of its own keys.
  predicate Removes(c: Clearance, s: Scope, token: Token, sequence: int, state: State) {
    match c
    case BySuccess(l) =>
      if s == Ip then token == l.token
      else (token == l.token && sequence == l.sequence) || (state == Failed && sequence < l.sequence)
    case ByCancel(l) => token == l.token
    case ByReset(_) => s != Ip && state == Failed
  }

  predicate Clears(c: Clearance, s: Scope, a: Attempt) {
    a.lease.keys.Key(s) == c.Key(s) && Removes(c, s, a.lease.token, a.lease.sequence, a.state)
  }

  function Clear(log: seq<Attempt>, c: Clearance): (r: seq<Attempt>)
    ensures |r| == |log|
  {
    seq(|log|, i requires 0 <= i < |log| =>
      log[i].(cleared := log[i].cleared + set s | s in ALL && Clears(c, s, log[i])))
  }

  // The lease names an attempt that some budget of the lease still counts, and whose outcome
  // is not known yet. Outcomes of attempts that left the window no longer matter to anyone.
  predicate Open(log: seq<Attempt>, lease: Lease, p: Policy, now: real) {
    && 1 <= lease.sequence <= |log| && log[lease.sequence - 1].lease.token == lease.token
    && log[lease.sequence - 1].state == Pending
    && exists s :: CountsFor(log[lease.sequence - 1], lease.keys.Key(s), p, now)
  }

  function Fail(log: seq<Attempt>, lease: Lease, p: Policy, now: real): seq<Attempt> {
    if Open(log, lease, p, now)
    then log[lease.sequence - 1 := log[lease.sequence - 1].(state := Failed)]
    else log
  }

  function ClearIfOpen(log: seq<Attempt>, c: Clearance, p: Policy, now: real): seq<Attempt> {
    if c.ByReset? || Open(log, c.lease, p, now) then Clear(log, c) else log
  }

  ghost predicate Issued(log: seq<Attempt>, lease: Lease) {
    1 <= lease.sequence <= |log| && log[lease.sequence - 1].lease == lease
  }

  // ---- Properties of the log ----

  ghost predicate Increasing(xs: seq<int>) {
    forall i, j :: 0 <= i < j < |xs| ==> xs[i] < xs[j]
  }

  lemma {:induction false} LiveElements(log: seq<Attempt>, key: BucketKey, p: Policy, now: real)
    ensures Increasing(Live(log, key, p, now))
    ensures forall x :: x in Live(log, key, p, now) <==> 0 <= x < |log| && CountsFor(log[x], key, p, now)
  {
    if log != [] {
      LiveElements(log[..|log| - 1], key, p, now);
      var front := Live(log[..|log| - 1], key, p, now);
      forall j | 0 <= j < |front| ensures front[j] < |log| - 1 {
        assert front[j] in front;
      }
    }
  }

  lemma {:induction false} IncreasingUnique(a: seq<int>, b: seq<int>)
    requires Increasing(a) && Increasing(b) && (forall x :: x in a <==> x in b)
    ensures a == b
  {
    assert a != [] ==> a[0] in a;
    assert b != [] ==> b[0] in b;
    if a != [] {
      assert a[0] in b && b[0] in a;
      assert a[0] == b[0];
      assert a == [a[0]] + a[1..] && b == [b[0]] + b[1..];
      assert a[0] !in a[1..] && b[0] !in b[1..];
      forall x ensures x in a[1..] <==> x in b[1..] {
        assert x in a <==> x == a[0] || x in a[1..];
        assert x in b <==> x == b[0] || x in b[1..];
      }
      IncreasingUnique(a[1..], b[1..]);
    }
  }

  // A later look at the same log counts a suffix of what an earlier look counted.
  lemma LaterIsSuffix(log: seq<Attempt>, key: BucketKey, p: Policy, now: real, later: real)
    requires LogOk(log, now) && now <= later
    ensures |Live(log, key, p, later)| <= |Live(log, key, p, now)|
    ensures
      var a := Live(log, key, p, now);
      a != [] && 0 <= a[0] < |log| && !Unexpired(log[a[0]], p, later) ==>
        |Live(log, key, p, later)| < |a|
  {
    var a, b := Live(log, key, p, now), Live(log, key, p, later);
    LiveElements(log, key, p, now);
    LiveElements(log, key, p, later);
    ElementsSize(a);
    ElementsSize(b);
    assert Elements(b) <= Elements(a);
    SubsetSize(Elements(b), Elements(a));
    if a != [] && 0 <= a[0] < |log| && !Unexpired(log[a[0]], p, later) {
      assert a[0] in Elements(a) && a[0] !in Elements(b);
      SubsetSize(Elements(b), Elements(a) - {a[0]});
    }
  }

  lemma {:induction false} ScopesRetryBounds(log: seq<Attempt>, keys: seq<BucketKey>, p: Policy, now: real,
          key: BucketKey)
    requires key in keys
    ensures ScopesRetry(log, keys, p, now) >= ScopeRetry(log, key, p, now)
  {
    if key != keys[|keys| - 1] {
      ScopesRetryBounds(log, keys[..|keys| - 1], p, now, key);
    }
  }

  lemma {:induction false} ScopesRetryZero(log: seq<Attempt>, keys: seq<BucketKey>, p: Policy, now: real)
    requires forall key :: key in keys ==> ScopeRetry(log, key, p, now) == 0
    ensures ScopesRetry(log, keys, p, now) == 0
  {
    if keys != [] {
      ScopesRetryZero(log, keys[..|keys| - 1], p, now);
    }
  }

  lemma CeilBounds(x: real)
    ensures x <= Ceil(x) as real < x + 1.0
  {
  }

  lemma LiveKeysShrink(log: seq<Attempt>, p: Policy, now: real, later: real)
    requires now <= later
    ensures LiveKeys(log, p, later) <= LiveKeys(log, p, now)
  {
    forall k | k in LiveKeys(log, p, later) ensures k in LiveKeys(log, p, now) {
      var i, s :| 0 <= i < |log| && s in ALL && CountsFor(log[i], log[i].lease.keys.Key(s), p, later) &&
          log[i].lease.keys.Key(s) == k;
      assert CountsFor(log[i], log[i].lease.keys.Key(s), p, now);
    }
  }

  lemma ScopeRetryLater(log: seq<Attempt>, key: BucketKey, p: Policy, now: real, later: real)
    requires p.Valid() && LogOk(log, now) && |Live(log, key, p, now)| <= p.Limit(key.scope)
    requires now <= later && later >= now + ScopeRetry(log, key, p, now) as real
    ensures ScopeRetry(log, key, p, later) == 0
  {
    var a := Live(log, key, p, now);
    LiveElements(log, key, p, now);
    LaterIsSuffix(log, key, p, now, later);
    if a != [] {
      assert a[0] in a;
      CeilBounds(log[a[0]].lease.startedAt + p.Window() - now);
    }
  }

  // Waiting as long as the answer says is enough, whatever caused the block.
  lemma RetryAfterSuffices(log: seq<Attempt>, keys: seq<BucketKey>, p: Policy, now: real, later: real)
    requires p.Valid() && LogOk(log, now) && |keys| <= 3
    requires forall key :: key in keys ==> |Live(log, key, p, now)| <= p.Limit(key.scope)
    requires later >= now + RetryAfter(log, keys, p, now) as real
    ensures RetryAfter(log, keys, p, later) == 0
  {
    var r := RetryAfter(log, keys, p, now);
    RetryNonNegative(log, keys, p, now);
    forall key | key in keys ensures ScopeRetry(log, key, p, later) == 0 {
      ScopesRetryBounds(log, keys, p, now, key);
      ScopeRetryLater(log, key, p, now, later);
    }
    ScopesRetryZero(log, keys, p, later);
    var before, after := LiveKeys(log, p, now) + Elements(keys), LiveKeys(log, p, later) + Elements(keys);
    if |before| > p.maxTrackedKeys {
      assert LiveKeys(log, p, later) == {};
      ElementsSize(keys);
    } else {
      LiveKeysShrink(log, p, now, later);
      SubsetSize(after, before);
    }
  }

  lemma {:induction false} RetryNonNegative(log: seq<Attempt>, keys: seq<BucketKey>, p: Policy, now: real)
    ensures ScopesRetry(log, keys, p, now) >= 0 && RetryAfter(log, keys, p, now) >= 0
  {
    if keys != [] {
      RetryNonNegative(log, keys[..|keys| - 1], p, now);
    }
  }

  // A success takes off the pair and username budgets only its own attempt and earlier
  // failed ones, off the ip budget only its own, and never another open attempt.
  lemma SuccessClearsExactly(log: seq<Attempt>, lease: Lease, now: real, i: nat, s: Scope)
    requires LogOk(log, now) && Issued(log, lease) && i < |log|
    ensures
      var after := Clear(log, BySuccess(lease));
      && after[i].lease == log[i].lease && after[i].state == log[i].state
      && (s in after[i].cleared <==>
            || s in log[i].cleared
            || i == lease.sequence - 1
            || (s != Ip && log[i].state == Failed && i < lease.sequence - 1 &&
                log[i].lease.keys.Key(s) == lease.keys.Key(s)))
      && (log[i].state == Pending && i != lease.sequence - 1 ==> after[i] == log[i])
  {
  }

  lemma CancelClearsExactly(log: seq<Attempt>, lease: Lease, now: real, i: nat)
    requires LogOk(log, now) && Issued(log, lease) && i < |log|
    ensures
      var after := Clear(log, ByCancel(lease));
      after[i] == if i == lease.sequence - 1 then log[i].(cleared := log[i].cleared + ALL) else log[i]
  {
    var off := set s | s in ALL && Clears(ByCancel(lease), s, log[i]);
    assert off == if i == lease.sequence - 1 then ALL else {};
  }

  // ---- Runs ----

  type Duration = x: real | x >= 0.0

  // A call of the limiter; those that read the clock find some time elapsed since the last reading.
  datatype Call =
    | Begin(usernameKey: string, ipKey: string, elapsed: Duration, secret: string)
    | Ask(usernameKey: string, ipKey: string, elapsed: Duration)
    | Failure(lease: Lease)
    | Success(lease: Lease)
    | Cancellation(lease: Lease)
    | Forget(usernameKey: string, ipKey: string)
    | Count(elapsed: Duration)
  {
    function Elapsed(): Duration {
      if Begin? || Ask? || Count? then elapsed else 0.0
    }
  }

  datatype Answer = Decided(decision: Decision) | Wait(seconds: int) | Counted(keys: nat) | Done

  // The log, and the time of the last clock reading.
  datatype Account = Account(log: seq<Attempt>, now: real)

  function NextLease(log: seq<Attempt>, keys: ScopeKeys, now: real, secret: string): Lease {
    Lease(Token(|log| + 1, secret), |log| + 1, keys, now)
  }

  ghost function AnswerOf(p: Policy, a: Account, call: Call): Answer {
    var now := a.now + call.Elapsed();
    match call
    case Begin(user, ip, _, secret) =>
      var keys := KeysOf(user, ip);
      var retryAfter := RetryAfter(a.log, keys.All(), p, now);
      Decided(if retryAfter > 0 then Blocked(retryAfter) else Admitted(NextLease(a.log, keys, now, secret)))
    case Ask(user, ip, _) => Wait(RetryAfter(a.log, KeysOf(user, ip).All(), p, now))
    case Count(_) => Counted(|LiveKeys(a.log, p, now)|)
    case _ => Done
  }

  ghost function After(p: Policy, a: Account, call: Call): Account {
    var now := a.now + call.Elapsed();
    match call
    case Begin(user, ip, _, secret) =>
      var answer := AnswerOf(p, a, call);
      Account(if answer.decision.Admitted? then Admit(a.log, answer.decision.lease) else a.log, now)
    case Failure(lease) => Account(Fail(a.log, lease, p, now), now)
    case Success(lease) => Account(ClearIfOpen(a.log, BySuccess(lease), p, now), now)
    case Cancellation(lease) => Account(ClearIfOpen(a.log, ByCancel(lease), p, now), now)
    case Forget(user, ip) => Account(Clear(a.log, ByReset(KeysOf(user, ip))), now)
    case _ => Account(a.log, now)
  }

  ghost function AfterAll(p: Policy, calls: seq<Call>): Account {
    if calls == [] then Account([], 0.0)
    else After(p, AfterAll(p, calls[..|calls| - 1]), calls[|calls| - 1])
  }

  ghost function Answers(p: Policy, calls: seq<Call>): (r: seq<Answer>)
    ensures |r| == |calls|
  {
    if calls == [] then []
    else
      var earlier := calls[..|calls| - 1];
      Answers(p, earlier) + [AnswerOf(p, AfterAll(p, earlier), calls[|calls| - 1])]
  }

  // No budget counts more attempts than its limit, and no more keys count any than can be tracked.
  ghost predicate WithinBudgets(log: seq<Attempt>, p: Policy, now: real) {
    && (forall key :: |Live(log, key, p, now)| <= p.Limit(key.scope))
    && |LiveKeys(log, p, now)| <= p.maxTrackedKeys
  }

  // The same attempts later, with perhaps more of them off some budgets.
  ghost predicate Weaker(log: seq<Attempt>, log': seq<Attempt>) {
    && |log'| == |log|
    && forall i :: 0 <= i < |log| ==> log'[i].lease == log[i].lease && log[i].cleared <= log'[i].cleared
  }

  lemma WeakerCountsLess(log: seq<Attempt>, log': seq<Attempt>, p: Policy, now: real, later: real)
    requires Weaker(log, log') && now <= later && WithinBudgets(log, p, now)
    ensures WithinBudgets(log', p, later)
  {
    forall key ensures |Live(log', key, p, later)| <= p.Limit(key.scope) {
      LiveElements(log, key, p, now);
      LiveElements(log', key, p, later);
      ElementsSize(Live(log, key, p, now));
      ElementsSize(Live(log', key, p, later));
      SubsetSize(Elements(Live(log', key, p, later)), Elements(Live(log, key, p, now)));
    }
    forall k | k in LiveKeys(log', p, later) ensures k in LiveKeys(log, p, now) {
      var i, s :| 0 <= i < |log'| && s in ALL && CountsFor(log'[i], log'[i].lease.keys.Key(s), p, later) &&
          log'[i].lease.keys.Key(s) == k;
      assert CountsFor(log[i], log[i].lease.keys.Key(s), p, now);
    }
    SubsetSize(LiveKeys(log', p, later), LiveKeys(log, p, now));
  }

  lemma AdmitWithin(log: seq<Attempt>, lease: Lease, p: Policy, now: real)
    requires p.Valid() && WithinBudgets(log, p, now) && RetryAfter(log, lease.keys.All(), p, now) == 0
    ensures WithinBudgets(Admit(log, lease), p, now)
  {
    hide Live, LiveKeys, ScopesRetry;
    var log' := Admit(log, lease);
    RetryNonNegative(log, lease.keys.All(), p, now);
    forall key ensures |Live(log', key, p, now)| <= p.Limit(key.scope) {
      LiveAdmitted(log, lease, key, p, now);
      if lease.keys.Key(key.scope) == key {
        assert key in lease.keys.All();
        ScopesRetryBounds(log, lease.keys.All(), p, now, key);
        LiveElements(log, key, p, now);
        var live := Live(log, key, p, now);
        assert live != [] ==> live[0] in live;
      }
    }
    LiveKeysAdmitted(log, lease, p, now);
    SubsetSize(LiveKeys(log', p, now), LiveKeys(log, p, now) + Elements(lease.keys.All()));
  }

  lemma LiveAdmitted(log: seq<Attempt>, lease: Lease, key: BucketKey, p: Policy, now: real)
    ensures |Live(Admit(log, lease), key, p, now)| <=
              |Live(log, key, p, now)| + if lease.keys.Key(key.scope) == key then 1 else 0
  {
    assert Admit(log, lease)[..|log|] == log;
  }

  lemma LiveKeysAdmitted(log: seq<Attempt>, lease: Lease, p: Policy, now: real)
    ensures LiveKeys(Admit(log, lease), p, now) <= LiveKeys(log, p, now) + Elements(lease.keys.All())
  {
    var log' := Admit(log, lease);
    forall k | k in LiveKeys(log', p, now) ensures k in LiveKeys(log, p, now) || k in lease.keys.All() {
      var i, s :| 0 <= i < |log'| && s in ALL && CountsFor(log'[i], log'[i].lease.keys.Key(s), p, now) &&
          log'[i].lease.keys.Key(s) == k;
      if i < |log| {
        assert CountsFor(log[i], log[i].lease.keys.Key(s), p, now);
      }
    }
  }

  lemma OutcomesWeaken(p: Policy, a: Account, call: Call)
    requires !call.Begin?
    ensures Weaker(a.log, After(p, a, call).log)
  {
    hide Open, Clears, RetryAfter;
    match call
    case Failure(lease) => FailWeakens(a.log, lease, p, a.now);
    case _ =>
  }

  lemma FailWeakens(log: seq<Attempt>, lease: Lease, p: Policy, now: real)
    ensures Weaker(log, Fail(log, lease, p, now))
  {
  }

  lemma OneCallKeepsBudgets(p: Policy, a: Account, call: Call)
    requires p.Valid() && LogOk(a.log, a.now) && WithinBudgets(a.log, p, a.now)
    ensures var b := After(p, a, call); LogOk(b.log, b.now) && WithinBudgets(b.log, p, b.now)
  {
    hide WithinBudgets, RetryAfter, LiveKeys, Open;
    var b := After(p, a, call);
    WeakerCountsLess(a.log, a.log, p, a.now, b.now);
    if call.Begin? {
      if |b.log| > |a.log| {
        var keys := KeysOf(call.usernameKey, call.ipKey);
        RetryNonNegative(a.log, keys.All(), p, b.now);
        AdmitWithin(a.log, b.log[|a.log|].lease, p, b.now);
      }
    } else {
      OutcomesWeaken(p, a, call);
      WeakerCountsLess(a.log, b.log, p, a.now, b.now);
    }
  }

  // Whatever is called in whatever order, no window ever counts more than its limit.
  lemma {:induction false} LimitsHoldInEveryRun(p: Policy, calls: seq<Call>)
    requires p.Valid()
    ensures var a := AfterAll(p, calls); LogOk(a.log, a.now) && WithinBudgets(a.log, p, a.now)
  {
    if calls == [] {
      NothingCounted(p);
    } else {
      var earlier := calls[..|calls| - 1];
      LimitsHoldInEveryRun(p, earlier);
      OneCallKeepsBudgets(p, AfterAll(p, earlier), calls[|calls| - 1]);
    }
  }

  lemma NothingCounted(p: Policy)
    ensures WithinBudgets([], p, 0.0)
  {
    assert LiveKeys([], p, 0.0) == {};
  }

  lemma BlockedThenAdmitted(p: Policy, a: Account, begin: Call, later: Call)
    requires p.Valid() && begin.Begin? && later.Begin?
    requires later.usernameKey == begin.usernameKey && later.ipKey == begin.ipKey
    requires var b := After(p, a, begin); LogOk(b.log, b.now) && WithinBudgets(b.log, p, b.now)
    requires AnswerOf(p, a, begin).decision.Blocked?
    requires later.elapsed >= AnswerOf(p, a, begin).decision.retryAfter as real
    ensures AnswerOf(p, After(p, a, begin), later).decision.Admitted?
  {
    hide RetryAfter, WithinBudgets, LogOk;
    var b := After(p, a, begin);
    KeysWithin(b.log, p, b.now);
    RetryAfterSuffices(b.log, KeysOf(begin.usernameKey, begin.ipKey).All(), p, b.now, b.now + later.elapsed);
  }

  // In every run: who waits as told, and is not overtaken, is admitted.
  lemma ToldWaitSuffices(p: Policy, calls: seq<Call>, begin: Call, later: Call)
    requires p.Valid() && begin.Begin? && later.Begin?
    requires later.usernameKey == begin.usernameKey && later.ipKey == begin.ipKey
    requires AnswerOf(p, AfterAll(p, calls), begin).decision.Blocked?
    requires later.elapsed >= AnswerOf(p, AfterAll(p, calls), begin).decision.retryAfter as real
    ensures AnswerOf(p, AfterAll(p, calls + [begin]), later).decision.Admitted?
  {
    hide AnswerOf, WithinBudgets, LogOk, After;
    LimitsHoldInEveryRun(p, calls + [begin]);
    AfterOneMore(p, calls, begin);
    BlockedThenAdmitted(p, AfterAll(p, calls), begin, later);
  }

  lemma AfterOneMore(p: Policy, calls: seq<Call>, call: Call)
    ensures AfterAll(p, calls + [call]) == After(p, AfterAll(p, calls), call)
    ensures Answers(p, calls + [call]) == Answers(p, calls) + [AnswerOf(p, AfterAll(p, calls), call)]
  {
    assert (calls + [call])[..|calls|] == calls;
  }

  lemma KeysWithin(log: seq<Attempt>, p: Policy, now: real)
    requires WithinBudgets(log, p, now)
    ensures forall key :: |Live(log, key, p, now)| <= p.Limit(key.scope)
  {
  }
}
