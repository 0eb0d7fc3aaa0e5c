/** What the log of login attempts answers and becomes, told by its entries and the policy's own
    fields alone. */
module AttemptLaws {
  import opened Collections
  import opened ExpiryHeap
  import opened AttemptLog

  // ---- The attempts that count ----

  // The positions of the attempts of one user name and address that still count.
  ghost function OfPair(log: seq<Attempt>, bucket: string, window: nat, now: real): set<int> {
    set i | 0 <= i < |log| && log[i].lease.keys.pairBucket == bucket && Pair !in log[i].cleared &&
        now < log[i].lease.startedAt + window as real
  }

  ghost function OfUsername(log: seq<Attempt>, bucket: string, window: nat, now: real): set<int> {
    set i | 0 <= i < |log| && log[i].lease.keys.usernameBucket == bucket && Username !in log[i].cleared &&
        now < log[i].lease.startedAt + window as real
  }

  ghost function OfIp(log: seq<Attempt>, bucket: string, window: nat, now: real): set<int> {
    set i | 0 <= i < |log| && log[i].lease.keys.ipBucket == bucket && Ip !in log[i].cleared &&
        now < log[i].lease.startedAt + window as real
  }

  // The keys that some attempt still counts for.
  ghost function Tracked(log: seq<Attempt>, window: nat, now: real): set<BucketKey> {
    var recent := set i | 0 <= i < |log| && now < log[i].lease.startedAt + window as real;
    (set i | i in recent && Pair !in log[i].cleared :: BucketKey(Pair, log[i].lease.keys.pairBucket))
    + (set i | i in recent && Username !in log[i].cleared :: BucketKey(Username, log[i].lease.keys.usernameBucket))
    + (set i | i in recent && Ip !in log[i].cleared :: BucketKey(Ip, log[i].lease.keys.ipBucket))
  }

  // Whether the three keys of a caller can be tracked beside those.
  ghost predicate Fits(log: seq<Attempt>, user: string, ip: string, p: Policy, now: real) {
    var own := {BucketKey(Pair, user + ":" + ip), BucketKey(Username, user), BucketKey(Ip, ip)};
    |Tracked(log, p.windowSeconds, now) + own| <= p.maxTrackedKeys
  }

  // Each of the three budgets of a caller has room for one more attempt.
  ghost predicate HasBudget(log: seq<Attempt>, user: string, ip: string, p: Policy, now: real) {
    && |OfPair(log, user + ":" + ip, p.windowSeconds, now)| < p.pairMax
    && |OfUsername(log, user, p.windowSeconds, now)| < p.usernameMax
    && |OfIp(log, ip, p.windowSeconds, now)| < p.ipMax
  }

  lemma LiveSize(log: seq<Attempt>, key: BucketKey, p: Policy, now: real, counted: set<int>)
    requires forall i :: i in counted <==> 0 <= i < |log| && CountsFor(log[i], key, p, now)
    ensures |Live(log, key, p, now)| == |counted|
  {
    LiveElements(log, key, p, now);
    ElementsSize(Live(log, key, p, now));
    var live := Live(log, key, p, now);
    forall i ensures i in Elements(live) <==> i in counted {
      assert i in Elements(live) <==> i in live;
    }
    assert Elements(live) == counted;
  }

  lemma LiveCounts(log: seq<Attempt>, bucket: string, p: Policy, now: real)
    ensures |Live(log, BucketKey(Pair, bucket), p, now)| == |OfPair(log, bucket, p.windowSeconds, now)|
    ensures |Live(log, BucketKey(Username, bucket), p, now)| == |OfUsername(log, bucket, p.windowSeconds, now)|
    ensures |Live(log, BucketKey(Ip, bucket), p, now)| == |OfIp(log, bucket, p.windowSeconds, now)|
  {
    hide Live;
    LiveSize(log, BucketKey(Pair, bucket), p, now, OfPair(log, bucket, p.windowSeconds, now));
    LiveSize(log, BucketKey(Username, bucket), p, now, OfUsername(log, bucket, p.windowSeconds, now));
    LiveSize(log, BucketKey(Ip, bucket), p, now, OfIp(log, bucket, p.windowSeconds, now));
  }

  lemma TrackedAreLiveKeys(log: seq<Attempt>, p: Policy, now: real)
    ensures LiveKeys(log, p, now) == Tracked(log, p.windowSeconds, now)
  {
    var live, tracked := LiveKeys(log, p, now), Tracked(log, p.windowSeconds, now);
    forall k | k in tracked ensures k in live {
      var i :| 0 <= i < |log| && k == log[i].lease.keys.Key(k.scope) && k.scope !in log[i].cleared &&
          now < log[i].lease.startedAt + p.windowSeconds as real;
      assert k.scope in ALL && CountsFor(log[i], log[i].lease.keys.Key(k.scope), p, now);
    }
    forall k | k in live ensures k in tracked {
      var i, s :| 0 <= i < |log| && s in ALL && CountsFor(log[i], log[i].lease.keys.Key(s), p, now) &&
          log[i].lease.keys.Key(s) == k;
    }
  }

  lemma FitsIff(log: seq<Attempt>, user: string, ip: string, p: Policy, now: real)
    ensures
      Fits(log, user, ip, p, now)
      <==> |LiveKeys(log, p, now) + Elements(KeysOf(user, ip).All())| <= p.maxTrackedKeys
  {
    TrackedAreLiveKeys(log, p, now);
    var all := KeysOf(user, ip).All();
    assert all[0] in all && all[1] in all && all[2] in all;
    assert Elements(all) == {BucketKey(Pair, user + ":" + ip), BucketKey(Username, user), BucketKey(Ip, ip)};
  }

  // ---- Every run ----

  // In every run: an account, an address and a pair of both never have more attempts counted
  // than the policy's own field for them.
  lemma BudgetsHoldInEveryRun(p: Policy, calls: seq<Call>, bucket: string)
    requires p.Valid()
    ensures
      var a := AfterAll(p, calls);
      && |OfPair(a.log, bucket, p.windowSeconds, a.now)| <= p.pairMax
      && |OfUsername(a.log, bucket, p.windowSeconds, a.now)| <= p.usernameMax
      && |OfIp(a.log, bucket, p.windowSeconds, a.now)| <= p.ipMax
      && |Tracked(a.log, p.windowSeconds, a.now)| <= p.maxTrackedKeys
  {
    hide OfPair, OfUsername, OfIp, Tracked, Live, LiveKeys, AfterAll;
    var a := AfterAll(p, calls);
    LimitsHoldInEveryRun(p, calls);
    WrittenBudgets(a.log, bucket, p, a.now);
  }

  lemma WrittenBudgets(log: seq<Attempt>, bucket: string, p: Policy, now: real)
    requires WithinBudgets(log, p, now)
    ensures |OfPair(log, bucket, p.windowSeconds, now)| <= p.pairMax
    ensures |OfUsername(log, bucket, p.windowSeconds, now)| <= p.usernameMax
    ensures |OfIp(log, bucket, p.windowSeconds, now)| <= p.ipMax
    ensures |Tracked(log, p.windowSeconds, now)| <= p.maxTrackedKeys
  {
    hide OfPair, OfUsername, OfIp, Tracked, Live, LiveKeys;
    LiveCounts(log, bucket, p, now);
    TrackedAreLiveKeys(log, p, now);
  }

  // ---- The answer to an attempt ----

  lemma ScopeWaits(log: seq<Attempt>, key: BucketKey, p: Policy, now: real)
    ensures ScopeRetry(log, key, p, now) >= 0
    ensures p.Limit(key.scope) > 0 ==>
              (ScopeRetry(log, key, p, now) == 0 <==> |Live(log, key, p, now)| < p.Limit(key.scope))
  {
    LiveElements(log, key, p, now);
    var live := Live(log, key, p, now);
    assert live != [] ==> live[0] in live;
  }

  lemma ScopesOfLast(log: seq<Attempt>, keys: seq<BucketKey>, p: Policy, now: real)
    requires keys != []
    ensures ScopesRetry(log, keys, p, now)
        == Max(ScopesRetry(log, keys[..|keys| - 1], p, now), ScopeRetry(log, keys[|keys| - 1], p, now))
    ensures ScopesRetry(log, [], p, now) == 0
  {
  }

  lemma ScopesOfCaller(log: seq<Attempt>, user: string, ip: string, p: Policy, now: real)
    ensures
      ScopesRetry(log, KeysOf(user, ip).All(), p, now) ==
      Max(Max(Max(0, ScopeRetry(log, BucketKey(Pair, user + ":" + ip), p, now)),
              ScopeRetry(log, BucketKey(Username, user), p, now)),
          ScopeRetry(log, BucketKey(Ip, ip), p, now))
  {
    hide ScopeRetry;
    var all := KeysOf(user, ip).All();
    ScopesOfLast(log, all, p, now);
    ScopesOfLast(log, all[..2], p, now);
    ScopesOfLast(log, all[..1], p, now);
    assert all[..2][..1] == all[..1] && all[..1][..0] == [];
  }

  // An attempt is admitted if and only if each of the caller's three budgets has room and its
  // keys can be tracked.
  lemma AdmittedIff(log: seq<Attempt>, user: string, ip: string, p: Policy, now: real)
    requires p.Valid()
    ensures RetryAfter(log, KeysOf(user, ip).All(), p, now) >= 0
    ensures RetryAfter(log, KeysOf(user, ip).All(), p, now) == 0
            <==> HasBudget(log, user, ip, p, now) && Fits(log, user, ip, p, now)
  {
    hide OfPair, OfUsername, OfIp, Live, LiveKeys, ScopeRetry, Fits, KeysOf, ScopesRetry;
    FitsIff(log, user, ip, p, now);
    ScopesOfCaller(log, user, ip, p, now);
    LiveCounts(log, user + ":" + ip, p, now);
    LiveCounts(log, user, p, now);
    LiveCounts(log, ip, p, now);
    ScopeWaits(log, BucketKey(Pair, user + ":" + ip), p, now);
    ScopeWaits(log, BucketKey(Username, user), p, now);
    ScopeWaits(log, BucketKey(Ip, ip), p, now);
  }

  lemma ScopeWaitLeast(log: seq<Attempt>, key: BucketKey, p: Policy, now: real, later: real)
    requires LogOk(log, now) && p.Valid() && now <= later
    requires ScopeRetry(log, key, p, now) > 0 && later <= now + (ScopeRetry(log, key, p, now) - 1) as real
    ensures ScopeRetry(log, key, p, later) > 0
  {
    var live := Live(log, key, p, now);
    LiveElements(log, key, p, now);
    LiveElements(log, key, p, later);
    assert live[0] in live;
    CeilBounds(log[live[0]].lease.startedAt + p.Window() - now);
    forall x ensures x in live <==> x in Live(log, key, p, later) {
      if x in live {
        assert live[0] <= x;
      }
    }
    IncreasingUnique(live, Live(log, key, p, later));
  }

  lemma ScopeWaitInWindow(log: seq<Attempt>, key: BucketKey, p: Policy, now: real)
    requires LogOk(log, now) && p.Valid()
    ensures ScopeRetry(log, key, p, now) <= p.windowSeconds
  {
    LiveElements(log, key, p, now);
    var live := Live(log, key, p, now);
    if live != [] {
      assert live[0] in live;
      CeilBounds(log[live[0]].lease.startedAt + p.Window() - now);
    }
  }

  // A caller whose keys cannot be tracked waits a whole window.
  lemma CapacityWait(log: seq<Attempt>, user: string, ip: string, p: Policy, now: real)
    requires LogOk(log, now) && p.Valid() && !Fits(log, user, ip, p, now)
    ensures RetryAfter(log, KeysOf(user, ip).All(), p, now) == p.windowSeconds
  {
    hide ScopeRetry, Fits, KeysOf, ScopesRetry, LiveKeys, LogOk;
    FitsIff(log, user, ip, p, now);
    ScopesOfCaller(log, user, ip, p, now);
    ScopeWaitInWindow(log, BucketKey(Pair, user + ":" + ip), p, now);
    ScopeWaitInWindow(log, BucketKey(Username, user), p, now);
    ScopeWaitInWindow(log, BucketKey(Ip, ip), p, now);
  }

  // Any other blocked caller is told the least number of whole seconds, at least one, after
  // which all three budgets have room.
  lemma BudgetWait(log: seq<Attempt>, user: string, ip: string, p: Policy, now: real, later: real)
    requires LogOk(log, now) && p.Valid() && Fits(log, user, ip, p, now) && now <= later
    requires RetryAfter(log, KeysOf(user, ip).All(), p, now) > 0
    requires later <= now + (RetryAfter(log, KeysOf(user, ip).All(), p, now) - 1) as real
    ensures !HasBudget(log, user, ip, p, later)
  {
    hide ScopeRetry, Fits, KeysOf, ScopesRetry, LiveKeys, LogOk, Live, OfPair, OfUsername, OfIp;
    var retryAfter := RetryAfter(log, KeysOf(user, ip).All(), p, now);
    FitsIff(log, user, ip, p, now);
    ScopesOfCaller(log, user, ip, p, now);
    var scope := BlockingScope(log, user, ip, p, now, retryAfter);
    var key := if scope == Pair then BucketKey(Pair, user + ":" + ip)
               else if scope == Username then BucketKey(Username, user) else BucketKey(Ip, ip);
    ScopeWaitLeast(log, key, p, now, later);
    ScopeWaits(log, key, p, later);
    LiveCounts(log, user + ":" + ip, p, later);
    LiveCounts(log, user, p, later);
    LiveCounts(log, ip, p, later);
  }

  lemma BlockingScope(log: seq<Attempt>, user: string, ip: string, p: Policy, now: real, retryAfter: int)
      returns (scope: Scope)
    requires retryAfter > 0
    requires
      retryAfter ==
      Max(Max(Max(0, ScopeRetry(log, BucketKey(Pair, user + ":" + ip), p, now)),
              ScopeRetry(log, BucketKey(Username, user), p, now)),
          ScopeRetry(log, BucketKey(Ip, ip), p, now))
    ensures
      retryAfter ==
      match scope
      case Pair => ScopeRetry(log, BucketKey(Pair, user + ":" + ip), p, now)
      case Username => ScopeRetry(log, BucketKey(Username, user), p, now)
      case Ip => ScopeRetry(log, BucketKey(Ip, ip), p, now)
  {
    hide ScopeRetry;
    if retryAfter == ScopeRetry(log, BucketKey(Pair, user + ":" + ip), p, now) {
      scope := Pair;
    } else if retryAfter == ScopeRetry(log, BucketKey(Username, user), p, now) {
      scope := Username;
    } else {
      scope := Ip;
    }
  }

  // The answer to an attempt in any run.
  lemma BeginAnswered(p: Policy, calls: seq<Call>, user: string, ip: string, elapsed: Duration, secret: string)
    requires p.Valid()
    ensures
      var a := AfterAll(p, calls);
      var now := a.now + elapsed;
      match AnswerOf(p, a, Begin(user, ip, elapsed, secret)).decision
      case Admitted(lease) =>
        && HasBudget(a.log, user, ip, p, now) && Fits(a.log, user, ip, p, now)
        && lease == Lease(Token(|a.log| + 1, secret), |a.log| + 1, ScopeKeys(user + ":" + ip, user, ip), now)
      case Blocked(retryAfter) =>
        if !Fits(a.log, user, ip, p, now) then retryAfter == p.windowSeconds
        else
          && retryAfter >= 1 && HasBudget(a.log, user, ip, p, now + retryAfter as real)
          && forall later :: now <= later <= now + (retryAfter - 1) as real ==>
              !HasBudget(a.log, user, ip, p, later)
      case ReservationFailed => false
  {
    hide HasBudget, Fits, RetryAfter, LogOk, WithinBudgets, AfterAll;
    var a := AfterAll(p, calls);
    var now := a.now + elapsed;
    LimitsHoldInEveryRun(p, calls);
    WeakerCountsLess(a.log, a.log, p, a.now, now);
    LaterLogOk(a.log, a.now, now);
    AdmittedIff(a.log, user, ip, p, now);
    var retryAfter := RetryAfter(a.log, KeysOf(user, ip).All(), p, now);
    if retryAfter > 0 {
      if !Fits(a.log, user, ip, p, now) {
        CapacityWait(a.log, user, ip, p, now);
      } else {
        var end := now + retryAfter as real;
        KeysWithin(a.log, p, now);
        RetryAfterSuffices(a.log, KeysOf(user, ip).All(), p, now, end);
        AdmittedIff(a.log, user, ip, p, end);
        forall later | now <= later <= now + (retryAfter - 1) as real ensures !HasBudget(a.log, user, ip, p, later) {
          BudgetWait(a.log, user, ip, p, now, later);
        }
      }
    }
  }

  lemma LaterLogOk(log: seq<Attempt>, now: real, later: real)
    requires LogOk(log, now) && now <= later
    ensures LogOk(log, later)
  {
  }

  // ---- What a call makes of the log ----

  // Some budget that the lease names still counts the attempt.
  predicate Matters(a: Attempt, keys: ScopeKeys, window: nat, now: real) {
    && now < a.lease.startedAt + window as real
    && ((a.lease.keys.pairBucket == keys.pairBucket && Pair !in a.cleared)
        || (a.lease.keys.usernameBucket == keys.usernameBucket && Username !in a.cleared)
        || (a.lease.keys.ipBucket == keys.ipBucket && Ip !in a.cleared))
  }

  // The lease is that of the i-th attempt, or a copy of its token, and the attempt is unfinished.
  predicate Names(log: seq<Attempt>, lease: Lease, i: int, window: nat, now: real) {
    && 0 <= i < |log| && lease.sequence == i + 1 && log[i].lease.token == lease.token && log[i].state == Pending
    && Matters(log[i], lease.keys, window, now)
  }

  lemma OpenIffNamed(log: seq<Attempt>, lease: Lease, p: Policy, now: real)
    ensures Open(log, lease, p, now) <==> Names(log, lease, lease.sequence - 1, p.windowSeconds, now)
  {
    if Names(log, lease, lease.sequence - 1, p.windowSeconds, now) {
      var a := log[lease.sequence - 1];
      var s :| a.lease.keys.Key(s) == lease.keys.Key(s) && s !in a.cleared;
      assert CountsFor(a, lease.keys.Key(s), p, now);
    }
  }

  // An admission adds an open attempt on no cleared budget; nothing else adds one.
  lemma AfterBegin(p: Policy, a: Account, user: string, ip: string, elapsed: Duration, secret: string)
    ensures
      var b := After(p, a, Begin(user, ip, elapsed, secret));
      && b.now == a.now + elapsed
      && b.log == match AnswerOf(p, a, Begin(user, ip, elapsed, secret)).decision
                  case Admitted(lease) => a.log + [Attempt(lease, Pending, {})]
                  case _ => a.log
  {
  }

  // A failure marks the attempt it names, and nothing else.
  lemma AfterFailure(p: Policy, a: Account, lease: Lease, i: nat)
    requires i < |a.log|
    ensures
      var b := After(p, a, Failure(lease));
      && b.now == a.now && |b.log| == |a.log|
      && b.log[i] == if Names(a.log, lease, i, p.windowSeconds, a.now) then a.log[i].(state := Failed) else a.log[i]
  {
    hide Open, Names;
    FailWeakens(a.log, lease, p, a.now);
    OpenIffNamed(a.log, lease, p, a.now);
    OnlyOneNamed(a.log, lease, i, p.windowSeconds, a.now);
  }

  lemma OnlyOneNamed(log: seq<Attempt>, lease: Lease, i: int, window: nat, now: real)
    ensures Names(log, lease, i, window, now) ==> 1 <= lease.sequence <= |log| && i == lease.sequence - 1
  {
  }

  // What a finished attempt takes off the budgets it was charged to.
  lemma AfterSuccess(p: Policy, a: Account, lease: Lease, i: nat)
    requires i < |a.log| && LogOk(a.log, a.now)
    ensures
      var b := After(p, a, Success(lease));
      var open := Names(a.log, lease, lease.sequence - 1, p.windowSeconds, a.now);
      var own := i == lease.sequence - 1;
      var earlierFailed := i < lease.sequence - 1 && a.log[i].state == Failed;
      var e, k := a.log[i], a.log[i].lease.keys;
      && b.now == a.now && |b.log| == |a.log| && b.log[i].lease == e.lease && b.log[i].state == e.state
      && (Pair in b.log[i].cleared <==>
            Pair in e.cleared || (open && (own || earlierFailed) && k.pairBucket == lease.keys.pairBucket))
      && (Username in b.log[i].cleared <==>
            Username in e.cleared || (open && (own || earlierFailed) && k.usernameBucket == lease.keys.usernameBucket))
      && (Ip in b.log[i].cleared <==> Ip in e.cleared || (open && own && k.ipBucket == lease.keys.ipBucket))
  {
    hide Open, Names;
    OpenIffNamed(a.log, lease, p, a.now);
    NamedToken(a.log, lease, p.windowSeconds, a.now);
    TokenNumber(a.log, a.now, i);
  }

  lemma NamedToken(log: seq<Attempt>, lease: Lease, window: nat, now: real)
    requires LogOk(log, now)
    ensures Names(log, lease, lease.sequence - 1, window, now) ==>
              lease.token.sequence == lease.sequence && log[lease.sequence - 1].lease.token == lease.token
  {
  }

  lemma TokenNumber(log: seq<Attempt>, now: real, i: nat)
    requires LogOk(log, now) && i < |log|
    ensures log[i].lease.sequence == log[i].lease.token.sequence == i + 1
  {
  }

  lemma AfterCancellation(p: Policy, a: Account, lease: Lease, i: nat)
    requires i < |a.log| && LogOk(a.log, a.now)
    ensures
      var b := After(p, a, Cancellation(lease));
      var named := Names(a.log, lease, i, p.windowSeconds, a.now);
      var e, k := a.log[i], a.log[i].lease.keys;
      && b.now == a.now && |b.log| == |a.log| && b.log[i].lease == e.lease && b.log[i].state == e.state
      && (Pair in b.log[i].cleared <==> Pair in e.cleared || (named && k.pairBucket == lease.keys.pairBucket))
      && (Username in b.log[i].cleared <==>
            Username in e.cleared || (named && k.usernameBucket == lease.keys.usernameBucket))
      && (Ip in b.log[i].cleared <==> Ip in e.cleared || (named && k.ipBucket == lease.keys.ipBucket))
  {
    hide Open, Names;
    OpenIffNamed(a.log, lease, p, a.now);
    NamedToken(a.log, lease, p.windowSeconds, a.now);
    TokenNumber(a.log, a.now, i);
    OnlyOneNamed(a.log, lease, i, p.windowSeconds, a.now);
  }

  // clear() forgets the failures of the user name everywhere, and of the pair; never the
  // address's, and no open attempt.
  lemma AfterForget(p: Policy, a: Account, user: string, ip: string, i: nat)
    requires i < |a.log|
    ensures
      var b := After(p, a, Forget(user, ip));
      var e, k := a.log[i], a.log[i].lease.keys;
      && b.now == a.now && |b.log| == |a.log| && b.log[i].lease == e.lease && b.log[i].state == e.state
      && (Pair in b.log[i].cleared <==> Pair in e.cleared || (e.state == Failed && k.pairBucket == user + ":" + ip))
      && (Username in b.log[i].cleared <==>
            Username in e.cleared || (e.state == Failed && k.usernameBucket == user))
      && (Ip in b.log[i].cleared <==> Ip in e.cleared)
  {
  }

  // The calls that only look.
  lemma AfterLooking(p: Policy, a: Account, user: string, ip: string, elapsed: Duration, secret: string)
    ensures After(p, a, Ask(user, ip, elapsed)) == Account(a.log, a.now + elapsed)
    ensures After(p, a, Count(elapsed)) == Account(a.log, a.now + elapsed)
    ensures AnswerOf(p, a, Count(elapsed)) == Counted(|Tracked(a.log, p.windowSeconds, a.now + elapsed)|)
    ensures
      var wait := AnswerOf(p, a, Ask(user, ip, elapsed));
      match AnswerOf(p, a, Begin(user, ip, elapsed, secret)).decision
      case Blocked(retryAfter) => wait == Wait(retryAfter)
      case Admitted(_) => p.Valid() ==> wait == Wait(0)
      case ReservationFailed => false
  {
    hide Tracked, LiveKeys, RetryAfter, HasBudget, Fits;
    TrackedAreLiveKeys(a.log, p, a.now + elapsed);
    if p.Valid() {
      AdmittedIff(a.log, user, ip, p, a.now + elapsed);
    }
  }

  // The k-th answer is that of the k-th call, after the calls before it.
  lemma {:induction false} AnswersInOrder(p: Policy, calls: seq<Call>, k: nat)
    requires k < |calls|
    ensures Answers(p, calls)[k] == AnswerOf(p, AfterAll(p, calls[..k]), calls[k])
    ensures AfterAll(p, calls[..k + 1]) == After(p, AfterAll(p, calls[..k]), calls[k])
    ensures AfterAll(p, []) == Account([], 0.0)
  {
    assert calls[..k + 1][..k] == calls[..k];
    if k < |calls| - 1 {
      AnswersInOrder(p, calls[..|calls| - 1], k);
      assert calls[..|calls| - 1][..k] == calls[..k] && calls[..|calls| - 1][..k + 1] == calls[..k + 1];
    }
  }
}
