/** The login limiter: buckets of shared attempt events per key, purged lazily, with the
    expiry heap as index. It is proved to answer as the naive attempt log does. */
module RateLimiter {
  import opened Options
  import opened Collections
  import opened ExpiryHeap
  import opened AttemptLog
  import opened AttemptLaws

  class AttemptEvent {
    const token: Token
    const sequence: int
    const occurredAt: real
    const expiresAt: real
    var state: State

    constructor (token: Token, sequence: int, occurredAt: real, expiresAt: real)
      ensures this.token == token && this.sequence == sequence
      ensures this.occurredAt == occurredAt && this.expiresAt == expiresAt && state == Pending
    {
      this.token := token;
      this.sequence := sequence;
      this.occurredAt := occurredAt;
      this.expiresAt := expiresAt;
      state := Pending;
    }
  }

  // ---- The buckets, seen as positions in the log ----

  function At(index: map<BucketKey, seq<int>>, key: BucketKey): seq<int> {
    if key in index then index[key] else []
  }

  predicate Holds(index: map<BucketKey, seq<int>>, key: BucketKey, x: int) {
    x in At(index, key)
  }

  // Every bucket lists attempts of its key in order, and no unexpired attempt that
  // still counts is missing. Expired attempts may linger.
  ghost predicate Represents(log: seq<Attempt>, index: map<BucketKey, seq<int>>, p: Policy, now: real) {
    && (forall k :: k in index ==> index[k] != [] && Increasing(index[k]))
    && Faithful(log, index, p, now)
    && Complete(log, index, p, now)
  }

  ghost predicate Faithful(log: seq<Attempt>, index: map<BucketKey, seq<int>>, p: Policy, now: real) {
    forall k, x :: Holds(index, k, x) ==>
      && 0 <= x < |log| && log[x].lease.keys.Key(k.scope) == k
      && (Unexpired(log[x], p, now) ==> k.scope !in log[x].cleared)
  }

  ghost predicate Complete(log: seq<Attempt>, index: map<BucketKey, seq<int>>, p: Policy, now: real) {
    forall i, s :: 0 <= i < |log| && Unexpired(log[i], p, now) && s !in log[i].cleared ==>
      Holds(index, log[i].lease.keys.Key(s), i)
  }

  // What a clearance does to the buckets of its own keys; expired attempts may go or stay.
  ghost predicate Cleared(log: seq<Attempt>, index: map<BucketKey, seq<int>>, index': map<BucketKey, seq<int>>,
          c: Clearance, p: Policy, now: real) {
    && (forall k :: k in index' ==> index'[k] != [] && Increasing(index'[k]))
    && (forall k, x :: Holds(index', k, x) ==> Holds(index, k, x))
    && (forall k, x :: Holds(index, k, x) && 0 <= x < |log| && Unexpired(log[x], p, now) ==>
          (Holds(index', k, x) <==> !Clears(c, k.scope, log[x])))
  }

  lemma ClearRepresents(log: seq<Attempt>, index: map<BucketKey, seq<int>>, index': map<BucketKey, seq<int>>,
          c: Clearance, p: Policy, now: real)
    requires LogOk(log, now) && Represents(log, index, p, now) && Cleared(log, index, index', c, p, now)
    ensures LogOk(Clear(log, c), now) && Represents(Clear(log, c), index', p, now)
  {
    var log' := Clear(log, c);
    forall i, s | 0 <= i < |log'| && Unexpired(log'[i], p, now) && s !in log'[i].cleared
      ensures Holds(index', log'[i].lease.keys.Key(s), i)
    {
      var key := log[i].lease.keys.Key(s);
      assert s !in log[i].cleared && Holds(index, key, i);
      assert key.scope == s && !Clears(c, s, log[i]);
    }
  }

  // A clearance in the name of an attempt that left the window takes away nothing that counts.
  ghost predicate ClearsNothing(log: seq<Attempt>, c: Clearance, p: Policy, now: real) {
    forall x, s :: 0 <= x < |log| && Clears(c, s, log[x]) ==> !Unexpired(log[x], p, now)
  }

  lemma ExpiredClearsNothing(log: seq<Attempt>, c: Clearance, p: Policy, now: real)
    requires LogOk(log, now) && !c.ByReset? && 1 <= c.lease.sequence <= |log|
    requires log[c.lease.sequence - 1].lease.token == c.lease.token
    requires !Unexpired(log[c.lease.sequence - 1], p, now)
    ensures ClearsNothing(log, c, p, now)
  {
    forall x, s | 0 <= x < |log| && Clears(c, s, log[x]) ensures !Unexpired(log[x], p, now) {
      assert x <= c.lease.sequence - 1;
    }
  }

  lemma ClearNothingRepresents(log: seq<Attempt>, index: map<BucketKey, seq<int>>, index': map<BucketKey, seq<int>>,
          c: Clearance, p: Policy, now: real)
    requires LogOk(log, now) && Represents(log, index, p, now) && Cleared(log, index, index', c, p, now)
    requires ClearsNothing(log, c, p, now)
    ensures Represents(log, index', p, now)
  {
    PurgeRepresents(log, index, index', p, now, now);
  }

  lemma FailRepresents(log: seq<Attempt>, index: map<BucketKey, seq<int>>, lease: Lease, p: Policy, now: real)
    requires LogOk(log, now) && Represents(log, index, p, now)
    ensures LogOk(Fail(log, lease, p, now), now) && Represents(Fail(log, lease, p, now), index, p, now)
  {
    var log' := Fail(log, lease, p, now);
    assert forall i :: 0 <= i < |log| ==> log'[i].lease == log[i].lease && log'[i].cleared == log[i].cleared;
    forall i, s | 0 <= i < |log'| && Unexpired(log'[i], p, now) && s !in log'[i].cleared
      ensures Holds(index, log'[i].lease.keys.Key(s), i)
    {
      assert Holds(index, log[i].lease.keys.Key(s), i);
    }
  }

  // The unexpired part of a bucket is exactly what the log counts for the key.
  lemma UnexpiredIsLive(log: seq<Attempt>, index: map<BucketKey, seq<int>>, key: BucketKey, b: seq<int>, p: Policy,
          now: real)
    requires LogOk(log, now) && Represents(log, index, p, now)
    requires Increasing(b)
    requires forall x :: x in b <==> Holds(index, key, x) && 0 <= x < |log| && Unexpired(log[x], p, now)
    ensures b == Live(log, key, p, now)
  {
    LiveElements(log, key, p, now);
    forall x ensures x in b <==> x in Live(log, key, p, now) {
      if x in Live(log, key, p, now) {
        assert CountsFor(log[x], key, p, now);
        assert Holds(index, log[x].lease.keys.Key(key.scope), x);
      }
    }
    IncreasingUnique(b, Live(log, key, p, now));
  }

  predicate Charged(keys: ScopeKeys, k: BucketKey) {
    k == keys.Key(k.scope)
  }

  ghost predicate Grown<T>(s0: seq<T>, s1: seq<T>, x: T, here: bool) {
    s1 == if here then s0 + [x] else s0
  }

  // A new attempt joins the buckets of its three keys.
  ghost predicate Joined(index: map<BucketKey, seq<int>>, index': map<BucketKey, seq<int>>, lease: Lease, n: int) {
    forall k :: Grown(At(index, k), At(index', k), n, Charged(lease.keys, k))
  }

  lemma JoinedInOrder(index: map<BucketKey, seq<int>>, index': map<BucketKey, seq<int>>, lease: Lease, n: int)
    requires Joined(index, index', lease, n)
    requires forall k :: k in index ==> Increasing(index[k])
    requires forall k, x :: Holds(index, k, x) ==> x < n
    ensures forall k :: k in index' ==> Increasing(index'[k])
  {
    forall k | k in index' ensures Increasing(index'[k]) {
      var before := At(index, k);
      forall j | 0 <= j < |before| ensures before[j] < n {
        assert Holds(index, k, before[j]);
      }
      assert Grown(before, At(index', k), n, Charged(lease.keys, k));
    }
  }

  lemma JoinedHolds(index: map<BucketKey, seq<int>>, index': map<BucketKey, seq<int>>, lease: Lease, n: int,
          key: BucketKey, x: int)
    requires Joined(index, index', lease, n)
    ensures Holds(index', key, x) <==> Holds(index, key, x) || (x == n && key == lease.keys.Key(key.scope))
  {
    assert Grown(At(index, key), At(index', key), n, Charged(lease.keys, key));
  }

  lemma AdmitFaithful(log: seq<Attempt>, index: map<BucketKey, seq<int>>, index': map<BucketKey, seq<int>>,
          lease: Lease, p: Policy, now: real)
    requires Faithful(log, index, p, now) && Joined(index, index', lease, |log|)
    ensures Faithful(Admit(log, lease), index', p, now)
  {
    var log' := Admit(log, lease);
    forall k, x | Holds(index', k, x)
      ensures 0 <= x < |log'| && log'[x].lease.keys.Key(k.scope) == k
      ensures Unexpired(log'[x], p, now) ==> k.scope !in log'[x].cleared
    {
      JoinedHolds(index, index', lease, |log|, k, x);
    }
  }

  lemma AdmitComplete(log: seq<Attempt>, index: map<BucketKey, seq<int>>, index': map<BucketKey, seq<int>>,
          lease: Lease, p: Policy, now: real)
    requires Complete(log, index, p, now) && Joined(index, index', lease, |log|)
    ensures Complete(Admit(log, lease), index', p, now)
  {
    var log' := Admit(log, lease);
    forall i, s | 0 <= i < |log'| && Unexpired(log'[i], p, now) && s !in log'[i].cleared
      ensures Holds(index', log'[i].lease.keys.Key(s), i)
    {
      JoinedHolds(index, index', lease, |log|, log'[i].lease.keys.Key(s), i);
    }
  }

  lemma AdmitRepresents(log: seq<Attempt>, index: map<BucketKey, seq<int>>, index': map<BucketKey, seq<int>>,
          lease: Lease, p: Policy, now: real)
    requires LogOk(log, now) && Represents(log, index, p, now)
    requires lease.sequence == lease.token.sequence == |log| + 1 && lease.startedAt == now
    requires Joined(index, index', lease, |log|) && forall k :: k in index' ==> index'[k] != []
    ensures LogOk(Admit(log, lease), now) && Represents(Admit(log, lease), index', p, now)
  {
    JoinedInOrder(index, index', lease, |log|);
    AdmitFaithful(log, index, index', lease, p, now);
    AdmitComplete(log, index, index', lease, p, now);
  }

  // Later, with whole expired buckets gone, the buckets still represent the log.
  lemma PurgeRepresents(log: seq<Attempt>, index: map<BucketKey, seq<int>>, index': map<BucketKey, seq<int>>,
          p: Policy, now: real, later: real)
    requires now <= later && LogOk(log, now) && Represents(log, index, p, now)
    requires forall k :: k in index' ==> index'[k] != [] && Increasing(index'[k])
    requires forall k, x :: Holds(index', k, x) ==> Holds(index, k, x)
    requires forall k, x :: Holds(index, k, x) && 0 <= x < |log| && Unexpired(log[x], p, later) ==> Holds(index', k, x)
    ensures LogOk(log, later) && Represents(log, index', p, later)
  {
  }

  // ---- The buckets of events ----

  function Events(buckets: map<BucketKey, seq<AttemptEvent>>, key: BucketKey): seq<AttemptEvent> {
    if key in buckets then buckets[key] else []
  }

  ghost function Indices(events: seq<AttemptEvent>): (r: seq<int>)
    ensures |r| == |events| && forall j :: 0 <= j < |events| ==> r[j] == events[j].sequence - 1
  {
    seq(|events|, j requires 0 <= j < |events| => events[j].sequence - 1)
  }

  ghost function IndexOf(buckets: map<BucketKey, seq<AttemptEvent>>): map<BucketKey, seq<int>> {
    map k | k in buckets :: Indices(buckets[k])
  }

  ghost function LastExpiry(events: seq<AttemptEvent>): real {
    if events == [] then 0.0 else events[|events| - 1].expiresAt
  }

  ghost function LastExpiries(buckets: map<BucketKey, seq<AttemptEvent>>): map<BucketKey, real> {
    map k | k in buckets :: LastExpiry(buckets[k])
  }

  lemma ExpiriesWithout(buckets: map<BucketKey, seq<AttemptEvent>>, key: BucketKey)
    ensures LastExpiries(buckets - {key}) == LastExpiries(buckets) - {key}
  {
  }

  lemma ExpiriesWith(buckets: map<BucketKey, seq<AttemptEvent>>, key: BucketKey, events: seq<AttemptEvent>)
    ensures LastExpiries(buckets[key := events]) == LastExpiries(buckets)[key := LastExpiry(events)]
  {
  }

  ghost function DropDue(events: seq<AttemptEvent>, now: real): seq<AttemptEvent> {
    if events == [] || events[0].expiresAt > now then events else DropDue(events[1..], now)
  }

  ghost function Retained(events: seq<AttemptEvent>, c: Clearance, s: Scope): seq<AttemptEvent>
    reads events
  {
    if events == [] then []
    else
      var e := events[|events| - 1];
      Retained(events[..|events| - 1], c, s) + (if Removes(c, s, e.token, e.sequence, e.state) then [] else [e])
  }

  lemma NothingRetained(c: Clearance, s: Scope)
    ensures Retained([], c, s) == []
  {
  }

  ghost predicate InOrder(events: seq<AttemptEvent>) {
    forall i, j :: 0 <= i < j < |events| ==> events[i].sequence < events[j].sequence
  }

  lemma {:induction false} RetainedElements(events: seq<AttemptEvent>, c: Clearance, s: Scope)
    ensures |Retained(events, c, s)| <= |events|
    ensures forall j :: 0 <= j < |Retained(events, c, s)| ==>
              var e := Retained(events, c, s)[j]; e in events && !Removes(c, s, e.token, e.sequence, e.state)
    ensures forall j :: 0 <= j < |events| ==>
              var e := events[j]; Removes(c, s, e.token, e.sequence, e.state) || e in Retained(events, c, s)
  {
    if events != [] {
      RetainedElements(events[..|events| - 1], c, s);
      assert events == events[..|events| - 1] + [events[|events| - 1]];
    }
  }

  lemma {:induction false} RetainedBelow(events: seq<AttemptEvent>, c: Clearance, s: Scope, bound: int)
    requires forall j :: 0 <= j < |events| ==> events[j].sequence < bound
    ensures forall j :: 0 <= j < |Retained(events, c, s)| ==> Retained(events, c, s)[j].sequence < bound
  {
    if events != [] {
      RetainedBelow(events[..|events| - 1], c, s, bound);
    }
  }

  lemma {:induction false} RetainedInOrder(events: seq<AttemptEvent>, c: Clearance, s: Scope)
    requires InOrder(events)
    ensures InOrder(Retained(events, c, s))
  {
    if events != [] {
      RetainedInOrder(events[..|events| - 1], c, s);
      RetainedBelow(events[..|events| - 1], c, s, events[|events| - 1].sequence);
    }
  }

  ghost predicate NoneDue(events: seq<AttemptEvent>, now: real) {
    events == [] || events[0].expiresAt > now
  }

  lemma {:induction false} DropDueStops(events: seq<AttemptEvent>, now: real)
    ensures NoneDue(DropDue(events, now), now)
  {
    if !NoneDue(events, now) {
      DropDueStops(events[1..], now);
    }
  }

  lemma {:induction false} DropDueElements(events: seq<AttemptEvent>, now: real)
    requires forall i, j :: 0 <= i <= j < |events| ==> events[i].expiresAt <= events[j].expiresAt
    ensures |DropDue(events, now)| <= |events|
    ensures forall e :: e in DropDue(events, now) <==> e in events && e.expiresAt > now
    ensures InOrder(events) ==> InOrder(DropDue(events, now))
  {
    if events != [] && events[0].expiresAt <= now {
      DropDueElements(events[1..], now);
      assert events == [events[0]] + events[1..];
    } else {
      forall e | e in events ensures e.expiresAt > now {
        var j :| 0 <= j < |events| && events[j] == e;
        assert events[0].expiresAt <= events[j].expiresAt;
      }
    }
  }

  // Every event carries the stamps of its log entry.
  ghost predicate Stamped(log: seq<Attempt>, buckets: map<BucketKey, seq<AttemptEvent>>, p: Policy) {
    forall k, e :: e in Events(buckets, k) ==>
      && 1 <= e.sequence <= |log| && e.token == log[e.sequence - 1].lease.token
      && e.expiresAt == log[e.sequence - 1].lease.startedAt + p.Window()
  }

  lemma HoldsEvent(buckets: map<BucketKey, seq<AttemptEvent>>, key: BucketKey, x: int)
    ensures Holds(IndexOf(buckets), key, x) <==> exists e :: e in Events(buckets, key) && e.sequence - 1 == x
  {
    if key in buckets {
      var xs := Indices(buckets[key]);
      assert At(IndexOf(buckets), key) == xs;
      if x in xs {
        var j :| 0 <= j < |xs| && xs[j] == x;
        assert buckets[key][j] in Events(buckets, key);
      }
      if e :| e in Events(buckets, key) && e.sequence - 1 == x {
        var j :| 0 <= j < |buckets[key]| && buckets[key][j] == e;
        assert xs[j] == x;
      }
    }
  }

  // Every event is the admitted one of its number, and while it counts in the state the log gives it.
  ghost predicate InState(log: seq<Attempt>, admitted: seq<AttemptEvent>,
          buckets: map<BucketKey, seq<AttemptEvent>>, p: Policy, now: real)
    reads admitted
  {
    |admitted| == |log| &&
    forall k, e :: e in Events(buckets, k) ==>
      && 1 <= e.sequence <= |log| && admitted[e.sequence - 1] == e
      && (Unexpired(log[e.sequence - 1], p, now) ==> e.state == log[e.sequence - 1].state)
  }

  // Bucket events are in the order of their expiry.
  lemma EventsOrdered(log: seq<Attempt>, buckets: map<BucketKey, seq<AttemptEvent>>, p: Policy, now: real,
          key: BucketKey)
    requires LogOk(log, now) && Stamped(log, buckets, p) && Represents(log, IndexOf(buckets), p, now)
    ensures InOrder(Events(buckets, key))
    ensures
      var b := Events(buckets, key);
      forall i, j :: 0 <= i <= j < |b| ==> b[i].expiresAt <= b[j].expiresAt
  {
    var b := Events(buckets, key);
    if key in buckets {
      var xs := Indices(b);
      assert IndexOf(buckets)[key] == xs;
      assert forall i, j :: 0 <= i < j < |b| ==> xs[i] < xs[j];
    }
    forall i, j | 0 <= i <= j < |b| ensures b[i].expiresAt <= b[j].expiresAt {
      assert b[i] in b && b[j] in b;
    }
  }

  // Only due events of e0 are gone in e1.
  ghost predicate PurgedEvents(e0: seq<AttemptEvent>, e1: seq<AttemptEvent>, now: real) {
    && (forall e :: e in e1 ==> e in e0)
    && (forall e :: e in e0 && e.expiresAt > now ==> e in e1)
    && |e1| <= |e0| && InOrder(e1)
  }

  ghost predicate Purged(b0: map<BucketKey, seq<AttemptEvent>>, b1: map<BucketKey, seq<AttemptEvent>>, now: real) {
    && (forall k :: PurgedEvents(Events(b0, k), Events(b1, k), now))
    && (forall k :: k in b1 ==> b1[k] != [])
  }

  lemma PurgedRepresents(log: seq<Attempt>, b0: map<BucketKey, seq<AttemptEvent>>,
          b1: map<BucketKey, seq<AttemptEvent>>, p: Policy, now: real, later: real)
    requires now <= later && LogOk(log, now) && Represents(log, IndexOf(b0), p, now)
    requires Stamped(log, b0, p) && Purged(b0, b1, later)
    ensures LogOk(log, later) && Represents(log, IndexOf(b1), p, later) && Stamped(log, b1, p)
  {
    var index, index' := IndexOf(b0), IndexOf(b1);
    forall k | k in index' ensures index'[k] != [] && Increasing(index'[k]) {
      assert PurgedEvents(Events(b0, k), Events(b1, k), later);
      assert index'[k] == Indices(Events(b1, k));
    }
    forall k, x | Holds(index', k, x) ensures Holds(index, k, x) {
      assert PurgedEvents(Events(b0, k), Events(b1, k), later);
      HoldsEvent(b1, k, x);
      HoldsEvent(b0, k, x);
    }
    forall k, x | Holds(index, k, x) && 0 <= x < |log| && Unexpired(log[x], p, later) ensures Holds(index', k, x) {
      assert PurgedEvents(Events(b0, k), Events(b1, k), later);
      HoldsEvent(b0, k, x);
      HoldsEvent(b1, k, x);
    }
    PurgeRepresents(log, index, index', p, now, later);
  }

  lemma LiveAreTracked(log: seq<Attempt>, buckets: map<BucketKey, seq<AttemptEvent>>, p: Policy, now: real)
    requires Complete(log, IndexOf(buckets), p, now)
    ensures LiveKeys(log, p, now) <= buckets.Keys
  {
    forall k | k in LiveKeys(log, p, now) ensures k in buckets {
      var i, s :| 0 <= i < |log| && s in ALL && CountsFor(log[i], log[i].lease.keys.Key(s), p, now) &&
          log[i].lease.keys.Key(s) == k;
      assert k.scope == s && Holds(IndexOf(buckets), log[i].lease.keys.Key(s), i);
    }
  }

  lemma TrackedIsLive(log: seq<Attempt>, buckets: map<BucketKey, seq<AttemptEvent>>, p: Policy, now: real,
          key: BucketKey, e: AttemptEvent)
    requires Faithful(log, IndexOf(buckets), p, now) && Stamped(log, buckets, p)
    requires e in Events(buckets, key) && e.expiresAt > now
    ensures key in LiveKeys(log, p, now)
  {
    var i := e.sequence - 1;
    HoldsEvent(buckets, key, i);
    assert Holds(IndexOf(buckets), key, i);
    assert key.scope in ALL && log[i].lease.keys.Key(key.scope) == key && CountsFor(log[i], key, p, now);
  }

  // Once every tracked key has an unexpired event, the tracked keys are the live ones.
  lemma TrackedAreLive(log: seq<Attempt>, buckets: map<BucketKey, seq<AttemptEvent>>, p: Policy, now: real)
    requires Represents(log, IndexOf(buckets), p, now) && Stamped(log, buckets, p)
    requires forall k :: k in buckets ==> buckets[k] != [] && LastExpiry(buckets[k]) > now
    ensures buckets.Keys == LiveKeys(log, p, now)
  {
    hide LiveKeys, Faithful, Complete, Stamped;
    LiveAreTracked(log, buckets, p, now);
    forall k | k in buckets ensures k in LiveKeys(log, p, now) {
      TrackedIsLive(log, buckets, p, now, k, buckets[k][|buckets[k]| - 1]);
    }
  }

  lemma WholeBucketsPurged(log: seq<Attempt>, b0: map<BucketKey, seq<AttemptEvent>>,
          b1: map<BucketKey, seq<AttemptEvent>>, p: Policy, before: real, now: real)
    requires LogOk(log, before) && Represents(log, IndexOf(b0), p, before) && Stamped(log, b0, p)
    requires forall k :: k in b1 ==> k in b0 && b1[k] == b0[k] && b1[k] != []
    requires forall k :: k in b0 && k !in b1 ==> LastExpiry(b0[k]) <= now
    ensures Purged(b0, b1, now)
  {
    forall k ensures PurgedEvents(Events(b0, k), Events(b1, k), now) {
      EventsOrdered(log, b0, p, before, k);
      var b := Events(b0, k);
      forall e | e in b && e.expiresAt > now ensures e in Events(b1, k) {
        var j :| 0 <= j < |b| && b[j] == e;
        assert b[j].expiresAt <= b[|b| - 1].expiresAt;
      }
    }
  }

  function WithEvents(b0: map<BucketKey, seq<AttemptEvent>>, key: BucketKey,
          events: seq<AttemptEvent>): map<BucketKey, seq<AttemptEvent>> {
    if events == [] then b0 - {key} else b0[key := events]
  }

  lemma OneBucketPurged(log: seq<Attempt>, b0: map<BucketKey, seq<AttemptEvent>>, p: Policy, before: real, now: real,
          key: BucketKey)
    requires LogOk(log, before) && Represents(log, IndexOf(b0), p, before) && Stamped(log, b0, p)
    requires forall k :: k in b0 ==> b0[k] != []
    ensures Purged(b0, WithEvents(b0, key, DropDue(Events(b0, key), now)), now)
  {
    var b1 := WithEvents(b0, key, DropDue(Events(b0, key), now));
    forall k ensures PurgedEvents(Events(b0, k), Events(b1, k), now) {
      EventsOrdered(log, b0, p, before, k);
      if k == key {
        DropDueElements(Events(b0, key), now);
      }
    }
  }

  // A bucket whose last event is not due stays, with the same last event.
  lemma {:induction false} DropDueLast(events: seq<AttemptEvent>, now: real)
    requires events != [] && LastExpiry(events) > now
    ensures DropDue(events, now) != [] && LastExpiry(DropDue(events, now)) == LastExpiry(events)
  {
    if events[0].expiresAt <= now {
      DropDueLast(events[1..], now);
    }
  }

  lemma CurrentIsLive(log: seq<Attempt>, buckets: map<BucketKey, seq<AttemptEvent>>, p: Policy, before: real,
          now: real, key: BucketKey)
    requires before <= now && LogOk(log, before) && Represents(log, IndexOf(buckets), p, before) &&
        Stamped(log, buckets, p)
    ensures Indices(DropDue(Events(buckets, key), now)) == Live(log, key, p, now)
  {
    var b := DropDue(Events(buckets, key), now);
    EventsOrdered(log, buckets, p, before, key);
    DropDueElements(Events(buckets, key), now);
    var only := buckets[key := b];
    PurgedSelf(log, buckets, p, before, now);
    forall x ensures x in Indices(b)
        <==> Holds(IndexOf(buckets), key, x) && 0 <= x < |log| && Unexpired(log[x], p, now) {
      HoldsEvent(buckets, key, x);
      HoldsEvent(only, key, x);
      assert At(IndexOf(only), key) == Indices(b);
    }
    UnexpiredIsLive(log, IndexOf(buckets), key, Indices(b), p, now);
  }

  lemma PurgedSelf(log: seq<Attempt>, buckets: map<BucketKey, seq<AttemptEvent>>, p: Policy, now: real, later: real)
    requires now <= later && LogOk(log, now) && Represents(log, IndexOf(buckets), p, now) && Stamped(log, buckets, p)
    ensures LogOk(log, later) && Represents(log, IndexOf(buckets), p, later)
  {
  }

  predicate Filters(c: Clearance, k: BucketKey) {
    k == c.Key(k.scope) && (k.scope != Ip || !c.ByReset?)
  }

  // What the filters of one clearance leave of the bucket of `k`.
  ghost function Filtered(events: seq<AttemptEvent>, c: Clearance, k: BucketKey): seq<AttemptEvent>
    reads events
  {
    if Filters(c, k) then Retained(events, c, k.scope) else events
  }

  lemma FilteredHolds(log: seq<Attempt>, admitted: seq<AttemptEvent>, b0: map<BucketKey, seq<AttemptEvent>>,
          b1: map<BucketKey, seq<AttemptEvent>>, c: Clearance, k: BucketKey, x: int, p: Policy, now: real)
    requires LogOk(log, now) && Stamped(log, b0, p) && InState(log, admitted, b0, p, now)
    requires Faithful(log, IndexOf(b0), p, now)
    requires Events(b1, k) == Filtered(Events(b0, k), c, k)
    ensures Holds(IndexOf(b1), k, x) ==> Holds(IndexOf(b0), k, x)
    ensures Holds(IndexOf(b0), k, x) && 0 <= x < |log| && Unexpired(log[x], p, now) ==>
              (Holds(IndexOf(b1), k, x) <==> !Clears(c, k.scope, log[x]))
  {
    hide LogOk, Stamped, InState, Faithful, Holds, IndexOf, Retained;
    HoldsEvent(b0, k, x);
    HoldsEvent(b1, k, x);
    RetainedElements(Events(b0, k), c, k.scope);
    if Holds(IndexOf(b0), k, x) {
      FaithfulAt(log, IndexOf(b0), p, now, k, x);
      forall e | Unexpired(log[x], p, now) && e in Events(b0, k) && e.sequence - 1 == x
        ensures Removes(c, k.scope, e.token, e.sequence, e.state)
            <==> Removes(c, k.scope, log[x].lease.token, log[x].lease.sequence, log[x].state)
      {
        StampedNumber(log, b0, p, k, e);
        InStateAt(log, admitted, b0, k, e, p, now);
        LogOkAt(log, now, x);
      }
    }
  }

  lemma FaithfulAt(log: seq<Attempt>, index: map<BucketKey, seq<int>>, p: Policy, now: real, k: BucketKey, x: int)
    requires Faithful(log, index, p, now) && Holds(index, k, x)
    ensures 0 <= x < |log| && log[x].lease.keys.Key(k.scope) == k
    ensures Unexpired(log[x], p, now) ==> k.scope !in log[x].cleared
  {
  }

  lemma InStateAt(log: seq<Attempt>, admitted: seq<AttemptEvent>, buckets: map<BucketKey, seq<AttemptEvent>>,
          k: BucketKey, e: AttemptEvent, p: Policy, now: real)
    requires InState(log, admitted, buckets, p, now) && e in Events(buckets, k)
    ensures |admitted| == |log| && 1 <= e.sequence <= |log| && admitted[e.sequence - 1] == e
    ensures Unexpired(log[e.sequence - 1], p, now) ==> e.state == log[e.sequence - 1].state
  {
  }

  lemma LogOkAt(log: seq<Attempt>, now: real, i: nat)
    requires LogOk(log, now) && i < |log|
    ensures log[i].lease.sequence == i + 1 == log[i].lease.token.sequence
  {
  }

  lemma FilteredCleared(log: seq<Attempt>, admitted: seq<AttemptEvent>, b0: map<BucketKey, seq<AttemptEvent>>,
          b1: map<BucketKey, seq<AttemptEvent>>, c: Clearance, p: Policy, now: real)
    requires LogOk(log, now) && Stamped(log, b0, p) && InState(log, admitted, b0, p, now)
    requires Represents(log, IndexOf(b0), p, now)
    requires forall k :: Events(b1, k) == Filtered(Events(b0, k), c, k)
    requires forall k :: k in b1 ==> b1[k] != []
    ensures Cleared(log, IndexOf(b0), IndexOf(b1), c, p, now)
  {
    hide LogOk, Stamped, InState, Faithful, Holds;
    forall k, x
      ensures Holds(IndexOf(b1), k, x) ==> Holds(IndexOf(b0), k, x)
      ensures Holds(IndexOf(b0), k, x) && 0 <= x < |log| && Unexpired(log[x], p, now) ==>
                (Holds(IndexOf(b1), k, x) <==> !Clears(c, k.scope, log[x]))
    {
      FilteredHolds(log, admitted, b0, b1, c, k, x, p, now);
    }
    forall k | k in IndexOf(b1) ensures IndexOf(b1)[k] != [] && Increasing(IndexOf(b1)[k]) {
      EventsOrdered(log, b0, p, now, k);
      RetainedInOrder(Events(b0, k), c, k.scope);
      InOrderIncreasing(Events(b1, k));
    }
  }

  lemma InOrderIncreasing(events: seq<AttemptEvent>)
    requires InOrder(events)
    ensures Increasing(Indices(events))
  {
  }

  datatype AppendOutcome = Appended | CapacityFailed | BudgetFailed

  // No tracked key is left with only due events.
  ghost predicate Fresh(buckets: map<BucketKey, seq<AttemptEvent>>, now: real) {
    forall k :: k in buckets ==> LastExpiry(buckets[k]) > now
  }

  lemma FreshStaysTracked(b0: map<BucketKey, seq<AttemptEvent>>, key: BucketKey, now: real)
    requires Fresh(b0, now) && forall k :: k in b0 ==> b0[k] != []
    ensures
      var b1 := WithEvents(b0, key, DropDue(Events(b0, key), now));
      Fresh(b1, now) && b1.Keys == b0.Keys
  {
    if key in b0 {
      DropDueLast(b0[key], now);
    }
  }

  lemma MissingStep(keys: seq<BucketKey>, i: nat, tracked: set<BucketKey>)
    requires i < |keys| && forall j :: 0 <= j < i ==> keys[j] != keys[i]
    ensures |Elements(keys[..i + 1]) - tracked| ==
      |Elements(keys[..i]) - tracked| + if keys[i] in tracked then 0 else 1
  {
    assert keys[..i + 1] == keys[..i] + [keys[i]];
    assert Elements(keys[..i + 1]) == Elements(keys[..i]) + {keys[i]};
    assert keys[i] !in Elements(keys[..i]);
    assert Elements(keys[..i + 1]) - tracked ==
      (Elements(keys[..i]) - tracked) + if keys[i] in tracked then {} else {keys[i]};
  }

  lemma ScopesRetryStep(log: seq<Attempt>, keys: seq<BucketKey>, i: nat, p: Policy, now: real)
    requires i < |keys|
    ensures ScopesRetry(log, keys[..i + 1], p, now) ==
      Max(ScopesRetry(log, keys[..i], p, now), ScopeRetry(log, keys[i], p, now))
    ensures ScopesRetry(log, keys[..i], p, now) >= 0
  {
    assert keys[..i + 1][..i] == keys[..i];
    RetryNonNegative(log, keys[..i], p, now);
  }

  // The bucket of `key` is what the log counts for it.
  ghost predicate IsLive(log: seq<Attempt>, events: seq<AttemptEvent>, key: BucketKey, p: Policy, now: real) {
    Indices(events) == Live(log, key, p, now)
  }

  lemma ScopeRetryOfEvents(log: seq<Attempt>, buckets: map<BucketKey, seq<AttemptEvent>>, key: BucketKey, p: Policy,
          now: real)
    requires Stamped(log, buckets, p) && IsLive(log, Events(buckets, key), key, p, now)
    ensures
      var events := Events(buckets, key);
      ScopeRetry(log, key, p, now) ==
        if events == [] || |events| < p.Limit(key.scope) then 0
        else Max(Ceil(events[0].expiresAt - now), 1)
  {
    var events := Events(buckets, key);
    if events != [] {
      assert events[0] in events;
      assert Live(log, key, p, now)[0] == events[0].sequence - 1;
    }
  }

  ghost predicate EventJoined(b0: map<BucketKey, seq<AttemptEvent>>, b1: map<BucketKey, seq<AttemptEvent>>,
          keys: ScopeKeys, event: AttemptEvent) {
    forall k :: Grown(Events(b0, k), Events(b1, k), event, Charged(keys, k))
  }

  lemma AppendedJoins(b0: map<BucketKey, seq<AttemptEvent>>, b1: map<BucketKey, seq<AttemptEvent>>, lease: Lease,
          event: AttemptEvent)
    requires EventJoined(b0, b1, lease.keys, event)
    ensures Joined(IndexOf(b0), IndexOf(b1), lease, event.sequence - 1)
  {
    forall k ensures Grown(At(IndexOf(b0), k), At(IndexOf(b1), k), event.sequence - 1, Charged(lease.keys, k)) {
      assert Grown(Events(b0, k), Events(b1, k), event, Charged(lease.keys, k));
      var s0, s1 := Indices(Events(b0, k)), Indices(Events(b1, k));
      assert At(IndexOf(b0), k) == s0 && At(IndexOf(b1), k) == s1;
    }
  }

  lemma AllCharged(keys: ScopeKeys, k: BucketKey)
    ensures k in keys.All() <==> Charged(keys, k)
  {
  }

  lemma GrownStep(b0: map<BucketKey, seq<AttemptEvent>>, b1: map<BucketKey, seq<AttemptEvent>>,
          b2: map<BucketKey, seq<AttemptEvent>>, prior: seq<BucketKey>, key: BucketKey, event: AttemptEvent)
    requires key !in prior && b2 == b1[key := Events(b1, key) + [event]]
    requires forall k :: Grown(Events(b0, k), Events(b1, k), event, k in prior)
    ensures forall k :: Grown(Events(b0, k), Events(b2, k), event, k in prior + [key])
  {
    forall k ensures Grown(Events(b0, k), Events(b2, k), event, k in prior + [key]) {
      assert Grown(Events(b0, k), Events(b1, k), event, k in prior);
    }
  }

  lemma GrownStart(b: map<BucketKey, seq<AttemptEvent>>, all: seq<BucketKey>, event: AttemptEvent)
    ensures forall k :: Grown(Events(b, k), Events(b, k), event, k in all[..0])
    ensures b.Keys == b.Keys + Elements(all[..0])
  {
  }

  ghost predicate HasRoom(prior: seq<BucketKey>, buckets: map<BucketKey, seq<AttemptEvent>>, key: BucketKey,
          p: Policy) {
    key !in prior && |Events(buckets, key)| < p.Limit(key.scope)
  }

  lemma KeysAreRoomy(keys: ScopeKeys, buckets: map<BucketKey, seq<AttemptEvent>>, p: Policy)
    requires forall s :: |Events(buckets, keys.Key(s))| < p.Limit(s)
    ensures forall i :: 0 <= i < |keys.All()| ==> HasRoom(keys.All()[..i], buckets, keys.All()[i], p)
  {
    forall i | 0 <= i < 3 ensures HasRoom(keys.All()[..i], buckets, keys.All()[i], p) {
      var key := keys.All()[i];
      assert key == keys.Key(key.scope);
    }
  }

  // Appending to other keys leaves room for the next one.
  lemma RoomStays(b0: map<BucketKey, seq<AttemptEvent>>, b1: map<BucketKey, seq<AttemptEvent>>, keys: seq<BucketKey>,
          i: nat, event: AttemptEvent, p: Policy)
    requires i < |keys| && HasRoom(keys[..i], b0, keys[i], p)
    requires |b0.Keys + Elements(keys)| <= p.maxTrackedKeys
    requires b1.Keys == b0.Keys + Elements(keys[..i])
    requires forall k :: Grown(Events(b0, k), Events(b1, k), event, k in keys[..i])
    ensures keys[i] !in keys[..i] && |Events(b1, keys[i])| < p.Limit(keys[i].scope)
    ensures keys[i] in b1 || |b1| < p.maxTrackedKeys
  {
    assert Grown(Events(b0, keys[i]), Events(b1, keys[i]), event, false);
    if keys[i] !in b1 {
      forall x | x in Elements(keys[..i]) ensures x in Elements(keys) {
        assert x in keys[..i] ==> x in keys;
      }
      SubsetSize(b1.Keys + {keys[i]}, b0.Keys + Elements(keys));
    }
  }

  lemma GrownForAll(b0: map<BucketKey, seq<AttemptEvent>>, b1: map<BucketKey, seq<AttemptEvent>>, keys: ScopeKeys,
          event: AttemptEvent)
    requires forall k :: Grown(Events(b0, k), Events(b1, k), event, k in keys.All())
    ensures EventJoined(b0, b1, keys, event)
  {
    forall k ensures Grown(Events(b0, k), Events(b1, k), event, Charged(keys, k)) {
      AllCharged(keys, k);
    }
  }

  lemma EventOrOld(b0: map<BucketKey, seq<AttemptEvent>>, b1: map<BucketKey, seq<AttemptEvent>>, keys: ScopeKeys,
          event: AttemptEvent, k: BucketKey, e: AttemptEvent)
    requires EventJoined(b0, b1, keys, event) && e in Events(b1, k)
    ensures e == event || e in Events(b0, k)
  {
    assert Grown(Events(b0, k), Events(b1, k), event, Charged(keys, k));
  }

  lemma StampedNumber(log: seq<Attempt>, buckets: map<BucketKey, seq<AttemptEvent>>, p: Policy, k: BucketKey,
          e: AttemptEvent)
    requires Stamped(log, buckets, p) && e in Events(buckets, k)
    ensures 1 <= e.sequence <= |log| && e.token == log[e.sequence - 1].lease.token
    ensures e.expiresAt == log[e.sequence - 1].lease.startedAt + p.Window()
  {
  }

  lemma AdmitStamped(log: seq<Attempt>, b0: map<BucketKey, seq<AttemptEvent>>, b1: map<BucketKey, seq<AttemptEvent>>,
          lease: Lease, event: AttemptEvent, p: Policy)
    requires Stamped(log, b0, p) && EventJoined(b0, b1, lease.keys, event)
    requires event.token == lease.token && event.sequence == |log| + 1
    requires event.expiresAt == lease.startedAt + p.Window()
    ensures Stamped(Admit(log, lease), b1, p)
  {
    hide EventJoined;
    forall k, e | e in Events(b1, k) ensures e == event || e in Events(b0, k) {
      EventOrOld(b0, b1, lease.keys, event, k, e);
    }
  }

  lemma PrefixStep(all: seq<BucketKey>, i: nat)
    requires i < |all|
    ensures all[..i + 1] == all[..i] + [all[i]] && Elements(all[..i + 1]) == Elements(all[..i]) + {all[i]}
  {
    assert all[..i + 1] == all[..i] + [all[i]];
  }

  lemma KeysHaveRoom(log: seq<Attempt>, keys: seq<BucketKey>, p: Policy, now: real)
    requires p.Valid() && RetryAfter(log, keys, p, now) == 0
    ensures |LiveKeys(log, p, now) + Elements(keys)| <= p.maxTrackedKeys
  {
  }

  lemma ScopeHasRoom(log: seq<Attempt>, keys: ScopeKeys, s: Scope, buckets: map<BucketKey, seq<AttemptEvent>>,
          p: Policy, now: real)
    requires p.Valid() && RetryAfter(log, keys.All(), p, now) == 0
    requires LogOk(log, now) && Represents(log, IndexOf(buckets), p, now) && Stamped(log, buckets, p)
    requires NoneDue(Events(buckets, keys.Key(s)), now)
    ensures |Events(buckets, keys.Key(s))| < p.Limit(s)
  {
    hide Represents, LogOk, Stamped, Live, LiveKeys, ScopesRetry;
    var key := keys.Key(s);
    AllCharged(keys, key);
    RetryNonNegative(log, keys.All(), p, now);
    ScopesRetryBounds(log, keys.All(), p, now, key);
    CurrentIsLive(log, buckets, p, now, now, key);
    LiveElements(log, key, p, now);
    var live := Live(log, key, p, now);
    assert |live| == |Events(buckets, key)|;
    assert live != [] ==> live[0] in live;
  }

  lemma NoScopesYet(log: seq<Attempt>, keys: seq<BucketKey>, tracked: set<BucketKey>, p: Policy, now: real)
    ensures ScopesRetry(log, keys[..0], p, now) == 0 && |Elements(keys[..0]) - tracked| == 0
  {
    assert Elements(keys[..0]) == {};
  }

  lemma RetryAfterOfScopes(log: seq<Attempt>, keys: seq<BucketKey>, tracked: set<BucketKey>, p: Policy, now: real)
    requires tracked == LiveKeys(log, p, now)
    ensures
      var scopes := ScopesRetry(log, keys[..|keys|], p, now);
      RetryAfter(log, keys, p, now) ==
        if |tracked| + |Elements(keys[..|keys|]) - tracked| > p.maxTrackedKeys
        then Max(scopes, p.windowSeconds) else scopes
  {
    assert keys[..|keys|] == keys;
    assert tracked + Elements(keys) == tracked + (Elements(keys) - tracked);
  }

  ghost predicate WithinLimits(buckets: map<BucketKey, seq<AttemptEvent>>, p: Policy) {
    |buckets| <= p.maxTrackedKeys && forall k :: k in buckets ==> |buckets[k]| <= p.Limit(k.scope)
  }

  class LoginRateLimiter {
    const policy: Policy
    const expirations: IndexedExpiryHeap
    var buckets: map<BucketKey, seq<AttemptEvent>>
    var nextSequence: int
    ghost var log: seq<Attempt>
    ghost var admitted: seq<AttemptEvent>
    ghost var lastNow: real

    // The heap holds the last expiry of exactly the tracked keys.
    ghost predicate Coherent()
      reads this`buckets, expirations
    {
      && expirations.Valid()
      && (forall k :: k in buckets ==> buckets[k] != [])
      && expirations.Contents() == LastExpiries(buckets)
    }

    // The events in the buckets are the admitted ones, in the state the log gives them.
    ghost predicate Linked()
      reads this`buckets, this`nextSequence, this`log, this`admitted, this`lastNow, admitted
    {
      && |admitted| == |log| && nextSequence == |log| + 1
      && (forall i :: 0 <= i < |admitted| ==> admitted[i].sequence == i + 1)
      && Stamped(log, buckets, policy)
      && InState(log, admitted, buckets, policy, lastNow)
    }

    ghost predicate Bounded()
      reads this`buckets
    {
      WithinLimits(buckets, policy)
    }

    ghost predicate Valid()
      reads this, expirations, admitted
    {
      && policy.Valid() && Coherent() && Linked() && Bounded()
      && LogOk(log, lastNow)
      && Represents(log, IndexOf(buckets), policy, lastNow)
    }

    constructor (policy: Policy)
      requires policy.Valid()
      ensures Valid() && log == [] && admitted == [] && lastNow == 0.0 && this.policy == policy
      ensures fresh(expirations)
    {
      this.policy := policy;
      this.expirations := new IndexedExpiryHeap();
      buckets := map[];
      nextSequence := 1;
      log, admitted, lastNow := [], [], 0.0;
      new;
      assert IndexOf(buckets) == map[] && LastExpiries(buckets) == map[];
    }

    // What purging keeps, for the heap-level part of the invariant.
    twostate lemma PurgeKeepsValid(now: real)
      requires old(Valid()) && old(lastNow) <= now == lastNow
      requires log == old(log) && admitted == old(admitted) && nextSequence == old(nextSequence) && unchanged(admitted)
      requires Coherent() && Purged(old(buckets), buckets, now)
      ensures Valid()
    {
      hide Represents, LogOk, Stamped, Coherent, Faithful, Complete;
      PurgedRepresents(log, old(buckets), buckets, policy, old(lastNow), now);
      forall k | k in buckets ensures k in old(buckets) && |buckets[k]| <= policy.Limit(k.scope) {
        assert PurgedEvents(Events(old(buckets), k), Events(buckets, k), now);
      }
      SubsetSize(buckets.Keys, old(buckets).Keys);
    }

    method ExpireDue(now: real)
      requires Valid() && lastNow <= now
      modifies this`buckets, this`lastNow, expirations
      ensures Valid() && lastNow == now
      ensures Fresh(buckets, now) && buckets.Keys == LiveKeys(log, policy, now)
    {
      PopDueBuckets(now);
      WholeBucketsPurged(log, old(buckets), buckets, policy, lastNow, now);
      lastNow := now;
      PurgeKeepsValid(now);
      TrackedAreLive(log, buckets, policy, now);
    }

    // The loop of ExpireDue, for any coherent buckets.
    method PopDueBuckets(now: real)
      requires Coherent()
      modifies this`buckets, expirations
      ensures Coherent()
      ensures forall k :: k in buckets ==>
          k in old(buckets) && buckets[k] == old(buckets)[k] && LastExpiry(buckets[k]) > now
      ensures forall k :: k in old(buckets) && k !in buckets ==> LastExpiry(old(buckets)[k]) <= now
    {
      while true
        invariant Coherent()
        invariant forall k :: k in buckets ==> k in old(buckets) && buckets[k] == old(buckets)[k]
        invariant forall k :: k in old(buckets) && k !in buckets ==> LastExpiry(old(buckets)[k]) <= now
        decreases |buckets|
      {
        var earliest := expirations.Peek();
        if earliest.None? || earliest.value.expiresAt > now {
          forall k | k in buckets ensures LastExpiry(buckets[k]) > now {
            assert k in LastExpiries(buckets) && k in expirations.Contents();
          }
          return;
        }
        var expired := expirations.PopMin();
        var key := expired.value.key;
        assert key in LastExpiries(buckets) && LastExpiry(buckets[key]) <= now;
        ExpiriesWithout(buckets, key);
        buckets := buckets - {key};
      }
    }

    method DropBucket(key: BucketKey)
      requires Coherent()
      modifies this`buckets, expirations
      ensures Coherent() && buckets == old(buckets) - {key}
    {
      ExpiriesWithout(buckets, key);
      buckets := buckets - {key};
      expirations.Remove(key);
    }

    method CurrentEvents(key: BucketKey, now: real) returns (events: seq<AttemptEvent>)
      requires Valid() && lastNow <= now
      modifies this`buckets, this`lastNow, expirations
      ensures Valid() && lastNow == now
      ensures events == DropDue(Events(old(buckets), key), now) && buckets == WithEvents(old(buckets), key, events)
      ensures IsLive(log, events, key, policy, now) && NoneDue(events, now)
      ensures Fresh(old(buckets), now) ==> Fresh(buckets, now) && buckets.Keys == old(buckets).Keys
    {
      hide Represents, Stamped, LogOk, LiveKeys, Live, ScopeRetry, Bounded, DropDue, Purged, NoneDue;
      CurrentIsLive(log, buckets, policy, lastNow, now, key);
      DropDueStops(Events(buckets, key), now);
      OneBucketPurged(log, buckets, policy, lastNow, now, key);
      if Fresh(buckets, now) {
        FreshStaysTracked(buckets, key, now);
      }
      events := PopDueEvents(key, now);
      lastNow := now;
      PurgeKeepsValid(now);
    }

    // The loop of CurrentEvents, for any coherent buckets.
    method PopDueEvents(key: BucketKey, now: real) returns (events: seq<AttemptEvent>)
      requires Coherent()
      modifies this`buckets, expirations
      ensures Coherent() && events == DropDue(Events(old(buckets), key), now)
      ensures buckets == WithEvents(old(buckets), key, events)
    {
      if key !in buckets {
        return [];
      }
      events := buckets[key];
      while events != [] && events[0].expiresAt <= now
        invariant DropDue(events, now) == DropDue(buckets[key], now)
        invariant events != [] ==> LastExpiry(events) == LastExpiry(buckets[key])
      {
        events := events[1..];
      }
      if events == [] {
        DropBucket(key);
        return;
      }
      ExpiriesWith(buckets, key, events);
      assert LastExpiries(buckets)[key := LastExpiry(events)] == LastExpiries(buckets);
      buckets := buckets[key := events];
    }

    method AppendEvent(key: BucketKey, event: AttemptEvent) returns (outcome: AppendOutcome)
      requires policy.Valid() && Coherent()
      modifies this`buckets, expirations
      ensures outcome == CapacityFailed <==> key !in old(buckets) && |old(buckets)| >= policy.maxTrackedKeys
      ensures outcome == BudgetFailed <==> |Events(old(buckets), key)| >= policy.Limit(key.scope)
      ensures outcome == Appended ==> Coherent() && buckets == old(buckets)[key := Events(old(buckets), key) + [event]]
      ensures outcome != Appended ==> buckets == old(buckets)
    {
      if key !in buckets && |buckets| >= policy.maxTrackedKeys {
        return CapacityFailed;
      }
      var events := Events(buckets, key);
      if |events| >= policy.Limit(key.scope) {
        return BudgetFailed;
      }
      ExpiriesWith(buckets, key, events + [event]);
      buckets := buckets[key := events + [event]];
      expirations.Set(key, event.expiresAt);
      outcome := Appended;
    }

    // The list comprehension of FilterBucket.
    method Retain(events: seq<AttemptEvent>, c: Clearance, scope: Scope) returns (retained: seq<AttemptEvent>)
      ensures retained == Retained(events, c, scope)
    {
      retained := [];
      for j := 0 to |events|
        invariant retained == Retained(events[..j], c, scope)
      {
        assert events[..j + 1][..j] == events[..j];
        if !Removes(c, scope, events[j].token, events[j].sequence, events[j].state) {
          retained := retained + [events[j]];
        }
      }
      assert events[..|events|] == events;
    }

    method FilterBucket(c: Clearance, scope: Scope)
      requires Coherent()
      modifies this`buckets, expirations
      ensures Coherent()
      ensures forall k :: Events(buckets, k) ==
                var b := Events(old(buckets), k); if k == c.Key(scope) then Retained(b, c, scope) else b
    {
      hide Coherent, Retained;
      var key := c.Key(scope);
      if key !in buckets {
        NothingRetained(c, scope);
        return;
      }
      var retained := Retain(buckets[key], c, scope);
      if retained == [] {
        DropBucket(key);
        return;
      }
      PutBucket(key, retained);
    }

    // A nonempty bucket and its last expiry.
    method PutBucket(key: BucketKey, events: seq<AttemptEvent>)
      requires Coherent() && events != []
      modifies this`buckets, expirations
      ensures Coherent() && buckets == old(buckets)[key := events]
    {
      ExpiriesWith(buckets, key, events);
      buckets := buckets[key := events];
      expirations.Set(key, events[|events| - 1].expiresAt);
    }
 
    // One turn of the loop in RetryAfterFor: whether the key is tracked, and its wait.
    method ScopeRetryAfter(key: BucketKey, now: real) returns (tracked: bool, wait: int)
      requires Valid() && lastNow <= now && Fresh(buckets, now)
      modifies this`buckets, this`lastNow, expirations
      ensures Valid() && lastNow == now && Fresh(buckets, now)
      ensures buckets.Keys == old(buckets.Keys) && (tracked <==> key in buckets)
      ensures NoneDue(Events(buckets, key), now)
      ensures forall k :: NoneDue(Events(old(buckets), k), now) ==> NoneDue(Events(buckets, k), now)
      ensures wait == ScopeRetry(log, key, policy, now)
    {
      hide Represents, Stamped, Coherent, LogOk, LiveKeys, Live, ScopeRetry, IsLive, Bounded, DropDue;
      var events := CurrentEvents(key, now);
      ScopeRetryOfEvents(log, buckets, key, policy, now);
      tracked := events != [];
      wait := if tracked && |events| >= policy.Limit(key.scope) then Max(Ceil(events[0].expiresAt - now), 1) else 0;
    }

    method RetryAfterFor(keys: seq<BucketKey>, now: real) returns (retryAfter: int)
      requires Valid() && lastNow <= now
      requires forall i, j :: 0 <= i < j < |keys| ==> keys[i] != keys[j]
      modifies this`buckets, this`lastNow, expirations
      ensures Valid() && lastNow == now
      ensures retryAfter == RetryAfter(log, keys, policy, now)
      ensures buckets.Keys == LiveKeys(log, policy, now)
      ensures forall j :: 0 <= j < |keys| ==> NoneDue(Events(buckets, keys[j]), now)
    {
      hide Represents, Linked, Coherent, LogOk, LiveKeys, ScopeRetry, Bounded, NoneDue, Fresh, Events;
      hide Elements, ScopesRetry, RetryAfter, Valid;
      ExpireDue(now);
      NoScopesYet(log, keys, buckets.Keys, policy, now);
      retryAfter := 0;
      var missing := 0;
      for i := 0 to |keys|
        invariant Valid() && lastNow == now
        invariant Fresh(buckets, now) && buckets.Keys == LiveKeys(log, policy, now)
        invariant retryAfter == ScopesRetry(log, keys[..i], policy, now)
        invariant missing == |Elements(keys[..i]) - buckets.Keys|
        invariant forall j :: 0 <= j < i ==> NoneDue(Events(buckets, keys[j]), now)
      {
        MissingStep(keys, i, buckets.Keys);
        ScopesRetryStep(log, keys, i, policy, now);
        var tracked, wait := ScopeRetryAfter(keys[i], now);
        if !tracked {
          missing := missing + 1;
        }
        retryAfter := Max(retryAfter, wait);
      }
      RetryAfterOfScopes(log, keys, buckets.Keys, policy, now);
      if |buckets| + missing > policy.maxTrackedKeys {
        retryAfter := Max(retryAfter, policy.windowSeconds);
      }
    }
 
    // The appends of BeginAttempt: with room for every key they all succeed.
    method AppendToAll(keys: seq<BucketKey>, event: AttemptEvent) returns (reserved: bool)
      requires policy.Valid() && Coherent()
      requires |buckets.Keys + Elements(keys)| <= policy.maxTrackedKeys
      requires forall i :: 0 <= i < |keys| ==> HasRoom(keys[..i], buckets, keys[i], policy)
      modifies this`buckets, expirations
      ensures reserved && Coherent()
      ensures buckets.Keys == old(buckets.Keys) + Elements(keys)
      ensures forall k :: Grown(Events(old(buckets), k), Events(buckets, k), event, k in keys)
    {
      hide Coherent, Grown, Elements, Events, HasRoom;
      GrownStart(buckets, keys, event);
      for i := 0 to |keys|
        invariant Coherent()
        invariant buckets.Keys == old(buckets.Keys) + Elements(keys[..i])
        invariant forall k :: Grown(Events(old(buckets), k), Events(buckets, k), event, k in keys[..i])
      {
        assert HasRoom(keys[..i], old(buckets), keys[i], policy);
        RoomStays(old(buckets), buckets, keys, i, event, policy);
        ghost var before := buckets;
        var outcome := AppendEvent(keys[i], event);
        if outcome != Appended {
          return false;
        }
        GrownStep(old(buckets), before, buckets, keys[..i], keys[i], event);
        PrefixStep(keys, i);
      }
      assert keys[..|keys|] == keys;
      reserved := true;
    }

    twostate lemma AdmitKeepsBounded(keys: ScopeKeys, new event: AttemptEvent)
      requires old(Bounded()) && |buckets| <= policy.maxTrackedKeys
      requires forall s :: |Events(old(buckets), keys.Key(s))| < policy.Limit(s)
      requires EventJoined(old(buckets), buckets, keys, event)
      ensures Bounded()
    {
      forall k | k in buckets ensures |buckets[k]| <= policy.Limit(k.scope) {
        assert Grown(Events(old(buckets), k), Events(buckets, k), event, Charged(keys, k));
        assert Charged(keys, k) ==> |Events(old(buckets), keys.Key(k.scope))| < policy.Limit(k.scope);
      }
    }

    twostate lemma AdmitKeepsLinked(lease: Lease, new event: AttemptEvent)
      requires old(Linked()) && unchanged(old(admitted)) && lastNow == old(lastNow)
      requires event.token == lease.token && event.sequence == |old(log)| + 1
      requires event.expiresAt == lease.startedAt + policy.Window() && event.state == Pending
      requires log == Admit(old(log), lease) && admitted == old(admitted) + [event] &&
          nextSequence == old(nextSequence) + 1
      requires EventJoined(old(buckets), buckets, lease.keys, event)
      ensures Linked()
    {
      hide EventJoined, Stamped;
      AdmitStamped(old(log), old(buckets), buckets, lease, event, policy);
      forall k, e | e in Events(buckets, k)
        ensures 1 <= e.sequence <= |admitted| && admitted[e.sequence - 1] == e
        ensures Unexpired(log[e.sequence - 1], policy, lastNow) ==> e.state == log[e.sequence - 1].state
      {
        EventOrOld(old(buckets), buckets, lease.keys, event, k, e);
        if e != event {
          StampedNumber(old(log), old(buckets), policy, k, e);
          assert e == old(admitted)[e.sequence - 1];
        }
      }
    }

    lemma TrackedNonempty()
      requires Coherent()
      ensures forall k :: k in buckets ==> buckets[k] != []
      ensures forall k :: k in IndexOf(buckets) ==> IndexOf(buckets)[k] != []
    {
    }

    lemma LinkedNumbers()
      requires Linked()
      ensures |admitted| == |log| && nextSequence == |log| + 1 && Stamped(log, buckets, policy)
    {
    }

    // The second half of BeginAttempt, once the check found room.
    method Charge(keys: ScopeKeys, now: real, secret: string) returns (decision: Decision)
      requires Valid() && lastNow == now
      requires |buckets.Keys + Elements(keys.All())| <= policy.maxTrackedKeys
      requires forall s :: |Events(buckets, keys.Key(s))| < policy.Limit(s)
      modifies this, expirations
      ensures Valid() && lastNow == now
      ensures
        var sequence := |old(log)| + 1;
        var lease := Lease(Token(sequence, secret), sequence, keys, now);
        decision == Admitted(lease) && log == Admit(old(log), lease)
      ensures exists e: AttemptEvent :: fresh(e) && admitted == old(admitted) + [e]
    {
      hide Represents, LogOk, Coherent, EventJoined, Linked, Grown, HasRoom, Elements, Bounded, Stamped, Joined,
          Events, IndexOf;
      var sequence := nextSequence;
      LinkedNumbers();
      nextSequence := nextSequence + 1;
      var lease := Lease(Token(sequence, secret), sequence, keys, now);
      var event := new AttemptEvent(lease.token, sequence, now, now + policy.Window());
      KeysAreRoomy(keys, buckets, policy);
      var reserved := AppendToAll(keys.All(), event);
      if !reserved {
        return ReservationFailed;
      }
      GrownForAll(old(buckets), buckets, keys, event);
      log, admitted := Admit(log, lease), admitted + [event];
      AdmitKeepsLinked(lease, event);
      AdmitKeepsBounded(lease.keys, event);
      AppendedJoins(old(buckets), buckets, lease, event);
      TrackedNonempty();
      AdmitRepresents(old(log), IndexOf(old(buckets)), IndexOf(buckets), lease, policy, now);
      decision := Admitted(lease);
    }

    method BeginAttempt(usernameKey: string, ipKey: string, now: real, secret: string) returns (decision: Decision)
      requires Valid() && lastNow <= now
      modifies this, expirations
      ensures Valid() && lastNow == now
      ensures
        var keys := KeysOf(usernameKey, ipKey);
        var retryAfter := old(RetryAfter(log, keys.All(), policy, now));
        if retryAfter > 0 then decision == Blocked(retryAfter) && log == old(log)
        else
          var sequence := |old(log)| + 1;
          var lease := Lease(Token(sequence, secret), sequence, keys, now);
          decision == Admitted(lease) && log == Admit(old(log), lease)
      ensures
        decision.Admitted?
        <==> HasBudget(old(log), usernameKey, ipKey, policy, now) && Fits(old(log), usernameKey, ipKey, policy, now)
      ensures
        if decision.Blocked? then admitted == old(admitted)
        else exists e: AttemptEvent :: fresh(e) && admitted == old(admitted) + [e]
    {
      hide Represents, LogOk, Stamped, Coherent, RetryAfter, LiveKeys, NoneDue, EventJoined, Linked, Bounded;
      hide HasBudget, Fits;
      AdmittedIff(log, usernameKey, ipKey, policy, now);
      var keys := KeysOf(usernameKey, ipKey);
      var retryAfter := RetryAfterFor(keys.All(), now);
      RetryNonNegative(log, keys.All(), policy, now);
      if retryAfter > 0 {
        return Blocked(retryAfter);
      }
      LinkedNumbers();
      KeysHaveRoom(log, keys.All(), policy, now);
      forall s ensures |Events(buckets, keys.Key(s))| < policy.Limit(s) {
        assert keys.Key(s) == keys.All()[match s case Pair => 0 case Username => 1 case Ip => 2];
        ScopeHasRoom(log, keys, s, buckets, policy, now);
      }
      decision := Charge(keys, now, secret);
    }
 
    predicate Matches(e: AttemptEvent, lease: Lease) {
      e.token == lease.token && e.sequence == lease.sequence
    }

    method FindLeaseEvent(lease: Lease) returns (found: AttemptEvent?)
      ensures found == null ==>
                forall s, e :: e in Events(buckets, lease.keys.Key(s)) ==> !Matches(e, lease)
      ensures found != null ==>
                Matches(found, lease) && exists s :: found in Events(buckets, lease.keys.Key(s))
    {
      var scopes := [Pair, Username, Ip];
      for i := 0 to |scopes|
        invariant forall h, e :: 0 <= h < i && e in Events(buckets, lease.keys.Key(scopes[h])) ==> !Matches(e, lease)
      {
        var events := Events(buckets, lease.keys.Key(scopes[i]));
        for j := 0 to |events|
          invariant forall h :: 0 <= h < j ==> !Matches(events[h], lease)
        {
          if Matches(events[j], lease) {
            assert events[j] in Events(buckets, lease.keys.Key(scopes[i]));
            return events[j];
          }
        }
      }
      found := null;
      forall s, e | e in Events(buckets, lease.keys.Key(s)) ensures !Matches(e, lease) {
        assert s == scopes[match s case Pair => 0 case Username => 1 case Ip => 2];
      }
    }

    // An event found is the admitted one; while it counts, it is pending if the lease is open.
    lemma FoundIsLogged(lease: Lease, found: AttemptEvent)
      requires Valid() && Matches(found, lease)
      requires exists s :: found in Events(buckets, lease.keys.Key(s))
      ensures |admitted| == |log| && 1 <= lease.sequence <= |log| && found == admitted[lease.sequence - 1]
      ensures log[lease.sequence - 1].lease.token == lease.token
      ensures Open(log, lease, policy, lastNow) ==> found.state == Pending
      ensures found.state == Pending && Unexpired(log[lease.sequence - 1], policy, lastNow) ==>
                Open(log, lease, policy, lastNow)
    {
      hide Represents, LogOk, Stamped, Coherent, WithinLimits, InState;
      var s :| found in Events(buckets, lease.keys.Key(s));
      InStateAt(log, admitted, buckets, lease.keys.Key(s), found, policy, lastNow);
      StampedNumber(log, buckets, policy, lease.keys.Key(s), found);
      EventCounts(lease.keys.Key(s), found);
      assert Unexpired(log[lease.sequence - 1], policy, lastNow) ==>
          CountsFor(log[lease.sequence - 1], lease.keys.Key(s), policy, lastNow);
    }

    lemma EventCounts(k: BucketKey, e: AttemptEvent)
      requires Valid() && e in Events(buckets, k)
      ensures 1 <= e.sequence <= |log| && log[e.sequence - 1].lease.keys.Key(k.scope) == k
      ensures Unexpired(log[e.sequence - 1], policy, lastNow) ==> k.scope !in log[e.sequence - 1].cleared
    {
      HoldsEvent(buckets, k, e.sequence - 1);
      FaithfulAt(log, IndexOf(buckets), policy, lastNow, k, e.sequence - 1);
    }

    // The buckets of an open lease hold its event.
    lemma OpenIsHeld(lease: Lease)
      requires Valid() && Open(log, lease, policy, lastNow)
      ensures exists s, e :: e in Events(buckets, lease.keys.Key(s)) && Matches(e, lease)
    {
      hide LogOk, Stamped, Coherent, WithinLimits, InState, Holds;
      var own := lease.sequence - 1;
      var s :| CountsFor(log[own], lease.keys.Key(s), policy, lastNow);
      assert Holds(IndexOf(buckets), log[own].lease.keys.Key(s), own);
      HoldsEvent(buckets, lease.keys.Key(s), own);
      var e :| e in Events(buckets, lease.keys.Key(s)) && e.sequence - 1 == own;
      StampedNumber(log, buckets, policy, lease.keys.Key(s), e);
      assert Matches(e, lease);
    }

    lemma MissedIsNotOpen(lease: Lease)
      requires Valid()
      requires forall s, e :: e in Events(buckets, lease.keys.Key(s)) ==> !Matches(e, lease)
      ensures !Open(log, lease, policy, lastNow)
    {
      if Open(log, lease, policy, lastNow) {
        OpenIsHeld(lease);
      }
    }

    method FinalizeFailure(lease: Lease)
      requires Valid()
      modifies this`log, admitted
      ensures Valid() && log == Fail(old(log), lease, policy, lastNow)
    {
      hide Represents, LogOk, Stamped, Coherent, Bounded, Faithful, Open, InState, InStateBut;
      FailRepresents(log, IndexOf(buckets), lease, policy, lastNow);
      FailKeepsStamped(log, buckets, lease, policy, lastNow);
      InStateBare(log, admitted, buckets, lease.sequence, policy, lastNow);
      var found := FindLeaseEvent(lease);
      if found == null {
        MissedIsNotOpen(lease);
      } else {
        FoundIsLogged(lease, found);
      }
      if found != null && found.state == Pending {
        MarkFailed(found);
        FailKeepsInState(log, admitted, buckets, lease, found, policy, lastNow);
        log := Fail(log, lease, policy, lastNow);
      }
    }

    // The filters of a clearance, one per budget; a reset leaves the address budget alone.
    method FilterBuckets(c: Clearance)
      requires Coherent()
      modifies this`buckets, expirations
      ensures Coherent()
      ensures forall k :: Events(buckets, k) == Filtered(Events(old(buckets), k), c, k)
    {
      hide Coherent, Retained;
      FilterBucket(c, Pair);
      FilterBucket(c, Username);
      if !c.ByReset? {
        FilterBucket(c, Ip);
      }
    }

    method ClearBuckets(c: Clearance)
      requires Valid()
      requires c.ByReset? || Open(log, c.lease, policy, lastNow) || ClearsNothing(log, c, policy, lastNow)
      modifies this`buckets, this`log, expirations
      ensures Valid() && log == ClearIfOpen(old(log), c, policy, lastNow)
    {
      hide Represents, LogOk, Stamped, Coherent, WithinLimits, Faithful, InState, Cleared, Filtered, Clear, Open;
      FilterBuckets(c);
      TrackedNonempty();
      FilteredCleared(log, admitted, old(buckets), buckets, c, policy, lastNow);
      FilterKeepsLinked(log, admitted, old(buckets), buckets, c, policy, lastNow);
      FilterKeepsLimits(old(buckets), buckets, c, policy);
      if c.ByReset? || Open(log, c.lease, policy, lastNow) {
        ClearRepresents(log, IndexOf(old(buckets)), IndexOf(buckets), c, policy, lastNow);
        ClearKeepsLinked(log, admitted, buckets, c, policy, lastNow);
        log := Clear(log, c);
      } else {
        ClearNothingRepresents(log, IndexOf(old(buckets)), IndexOf(buckets), c, policy, lastNow);
      }
    }

    method FinalizeSuccess(lease: Lease)
      requires Valid()
      modifies this`buckets, this`log, expirations
      ensures Valid() && log == ClearIfOpen(old(log), BySuccess(lease), policy, lastNow)
    {
      Conclude(BySuccess(lease));
    }

    method Cancel(lease: Lease)
      requires Valid()
      modifies this`buckets, this`log, expirations
      ensures Valid() && log == ClearIfOpen(old(log), ByCancel(lease), policy, lastNow)
    {
      Conclude(ByCancel(lease));
    }

    // The common shape of FinalizeSuccess and Cancel.
    method Conclude(c: Clearance)
      requires Valid() && !c.ByReset?
      modifies this`buckets, this`log, expirations
      ensures Valid() && log == ClearIfOpen(old(log), c, policy, lastNow)
    {
      hide Represents, LogOk, Stamped, Coherent, Bounded, Faithful, InState, Clear, Open, ClearsNothing;
      var found := FindLeaseEvent(c.lease);
      if found == null {
        MissedIsNotOpen(c.lease);
        return;
      }
      FoundIsLogged(c.lease, found);
      if found.state != Pending {
        return;
      }
      if !Unexpired(log[c.lease.sequence - 1], policy, lastNow) {
        ExpiredClearsNothing(log, c, policy, lastNow);
      }
      ClearBuckets(c);
    }

    // clear(): the failures of a user name and of the pair are forgotten.
    method Reset(usernameKey: string, ipKey: string)
      requires Valid()
      modifies this`buckets, this`log, expirations
      ensures Valid() && log == Clear(old(log), ByReset(KeysOf(usernameKey, ipKey)))
    {
      hide Clear;
      ClearBuckets(ByReset(KeysOf(usernameKey, ipKey)));
    }

    method TrackedKeyCount(now: real) returns (count: nat)
      requires Valid() && lastNow <= now
      modifies this`buckets, this`lastNow, expirations
      ensures Valid() && lastNow == now
      ensures count == |LiveKeys(log, policy, now)| <= policy.maxTrackedKeys
    {
      ExpireDue(now);
      count := |buckets|;
    }

    // What an attempt would be answered now.
    method RetryAfterNow(usernameKey: string, ipKey: string, now: real) returns (retryAfter: int)
      requires Valid() && lastNow <= now
      modifies this`buckets, this`lastNow, expirations
      ensures Valid() && lastNow == now
      ensures retryAfter == RetryAfter(log, KeysOf(usernameKey, ipKey).All(), policy, now)
    {
      retryAfter := RetryAfterFor(KeysOf(usernameKey, ipKey).All(), now);
    }

    // One call, answered at the given time; every event admitted is a new object.
    method Serve(call: Call, now: real) returns (answer: Answer)
      requires Valid() && now == lastNow + call.Elapsed()
      modifies this, expirations, admitted
      ensures Valid() && lastNow == now
      ensures Account(log, lastNow) == After(policy, Account(old(log), old(lastNow)), call)
      ensures answer == AnswerOf(policy, Account(old(log), old(lastNow)), call)
      ensures fresh(set e | e in admitted && e !in old(admitted))
    {
      hide Represents, LogOk, Coherent, Linked, Bounded, RetryAfter, LiveKeys, Open, Clear, Fail, ClearIfOpen;
      hide Valid, HasBudget, Fits;
      answer := Done;
      match call {
        case Begin(user, ip, _, secret) =>
          var decision := BeginAttempt(user, ip, now, secret);
          answer := Decided(decision);
        case Ask(user, ip, _) =>
          var retryAfter := RetryAfterNow(user, ip, now);
          answer := Wait(retryAfter);
        case Count(_) =>
          var keys := TrackedKeyCount(now);
          answer := Counted(keys);
        case Failure(lease) => FinalizeFailure(lease);
        case Success(lease) => FinalizeSuccess(lease);
        case Cancellation(lease) => Cancel(lease);
        case Forget(user, ip) => Reset(user, ip);
      }
    }

    // Waiting as long as a blocked caller is told is enough, if nothing else happens.
    lemma BlockedCallerIsAdmittedLater(keys: ScopeKeys, now: real, later: real)
      requires Valid() && lastNow <= now
      requires later >= now + RetryAfter(log, keys.All(), policy, now) as real
      ensures RetryAfter(log, keys.All(), policy, later) == 0
    {
      hide RetryAfter, Represents, LogOk, Stamped, Coherent, InState;
      forall key ensures |Live(log, key, policy, now)| <= policy.Limit(key.scope) {
        CurrentIsLive(log, buckets, policy, lastNow, now, key);
        EventsOrdered(log, buckets, policy, lastNow, key);
        DropDueElements(Events(buckets, key), now);
      }
      PurgedSelf(log, buckets, policy, lastNow, now);
      RetryAfterSuffices(log, keys.All(), policy, now, later);
    }

    method MarkFailed(found: AttemptEvent)
      requires InStateBut(log, admitted, buckets, found.sequence, policy, lastNow)
      requires 1 <= found.sequence <= |admitted| && found == admitted[found.sequence - 1]
      modifies found
      ensures InStateBut(log, admitted, buckets, found.sequence, policy, lastNow)
      ensures found.state == Failed
    {
      found.state := Failed;
    }
  }

  // The constructor on any numbers; null stands for its ValueErrors.
  method NewLimiter(pairMax: int, usernameMax: int, ipMax: int, windowSeconds: int, maxTrackedKeys: int)
      returns (limiter: LoginRateLimiter?)
    ensures limiter == null
        <==> pairMax <= 0 || usernameMax <= 0 || ipMax <= 0 || windowSeconds <= 0 || maxTrackedKeys < 3
    ensures
      limiter != null ==>
      && fresh(limiter) && limiter.Valid() && limiter.log == []
      && limiter.policy.pairMax == pairMax && limiter.policy.usernameMax == usernameMax && limiter.policy.ipMax == ipMax
      && limiter.policy.windowSeconds == windowSeconds && limiter.policy.maxTrackedKeys == maxTrackedKeys
  {
    if pairMax <= 0 || usernameMax <= 0 || ipMax <= 0 || windowSeconds <= 0 || maxTrackedKeys < 3 {
      return null;
    }
    limiter := new LoginRateLimiter(Policy(pairMax, usernameMax, ipMax, windowSeconds, maxTrackedKeys));
  }

  lemma NoCalls(p: Policy)
    ensures AfterAll(p, []) == Account([], 0.0) && Answers(p, []) == []
  {
  }

  // Any sequence of calls on a new limiter is answered as the log alone answers it.
  method RunCalls(policy: Policy, calls: seq<Call>) returns (limiter: LoginRateLimiter, answers: seq<Answer>)
    requires policy.Valid()
    ensures fresh(limiter) && limiter.Valid() && limiter.policy == policy
    ensures Account(limiter.log, limiter.lastNow) == AfterAll(policy, calls)
    ensures answers == Answers(policy, calls)
  {
    hide *;
    NoCalls(policy);
    limiter := new LoginRateLimiter(policy);
    answers := [];
    var now := 0.0;
    for i := 0 to |calls|
      invariant fresh(limiter) && fresh(limiter.expirations) && fresh(limiter.admitted)
      invariant limiter.Valid() && limiter.policy == policy && limiter.lastNow == now
      invariant Account(limiter.log, limiter.lastNow) == AfterAll(policy, calls[..i])
      invariant answers == Answers(policy, calls[..i])
    {
      var answer := limiter.Serve(calls[i], now + calls[i].Elapsed());
      now := now + calls[i].Elapsed();
      AfterOneMore(policy, calls[..i], calls[i]);
      assert calls[..i + 1] == calls[..i] + [calls[i]];
      answers := answers + [answer];
    }
    assert calls[..|calls|] == calls;
  }

  // InState, but for the state of the event of one number.
  ghost predicate InStateBut(log: seq<Attempt>, admitted: seq<AttemptEvent>,
          buckets: map<BucketKey, seq<AttemptEvent>>, sequence: int, p: Policy, now: real)
    reads admitted
  {
    |admitted| == |log| &&
    forall k, e :: e in Events(buckets, k) ==>
      && 1 <= e.sequence <= |log| && admitted[e.sequence - 1] == e
      && (e.sequence != sequence && Unexpired(log[e.sequence - 1], p, now) ==> e.state == log[e.sequence - 1].state)
  }

  lemma InStateBare(log: seq<Attempt>, admitted: seq<AttemptEvent>, buckets: map<BucketKey, seq<AttemptEvent>>,
          sequence: int, p: Policy, now: real)
    requires InState(log, admitted, buckets, p, now)
    ensures InStateBut(log, admitted, buckets, sequence, p, now)
  {
  }

  // Only the found event changed, and it changed as its log entry does.
  lemma FailKeepsInState(log: seq<Attempt>, admitted: seq<AttemptEvent>, buckets: map<BucketKey, seq<AttemptEvent>>,
          lease: Lease, found: AttemptEvent, p: Policy, now: real)
    requires InStateBut(log, admitted, buckets, lease.sequence, p, now)
    requires 1 <= lease.sequence <= |log| && found == admitted[lease.sequence - 1] && found.state == Failed
    requires Unexpired(log[lease.sequence - 1], p, now) ==> Open(log, lease, p, now)
    ensures InState(Fail(log, lease, p, now), admitted, buckets, p, now)
  {
    var log' := Fail(log, lease, p, now);
    forall k, e | e in Events(buckets, k)
      ensures 1 <= e.sequence <= |log'| && admitted[e.sequence - 1] == e
      ensures Unexpired(log'[e.sequence - 1], p, now) ==> e.state == log'[e.sequence - 1].state
    {
      if e.sequence != lease.sequence {
        assert log'[e.sequence - 1] == log[e.sequence - 1];
      }
    }
  }

  lemma FilterKeepsLimits(b0: map<BucketKey, seq<AttemptEvent>>, b1: map<BucketKey, seq<AttemptEvent>>, c: Clearance,
          p: Policy)
    requires WithinLimits(b0, p)
    requires forall k :: Events(b1, k) == Filtered(Events(b0, k), c, k)
    requires forall k :: k in b1 ==> b1[k] != []
    ensures WithinLimits(b1, p)
  {
    forall k | k in b1 ensures k in b0 && |b1[k]| <= |b0[k]| {
      RetainedElements(Events(b0, k), c, k.scope);
      assert |Events(b1, k)| <= |Events(b0, k)|;
    }
    SubsetSize(b1.Keys, b0.Keys);
  }

  lemma FilteredLinkedAt(log: seq<Attempt>, admitted: seq<AttemptEvent>, b0: map<BucketKey, seq<AttemptEvent>>,
          b1: map<BucketKey, seq<AttemptEvent>>, c: Clearance, p: Policy, now: real, k: BucketKey, e: AttemptEvent)
    requires Stamped(log, b0, p) && InState(log, admitted, b0, p, now)
    requires Events(b1, k) == Filtered(Events(b0, k), c, k) && e in Events(b1, k)
    ensures 1 <= e.sequence <= |log| == |admitted| && e.token == log[e.sequence - 1].lease.token
    ensures e.expiresAt == log[e.sequence - 1].lease.startedAt + p.Window() && admitted[e.sequence - 1] == e
    ensures Unexpired(log[e.sequence - 1], p, now) ==> e.state == log[e.sequence - 1].state
  {
    hide Stamped, InState;
    FilteredAreOld(Events(b0, k), c, k, e);
    StampedNumber(log, b0, p, k, e);
    InStateAt(log, admitted, b0, k, e, p, now);
  }

  lemma FilterKeepsLinked(log: seq<Attempt>, admitted: seq<AttemptEvent>, b0: map<BucketKey, seq<AttemptEvent>>,
          b1: map<BucketKey, seq<AttemptEvent>>, c: Clearance, p: Policy, now: real)
    requires Stamped(log, b0, p) && InState(log, admitted, b0, p, now)
    requires forall k :: Events(b1, k) == Filtered(Events(b0, k), c, k)
    ensures Stamped(log, b1, p) && InState(log, admitted, b1, p, now)
  {
    hide Filtered, Events;
    forall k, e | e in Events(b1, k)
      ensures 1 <= e.sequence <= |log| == |admitted| && e.token == log[e.sequence - 1].lease.token
      ensures e.expiresAt == log[e.sequence - 1].lease.startedAt + p.Window() && admitted[e.sequence - 1] == e
      ensures Unexpired(log[e.sequence - 1], p, now) ==> e.state == log[e.sequence - 1].state
    {
      FilteredLinkedAt(log, admitted, b0, b1, c, p, now, k, e);
    }
    assert |admitted| == |log|;
  }

  lemma FilteredAreOld(events: seq<AttemptEvent>, c: Clearance, k: BucketKey, e: AttemptEvent)
    requires e in Filtered(events, c, k)
    ensures e in events
  {
    RetainedElements(events, c, k.scope);
  }

  lemma ClearKeepsLinked(log: seq<Attempt>, admitted: seq<AttemptEvent>, buckets: map<BucketKey, seq<AttemptEvent>>,
          c: Clearance, p: Policy, now: real)
    requires Stamped(log, buckets, p) && InState(log, admitted, buckets, p, now)
    ensures Stamped(Clear(log, c), buckets, p) && InState(Clear(log, c), admitted, buckets, p, now)
  {
  }

  lemma FailKeepsStamped(log: seq<Attempt>, buckets: map<BucketKey, seq<AttemptEvent>>, lease: Lease, p: Policy,
          now: real)
    requires Stamped(log, buckets, p)
    ensures Stamped(Fail(log, lease, p, now), buckets, p)
  {
  }
}
