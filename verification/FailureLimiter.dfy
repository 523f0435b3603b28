/** The failed-attempt throttle of the API keys, against the plain log of failures. */
module FailureLimiter {
  import opened Wrappers

  const MAP_LIMIT: nat := 10_000

  /** A client address; only compared. */
  type Client(==, !new)

  /** The plain log: the times of every failure of every client, oldest first. */
  type Log = map<Client, seq<int>>

  function TimesOf(log: Log, client: Client): seq<int> {
    if client in log then log[client] else []
  }

  function Logged(log: Log, client: Client, now: int): Log {
    log[client := TimesOf(log, client) + [now]]
  }

  /** How many of the times are at most `window` old. */
  function CountRecent(times: seq<int>, now: int, window: int): nat {
    if times == [] then 0
    else CountRecent(times[..|times| - 1], now, window) + if now - times[|times| - 1] <= window then 1 else 0
  }

  predicate Sorted(times: seq<int>) {
    forall i, j | 0 <= i < j < |times| :: times[i] <= times[j]
  }

  predicate Ordered(times: seq<int>, clock: int) {
    Sorted(times) && forall i | 0 <= i < |times| :: times[i] <= clock
  }

  /** The bucket is what is left of the times after dropping, from the front, only expired ones. */
  predicate IsTail(bucket: seq<int>, times: seq<int>, clock: int, window: int) {
    && |bucket| <= |times|
    && bucket == times[|times| - |bucket|..]
    && forall i | 0 <= i < |times| - |bucket| :: clock - times[i] > window
  }

  function Bucket(failures: map<Client, seq<int>>, client: Client): seq<int> {
    if client in failures then failures[client] else []
  }

  /** Left-trimming: what the popping loop leaves. */
  function Trimmed(bucket: seq<int>, now: int, window: int): seq<int> {
    if bucket != [] && now - bucket[0] > window then Trimmed(bucket[1..], now, window) else bucket
  }

  /** The clients with a failure at most `window` old. */
  function RecentClients(log: Log, now: int, window: int): set<Client> {
    set c | c in log && exists i | 0 <= i < |log[c]| :: now - log[c][i] <= window
  }

  lemma {:induction false} TrimmedIsTail(bucket: seq<int>, times: seq<int>, clock: int, now: int, window: int)
    requires IsTail(bucket, times, clock, window) && Sorted(times) && clock <= now
    ensures IsTail(Trimmed(bucket, now, window), times, now, window)
    ensures Trimmed(bucket, now, window) == [] || now - Trimmed(bucket, now, window)[0] <= window
  {
    if bucket != [] && now - bucket[0] > window {
      var k := |times| - |bucket|;
      assert times[k] == bucket[0] && bucket[1..] == times[k + 1..];
      assert forall i | 0 <= i < k + 1 :: times[i] <= times[k];
      TrimmedIsTail(bucket[1..], times, now, now, window);
    }
  }

  lemma {:induction false} CountFrom(times: seq<int>, k: nat, now: int, window: int)
    requires Sorted(times) && k <= |times|
    requires forall i | 0 <= i < k :: now - times[i] > window
    requires k < |times| ==> now - times[k] <= window
    ensures CountRecent(times, now, window) == |times| - k
  {
    if times != [] {
      var n := |times| - 1;
      if k <= n {
        assert times[k] <= times[n];
        if k == n {
          NoneRecent(times[..n], now, window);
        } else {
          CountFrom(times[..n], k, now, window);
        }
      } else {
        NoneRecent(times, now, window);
      }
    }
  }

  lemma {:induction false} NoneRecent(times: seq<int>, now: int, window: int)
    requires forall i | 0 <= i < |times| :: now - times[i] > window
    ensures CountRecent(times, now, window) == 0
  {
    if times != [] {
      NoneRecent(times[..|times| - 1], now, window);
    }
  }

  /** The length of the trimmed bucket is the number of recent failures in the log. */
  lemma {:induction false} TrimmedCountsRecent(bucket: seq<int>, times: seq<int>, clock: int, now: int, window: int)
    requires IsTail(bucket, times, clock, window) && Sorted(times) && clock <= now
    ensures IsTail(Trimmed(bucket, now, window), times, now, window)
    ensures |Trimmed(bucket, now, window)| == CountRecent(times, now, window)
  {
    TrimmedIsTail(bucket, times, clock, now, window);
    CountFrom(times, |times| - |Trimmed(bucket, now, window)|, now, window);
  }

  lemma {:induction false} CountOnlyFalls(times: seq<int>, clock: int, now: int, window: int)
    requires clock <= now
    ensures CountRecent(times, now, window) <= CountRecent(times, clock, window)
  {
    if times != [] {
      CountOnlyFalls(times[..|times| - 1], clock, now, window);
    }
  }

  /** Everything from a recent entry on is recent. */
  lemma {:induction false} RecentSuffix(times: seq<int>, i: nat, now: int, window: int)
    requires Sorted(times) && i < |times| && now - times[i] <= window
    ensures |times| - i <= CountRecent(times, now, window)
  {
    var n := |times| - 1;
    if i < n {
      RecentSuffix(times[..n], i, now, window);
      assert times[i] <= times[n];
    }
  }

  /** In any stretch of at most `window` there are at most `bound` of the times. */
  predicate AtMostPerWindow(times: seq<int>, window: int, bound: int) {
    forall i, j | 0 <= i <= j < |times| && times[j] - times[i] <= window :: j - i + 1 <= bound
  }

  /** One client's bucket agrees with its log. */
  predicate TailOf(bucket: seq<int>, times: seq<int>, clock: int, window: int) {
    Ordered(times, clock) && IsTail(bucket, times, clock, window)
  }

  /** Every bucket is the unexpired tail of its client's log. */
  ghost predicate Tails(log: Log, failures: map<Client, seq<int>>, clock: int, window: int) {
    forall c {:trigger TailOf(Bucket(failures, c), TimesOf(log, c), clock, window)} ::
      TailOf(Bucket(failures, c), TimesOf(log, c), clock, window)
  }

  lemma {:induction false} TailTrims(bucket: seq<int>, times: seq<int>, clock: int, now: int, window: int)
    requires TailOf(bucket, times, clock, window) && clock <= now
    ensures TailOf(Trimmed(bucket, now, window), times, now, window)
    ensures |Trimmed(bucket, now, window)| == CountRecent(times, now, window)
    ensures |Trimmed(bucket, now, window)| <= |bucket|
  {
    TrimmedCountsRecent(bucket, times, clock, now, window);
    TrimmedIsShorter(bucket, now, window);
  }

  /** Trimming one bucket, and dropping it or not when it is empty, keeps the agreement. */
  lemma {:induction false} TrimKeepsTails(log: Log, before: map<Client, seq<int>>, after: map<Client, seq<int>>,
                                          client: Client, clock: int, now: int, window: int)
    requires Tails(log, before, clock, window) && clock <= now
    requires Bucket(after, client) == Trimmed(Bucket(before, client), now, window)
    requires forall c | c != client :: Bucket(after, c) == Bucket(before, c)
    ensures Tails(log, after, now, window)
  {
    forall c ensures TailOf(Bucket(after, c), TimesOf(log, c), now, window) {
      assert TailOf(Bucket(before, c), TimesOf(log, c), clock, window);
      if c == client { TailTrims(Bucket(before, c), TimesOf(log, c), clock, now, window); }
      else { TailStays(Bucket(before, c), TimesOf(log, c), clock, now, window); }
    }
  }

  lemma {:induction false} TailStays(bucket: seq<int>, times: seq<int>, clock: int, now: int, window: int)
    requires TailOf(bucket, times, clock, window) && clock <= now
    ensures TailOf(bucket, times, now, window)
  {
  }

  lemma {:induction false} TrimmedIsShorter(bucket: seq<int>, now: int, window: int)
    ensures |Trimmed(bucket, now, window)| <= |bucket|
  {
    if bucket != [] { TrimmedIsShorter(bucket[1..], now, window); }
  }

  lemma {:induction false} TailGrows(bucket: seq<int>, times: seq<int>, now: int, window: nat)
    requires TailOf(bucket, times, now, window)
    ensures TailOf(bucket + [now], times + [now], now, window)
  {
  }

  lemma {:induction false} AppendKeepsTails(log: Log, before: map<Client, seq<int>>, client: Client, now: int,
                                            window: nat)
    requires Tails(log, before, now, window)
    ensures Tails(Logged(log, client, now), before[client := Bucket(before, client) + [now]], now, window)
  {
    var log', after := Logged(log, client, now), before[client := Bucket(before, client) + [now]];
    forall c ensures TailOf(Bucket(after, c), TimesOf(log', c), now, window) {
      assert TailOf(Bucket(before, c), TimesOf(log, c), now, window);
      if c == client {
        TailGrows(Bucket(before, c), TimesOf(log, c), now, window);
      } else {
        assert Bucket(after, c) == Bucket(before, c) && TimesOf(log', c) == TimesOf(log, c);
      }
    }
  }

  lemma {:induction false} SubsetSize(a: set<Client>, b: set<Client>)
    requires a <= b
    ensures |a| <= |b|
  {
    if a != {} {
      var x :| x in a;
      SubsetSize(a - {x}, b - {x});
    }
  }

  /** Forgetting the clients without a recent failure loses nothing, and leaves at most the others. */
  lemma {:induction false} EvictionKeepsTails(log: Log, failures: map<Client, seq<int>>, stale: set<Client>, now: int,
                                              window: int)
    requires Tails(log, failures, now, window)
    requires stale == set c | c in failures && (failures[c] == [] || now - failures[c][|failures[c]| - 1] > window)
    ensures Tails(log, failures - stale, now, window)
    ensures |failures - stale| <= |RecentClients(log, now, window)|
  {
    forall c ensures TailOf(Bucket(failures - stale, c), TimesOf(log, c), now, window) {
      assert TailOf(Bucket(failures, c), TimesOf(log, c), now, window);
      if c in stale { StaleIsExpired(failures[c], TimesOf(log, c), now, window); }
    }
    var kept := (failures - stale).Keys;
    forall c | c in kept ensures c in RecentClients(log, now, window) {
      var times, bucket := TimesOf(log, c), failures[c];
      assert TailOf(Bucket(failures, c), times, now, window);
      assert bucket[|bucket| - 1] == times[|times| - 1];
    }
    SubsetSize(kept, RecentClients(log, now, window));
    assert |failures - stale| == |kept|;
  }

  lemma {:induction false} StaleIsExpired(bucket: seq<int>, times: seq<int>, now: int, window: int)
    requires TailOf(bucket, times, now, window)
    requires bucket == [] || now - bucket[|bucket| - 1] > window
    ensures TailOf([], times, now, window)
  {
    var n := |times| - 1;
    if bucket != [] { assert bucket[|bucket| - 1] == times[n]; }
    forall i | 0 <= i < |times| ensures now - times[i] > window {
      assert times[i] <= times[n];
    }
  }

  lemma {:induction false} AppendCap(times: seq<int>, now: int, window: nat, bound: int)
    requires Sorted(times) && AtMostPerWindow(times, window, bound)
    requires CountRecent(times, now, window) + 1 <= bound
    ensures AtMostPerWindow(times + [now], window, bound)
    ensures CountRecent(times + [now], now, window) == CountRecent(times, now, window) + 1
  {
    var longer := times + [now];
    assert longer[..|times|] == times;
    forall i, j | 0 <= i <= j < |longer| && longer[j] - longer[i] <= window ensures j - i + 1 <= bound {
      if j < |times| {
        assert times[i] == longer[i] && times[j] == longer[j];
      } else if i < j {
        RecentSuffix(times, i, now, window);
      }
    }
  }

  /** One client's share of the cap: recent failures plus undecided requests, every window of its log,
      and its bucket. */
  predicate ClientCapped(times: seq<int>, bucket: seq<int>, waiting: nat, clock: int, window: nat, bound: int) {
    && CountRecent(times, clock, window) + waiting <= bound
    && AtMostPerWindow(times, window, bound)
    && |bucket| <= bound
  }

  lemma {:induction false} CapAges(times: seq<int>, bucket: seq<int>, waiting: nat, clock: int, bucket': seq<int>,
                                   waiting': nat, now: int, window: nat, bound: int)
    requires ClientCapped(times, bucket, waiting, clock, window, bound)
    requires clock <= now && |bucket'| <= |bucket| && waiting' <= waiting
    ensures ClientCapped(times, bucket', waiting', now, window, bound)
  {
    CountOnlyFalls(times, clock, now, window);
  }

  ghost predicate AllCapped(log: Log, failures: map<Client, seq<int>>, pending: multiset<Client>,
                            clock: int, window: nat, bound: int) {
    forall c {:trigger ClientCapped(TimesOf(log, c), Bucket(failures, c), pending[c], clock, window, bound)} ::
      ClientCapped(TimesOf(log, c), Bucket(failures, c), pending[c], clock, window, bound)
  }

  lemma {:induction false} AllCapsAge(log: Log, before: map<Client, seq<int>>, after: map<Client, seq<int>>,
                                      pending: multiset<Client>, clock: int, now: int, window: nat, bound: int)
    requires AllCapped(log, before, pending, clock, window, bound) && clock <= now
    requires forall c :: |Bucket(after, c)| <= |Bucket(before, c)|
    ensures AllCapped(log, after, pending, now, window, bound)
  {
    forall c ensures ClientCapped(TimesOf(log, c), Bucket(after, c), pending[c], now, window, bound) {
      CapAges(TimesOf(log, c), Bucket(before, c), pending[c], clock, Bucket(after, c), pending[c], now, window, bound);
    }
  }

  lemma {:induction false} AllCapsShrink(log: Log, failures: map<Client, seq<int>>, pending: multiset<Client>,
                                         client: Client, clock: int, window: nat, bound: int)
    requires AllCapped(log, failures, pending, clock, window, bound)
    ensures AllCapped(log, failures, pending - multiset{client}, clock, window, bound)
  {
    forall c ensures ClientCapped(TimesOf(log, c), Bucket(failures, c), (pending - multiset{client})[c], clock, window, bound) {
      CapAges(TimesOf(log, c), Bucket(failures, c), pending[c], clock, Bucket(failures, c),
        (pending - multiset{client})[c], clock, window, bound);
    }
  }

  lemma {:induction false} OneCapRecords(times: seq<int>, bucket: seq<int>, bucket': seq<int>, waiting: nat, now: int,
                                         window: nat, bound: int)
    requires ClientCapped(times, bucket, waiting, now, window, bound) && waiting > 0 && Sorted(times)
    requires |bucket'| <= CountRecent(times, now, window) + 1
    ensures ClientCapped(times + [now], bucket', waiting - 1, now, window, bound)
  {
    AppendCap(times, now, window, bound);
  }

  /** Recording a failure of an undecided request keeps every cap, the request being decided with it. */
  lemma {:induction false} AllCapsRecord(log: Log, before: map<Client, seq<int>>, after: map<Client, seq<int>>,
                                         pending: multiset<Client>, client: Client, now: int, window: nat, bound: int)
    requires AllCapped(log, before, pending, now, window, bound) && Ordered(TimesOf(log, client), now) && pending[client] > 0
    requires forall c | c != client :: |Bucket(after, c)| <= |Bucket(before, c)|
    requires |Bucket(after, client)| <= CountRecent(TimesOf(log, client), now, window) + 1
    ensures AllCapped(Logged(log, client, now), after, pending - multiset{client}, now, window, bound)
  {
    var log', pending' := Logged(log, client, now), pending - multiset{client};
    forall c
      ensures ClientCapped(TimesOf(log', c), Bucket(after, c), pending'[c], now, window, bound)
    {
      if c == client {
        OneCapRecords(TimesOf(log, c), Bucket(before, c), Bucket(after, c), pending[c], now, window, bound);
      } else {
        assert TimesOf(log', c) == TimesOf(log, c);
        CapAges(TimesOf(log, c), Bucket(before, c), pending[c], now, Bucket(after, c), pending'[c], now, window, bound);
      }
    }
  }

  /** Admitting a request of a client with fewer than `max` recent failures and fewer than `together`
      undecided requests. */
  lemma {:induction false} AllCapsAdmit(log: Log, failures: map<Client, seq<int>>, pending: multiset<Client>,
                                        client: Client, now: int, window: nat, max: nat, together: nat)
    requires AllCapped(log, failures, pending, now, window, max + together - 1)
    requires CountRecent(TimesOf(log, client), now, window) < max && pending[client] < together
    ensures AllCapped(log, failures, pending + multiset{client}, now, window, max + together - 1)
  {
    var pending' := pending + multiset{client};
    forall c
      ensures ClientCapped(TimesOf(log, c), Bucket(failures, c), pending'[c], now, window, max + together - 1)
    {
      assert ClientCapped(TimesOf(log, c), Bucket(failures, c), pending[c], now, window, max + together - 1);
    }
  }

  lemma {:induction false} TailsAge(log: Log, failures: map<Client, seq<int>>, clock: int, now: int, window: int)
    requires Tails(log, failures, clock, window) && clock <= now
    ensures Tails(log, failures, now, window)
  {
    forall c ensures TailOf(Bucket(failures, c), TimesOf(log, c), now, window) {
      assert TailOf(Bucket(failures, c), TimesOf(log, c), clock, window);
      TailStays(Bucket(failures, c), TimesOf(log, c), clock, now, window);
    }
  }

  // ---------------------------------------------------------------------------
  // The limiter's operations on its map
  // ---------------------------------------------------------------------------

  predicate IsBlocked(failures: map<Client, seq<int>>, client: Client, now: int, window: int, max: nat) {
    |Trimmed(Bucket(failures, client), now, window)| >= max
  }

  /** The map after a check: the bucket is trimmed, and an empty one is dropped. */
  function AfterCheck(failures: map<Client, seq<int>>, client: Client, now: int, window: int): map<Client, seq<int>> {
    var bucket := Trimmed(Bucket(failures, client), now, window);
    if bucket == [] then failures - {client} else failures[client := bucket]
  }

  function Stale(failures: map<Client, seq<int>>, now: int, window: int): set<Client> {
    set c | c in failures && (failures[c] == [] || now - failures[c][|failures[c]| - 1] > window)
  }

  /** The map after a failure: trimmed, extended, and evicted once it is large. */
  function AfterFailure(failures: map<Client, seq<int>>, client: Client, now: int, window: int): map<Client, seq<int>> {
    var recorded := failures[client := Trimmed(Bucket(failures, client), now, window) + [now]];
    if |recorded| > MAP_LIMIT then recorded - Stale(recorded, now, window) else recorded
  }

  class FailedAttemptLimiter {
    const maxFailures: nat
    const window: nat
    var failures: map<Client, seq<int>>

    constructor (maxFailures: nat, window: nat)
      ensures failures == map[] && this.maxFailures == maxFailures && this.window == window
    {
      this.maxFailures, this.window := maxFailures, window;
      failures := map[];
    }

    method Trim(client: Client, now: int) returns (bucket: seq<int>)
      modifies this
      ensures bucket == Trimmed(old(Bucket(failures, client)), now, window)
      ensures failures == old(failures)[client := bucket]
    {
      bucket := Bucket(failures, client);
      while bucket != [] && now - bucket[0] > window
        invariant Trimmed(bucket, now, window) == Trimmed(old(Bucket(failures, client)), now, window)
        decreases |bucket|
      {
        bucket := bucket[1..];
      }
      failures := failures[client := bucket];
    }

    method Blocked(client: Client, now: int) returns (blocked: bool)
      modifies this
      ensures blocked == IsBlocked(old(failures), client, now, window, maxFailures)
      ensures failures == AfterCheck(old(failures), client, now, window)
    {
      var bucket := Trim(client, now);
      if bucket == [] {
        failures := failures - {client};
      }
      blocked := |bucket| >= maxFailures;
    }

    method RecordFailure(client: Client, now: int)
      modifies this
      ensures failures == AfterFailure(old(failures), client, now, window)
    {
      var bucket := Trim(client, now);
      failures := failures[client := bucket + [now]];
      assert failures == old(failures)[client := bucket + [now]];
      if |failures| > MAP_LIMIT {
        failures := failures - Stale(failures, now, window);
      }
    }

    method Reset()
      modifies this
      ensures failures == map[]
    {
      failures := map[];
    }

    /** A whole request. `checked` and `decided` are its two clock readings. */
    method Authenticate(client: Option<Client>, unknown: Client, checked: int, decided: int, outcome: KeyCheck) returns (status: nat)
      modifies this
      ensures var name := if client.Some? then client.value else unknown;
        var refused := IsBlocked(old(failures), name, checked, window, maxFailures);
        var counted := !refused && (outcome == Unrecognised || outcome == Inactive);
        && (status == 429 <==> refused)
        && (status == 200 <==> !refused && outcome == Accepted)
        && (status == 403 <==> !refused && outcome == OwnerNotAdmin)
        && (status == 401 <==> counted || (!refused && outcome == OwnerGone))
        && failures == (var trimmed := AfterCheck(old(failures), name, checked, window);
                        if counted then AfterFailure(trimmed, name, decided, window) else trimmed)
    {
      var name := if client.Some? then client.value else unknown;
      var blocked := Blocked(name, checked);
      if blocked {
        return 429;
      }
      status := StatusOf(outcome);
      if outcome == Unrecognised || outcome == Inactive {
        RecordFailure(name, decided);
      }
    }
  }

  /** What looking the presented key up comes to. */
  datatype KeyCheck = Unrecognised | Inactive | OwnerGone | OwnerNotAdmin | Accepted

  function StatusOf(outcome: KeyCheck): nat {
    match outcome
    case Unrecognised => 401
    case Inactive => 401
    case OwnerGone => 401
    case OwnerNotAdmin => 403
    case Accepted => 200
  }

  // ---------------------------------------------------------------------------
  // Runs: the map against the plain log
  // ---------------------------------------------------------------------------

  /** The limiter's map beside the plain log, the latest clock reading, and the admitted requests that are
      not decided yet. */
  datatype State = State(failures: map<Client, seq<int>>, log: Log, clock: int, pending: multiset<Client>)

  /** `Check` is the check that opens a request of `authenticate` and admits it unless it is blocked;
      `Fail` and `Pass` decide an admitted request. Requests of one or of many clients may interleave. */
  datatype Event = Check(client: Client, at: int) | Fail(client: Client, at: int) | Pass(client: Client, at: int) | Reset

  function Next(s: State, e: Event, window: nat, max: nat): State {
    match e
    case Check(c, now) =>
      var admitted := !IsBlocked(s.failures, c, now, window, max);
      State(AfterCheck(s.failures, c, now, window), s.log, now,
            if admitted then s.pending + multiset{c} else s.pending)
    case Fail(c, now) =>
      State(AfterFailure(s.failures, c, now, window), Logged(s.log, c, now), now, s.pending - multiset{c})
    case Pass(c, now) => s.(clock := now, pending := s.pending - multiset{c})
    case Reset => s.(failures := map[], log := map[])
  }

  predicate Timely(s: State, e: Event) {
    e.Reset? || s.clock <= e.at
  }

  lemma {:induction false} CheckIsExact(s: State, c: Client, now: int, window: nat, max: nat)
    requires Tails(s.log, s.failures, s.clock, window) && s.clock <= now
    ensures IsBlocked(s.failures, c, now, window, max) <==> CountRecent(TimesOf(s.log, c), now, window) >= max
    ensures |Trimmed(Bucket(s.failures, c), now, window)| <= |Bucket(s.failures, c)|
  {
    assert TailOf(Bucket(s.failures, c), TimesOf(s.log, c), s.clock, window);
    TailTrims(Bucket(s.failures, c), TimesOf(s.log, c), s.clock, now, window);
  }

  lemma {:induction false} CheckKeepsTails(s: State, c: Client, now: int, window: nat)
    requires Tails(s.log, s.failures, s.clock, window) && s.clock <= now
    ensures Tails(s.log, AfterCheck(s.failures, c, now, window), now, window)
  {
    TrimKeepsTails(s.log, s.failures, AfterCheck(s.failures, c, now, window), c, s.clock, now, window);
  }

  lemma {:induction false} RecordedKeepsTails(s: State, c: Client, now: int, window: nat)
    requires Tails(s.log, s.failures, s.clock, window) && s.clock <= now
    ensures Tails(Logged(s.log, c, now), s.failures[c := Trimmed(Bucket(s.failures, c), now, window) + [now]], now, window)
  {
    var trimmed := s.failures[c := Trimmed(Bucket(s.failures, c), now, window)];
    TrimKeepsTails(s.log, s.failures, trimmed, c, s.clock, now, window);
    AppendKeepsTails(s.log, trimmed, c, now, window);
    assert s.failures[c := Bucket(trimmed, c) + [now]] == trimmed[c := Bucket(trimmed, c) + [now]];
  }

  lemma {:induction false} FailureKeepsTails(s: State, c: Client, now: int, window: nat)
    requires Tails(s.log, s.failures, s.clock, window) && s.clock <= now
    ensures Tails(Logged(s.log, c, now), AfterFailure(s.failures, c, now, window), now, window)
    ensures |AfterFailure(s.failures, c, now, window)| <= MAP_LIMIT
         || |AfterFailure(s.failures, c, now, window)| <= |RecentClients(Logged(s.log, c, now), now, window)|
  {
    var recorded := s.failures[c := Trimmed(Bucket(s.failures, c), now, window) + [now]];
    RecordedKeepsTails(s, c, now, window);
    EvictionKeepsTails(Logged(s.log, c, now), recorded, Stale(recorded, now, window), now, window);
  }

  function Run(s: State, events: seq<Event>, window: nat, max: nat): State {
    if events == [] then s
    else Next(Run(s, events[..|events| - 1], window, max), events[|events| - 1], window, max)
  }

  /** The clock never runs backwards. */
  predicate TimelyRun(s: State, events: seq<Event>, window: nat, max: nat) {
    events == [] ||
    (var n := |events| - 1;
     TimelyRun(s, events[..n], window, max) && Timely(Run(s, events[..n], window, max), events[n]))
  }

  function Start(clock: int): State { State(map[], map[], clock, multiset{}) }

  lemma {:induction false} StepKeepsTails(s: State, e: Event, window: nat, max: nat)
    requires Tails(s.log, s.failures, s.clock, window) && Timely(s, e)
    ensures var t := Next(s, e, window, max); Tails(t.log, t.failures, t.clock, window)
  {
    match e
    case Check(c, now) => CheckKeepsTails(s, c, now, window);
    case Fail(c, now) => FailureKeepsTails(s, c, now, window);
    case Pass(c, now) => TailsAge(s.log, s.failures, s.clock, now, window);
    case Reset =>
  }

  lemma {:induction false} RunKeepsTails(clock: int, events: seq<Event>, window: nat, max: nat)
    requires TimelyRun(Start(clock), events, window, max)
    ensures var s := Run(Start(clock), events, window, max); Tails(s.log, s.failures, s.clock, window)
  {
    if events != [] {
      var n := |events| - 1;
      RunKeepsTails(clock, events[..n], window, max);
      StepKeepsTails(Run(Start(clock), events[..n], window, max), events[n], window, max);
    }
  }

  /** The limiter refines the plain log: after any run of checks, failures and resets, a client is refused
      exactly when the log holds at least `max` failures of it that are at most `window` old. Trimming,
      dropping empty buckets and evicting clients never change an answer. */
  lemma {:induction false} LimiterRefinesLog(clock: int, events: seq<Event>, window: nat, max: nat, client: Client,
                                             now: int)
    requires TimelyRun(Start(clock), events, window, max)
    requires Run(Start(clock), events, window, max).clock <= now
    ensures var s := Run(Start(clock), events, window, max);
      IsBlocked(s.failures, client, now, window, max) <==> CountRecent(TimesOf(s.log, client), now, window) >= max
  {
    RunKeepsTails(clock, events, window, max);
    CheckIsExact(Run(Start(clock), events, window, max), client, now, window, max);
  }

  /** A request after the state `s`. */
  function Requested(s: State, c: Client, checked: int, decided: int, outcome: KeyCheck, window: nat, max: nat): State {
    var checkedState := Next(s, Check(c, checked), window, max);
    if IsBlocked(s.failures, c, checked, window, max) then checkedState
    else if outcome == Unrecognised || outcome == Inactive then Next(checkedState, Fail(c, decided), window, max)
    else Next(checkedState, Pass(c, decided), window, max)
  }

  /** What a request does to the log after any run: a failure is logged exactly when fewer than `max` recent ones
      were and the key is unknown, wrong or inactive. An inactive owner or one who is no admin costs nothing, and
      no other client is touched. The map is then the one `Authenticate` leaves. */
  lemma {:induction false} RequestFromLog(clock: int, events: seq<Event>, window: nat, max: nat, c: Client,
                                          checked: int, decided: int, outcome: KeyCheck)
    requires TimelyRun(Start(clock), events, window, max)
    requires Run(Start(clock), events, window, max).clock <= checked <= decided
    ensures var s := Run(Start(clock), events, window, max);
      var t := Requested(s, c, checked, decided, outcome, window, max);
      var counted := CountRecent(TimesOf(s.log, c), checked, window) < max && (outcome == Unrecognised || outcome == Inactive);
      && t.log == (if counted then Logged(s.log, c, decided) else s.log)
      && t.pending == s.pending
      && t.failures == (var trimmed := AfterCheck(s.failures, c, checked, window);
                        if counted then AfterFailure(trimmed, c, decided, window) else trimmed)
  {
    LimiterRefinesLog(clock, events, window, max, c, checked);
    OneInOneOut(Run(Start(clock), events, window, max).pending, c);
  }

  lemma {:induction false} OneInOneOut(pending: multiset<Client>, c: Client)
    ensures pending + multiset{c} - multiset{c} == pending
  {
  }

  /** The map is small, or holds only clients with a recent failure. */
  predicate MapBounded(s: State, window: nat) {
    |s.failures| <= MAP_LIMIT || |s.failures| <= |RecentClients(s.log, s.clock, window)|
  }

  /** Right after a failure the map is bounded, in every run. */
  lemma {:induction false} MapStaysBounded(clock: int, events: seq<Event>, window: nat, max: nat)
    requires TimelyRun(Start(clock), events, window, max) && events != [] && events[|events| - 1].Fail?
    ensures MapBounded(Run(Start(clock), events, window, max), window)
  {
    var n := |events| - 1;
    RunKeepsTails(clock, events[..n], window, max);
    FailureKeepsTails(Run(Start(clock), events[..n], window, max), events[n].client, events[n].at, window);
  }

  // ---------------------------------------------------------------------------
  // How many failures fit into a window when requests interleave
  // ---------------------------------------------------------------------------

  /** Requests are checked before they are decided, and at most `together` requests of one client are
      between the two at a time. */
  predicate Orderly(s: State, e: Event, together: nat) {
    match e
    case Check(c, _) => s.pending[c] < together
    case Fail(c, _) => s.pending[c] > 0
    case Pass(c, _) => s.pending[c] > 0
    case Reset => true
  }

  predicate OrderlyRun(s: State, events: seq<Event>, window: nat, max: nat, together: nat) {
    events == [] ||
    (var n := |events| - 1;
     OrderlyRun(s, events[..n], window, max, together) && Orderly(Run(s, events[..n], window, max), events[n], together))
  }

  ghost predicate Capped(s: State, window: nat, bound: int) {
    AllCapped(s.log, s.failures, s.pending, s.clock, window, bound)
  }

  lemma {:induction false} CheckKeepsCap(s: State, c: Client, now: int, window: nat, max: nat, together: nat)
    requires Tails(s.log, s.failures, s.clock, window) && s.clock <= now
    requires Capped(s, window, max + together - 1) && s.pending[c] < together
    ensures Capped(Next(s, Check(c, now), window, max), window, max + together - 1)
  {
    var after := AfterCheck(s.failures, c, now, window);
    CheckIsExact(s, c, now, window, max);
    AllCapsAge(s.log, s.failures, after, s.pending, s.clock, now, window, max + together - 1);
    if !IsBlocked(s.failures, c, now, window, max) {
      AllCapsAdmit(s.log, after, s.pending, c, now, window, max, together);
    }
  }

  lemma {:induction false} BucketAfterFailure(failures: map<Client, seq<int>>, client: Client, now: int, window: int)
    ensures var after := AfterFailure(failures, client, now, window);
      && |Bucket(after, client)| <= |Trimmed(Bucket(failures, client), now, window)| + 1
      && forall c | c != client :: |Bucket(after, c)| <= |Bucket(failures, c)|
  {
  }

  lemma {:induction false} BucketsAfterFailure(s: State, c: Client, now: int, window: nat)
    requires Tails(s.log, s.failures, s.clock, window) && s.clock <= now
    ensures |Bucket(AfterFailure(s.failures, c, now, window), c)| <= CountRecent(TimesOf(s.log, c), now, window) + 1
    ensures Ordered(TimesOf(s.log, c), now)
  {
    assert TailOf(Bucket(s.failures, c), TimesOf(s.log, c), s.clock, window);
    TailTrims(Bucket(s.failures, c), TimesOf(s.log, c), s.clock, now, window);
    BucketAfterFailure(s.failures, c, now, window);
  }

  lemma {:induction false} FailKeepsCap(s: State, c: Client, now: int, window: nat, max: nat, bound: int)
    requires Tails(s.log, s.failures, s.clock, window) && s.clock <= now
    requires Capped(s, window, bound) && s.pending[c] > 0
    ensures Capped(Next(s, Fail(c, now), window, max), window, bound)
  {
    BucketsAfterFailure(s, c, now, window);
    BucketAfterFailure(s.failures, c, now, window);
    AllCapsAge(s.log, s.failures, s.failures, s.pending, s.clock, now, window, bound);
    AllCapsRecord(s.log, s.failures, AfterFailure(s.failures, c, now, window), s.pending, c, now, window, bound);
  }

  lemma {:induction false} PassKeepsCap(s: State, c: Client, now: int, window: nat, max: nat, bound: int)
    requires Capped(s, window, bound) && s.clock <= now
    ensures Capped(Next(s, Pass(c, now), window, max), window, bound)
  {
    AllCapsAge(s.log, s.failures, s.failures, s.pending, s.clock, now, window, bound);
    AllCapsShrink(s.log, s.failures, s.pending, c, now, window, bound);
  }

  lemma {:induction false} ResetKeepsCap(s: State, window: nat, max: nat, bound: int)
    requires Capped(s, window, bound)
    ensures Capped(Next(s, Reset, window, max), window, bound)
  {
    var t := Next(s, Reset, window, max);
    forall d ensures ClientCapped(TimesOf(t.log, d), Bucket(t.failures, d), t.pending[d], t.clock, window, bound) {
      assert ClientCapped(TimesOf(s.log, d), Bucket(s.failures, d), s.pending[d], s.clock, window, bound);
    }
  }

  lemma {:induction false} StepKeepsCap(s: State, e: Event, window: nat, max: nat, together: nat)
    requires Tails(s.log, s.failures, s.clock, window) && Timely(s, e)
    requires Capped(s, window, max + together - 1) && Orderly(s, e, together)
    ensures Capped(Next(s, e, window, max), window, max + together - 1)
  {
    match e
    case Check(c, now) => CheckKeepsCap(s, c, now, window, max, together);
    case Fail(c, now) => FailKeepsCap(s, c, now, window, max, max + together - 1);
    case Pass(c, now) => PassKeepsCap(s, c, now, window, max, max + together - 1);
    case Reset => ResetKeepsCap(s, window, max, max + together - 1);
  }

  /** With at most `together` requests of a client between check and decision, no stretch of `window` holds
      more than max + together - 1 recorded failures of the client, and its bucket is no longer than that.
      Handled one at a time (`together` is 1), that is the configured maximum. */
  lemma {:induction false} FailuresPerWindow(clock: int, events: seq<Event>, window: nat, max: nat, together: nat)
    requires TimelyRun(Start(clock), events, window, max) && together > 0
    requires OrderlyRun(Start(clock), events, window, max, together)
    ensures Capped(Run(Start(clock), events, window, max), window, max + together - 1)
  {
    if events != [] {
      var n := |events| - 1;
      FailuresPerWindow(clock, events[..n], window, max, together);
      RunKeepsTails(clock, events[..n], window, max);
      StepKeepsCap(Run(Start(clock), events[..n], window, max), events[n], window, max, together);
    }
  }

  lemma {:induction false} Then(start: State, events: seq<Event>, s: State, e: Event, window: nat, max: nat,
                                together: nat)
    returns (longer: seq<Event>, t: State)
    requires s == Run(start, events, window, max) && TimelyRun(start, events, window, max) && Timely(s, e)
    requires OrderlyRun(start, events, window, max, together) && Orderly(s, e, together)
    ensures longer == events + [e] && t == Next(s, e, window, max) && t == Run(start, longer, window, max)
    ensures TimelyRun(start, longer, window, max) && OrderlyRun(start, longer, window, max, together)
  {
    longer, t := events + [e], Next(s, e, window, max);
    assert longer[..|events|] == events;
  }

  // ---------------------------------------------------------------------------
  // The bound is reached
  // ---------------------------------------------------------------------------

  function Copies(n: nat, at: int): (times: seq<int>)
    ensures |times| == n
  {
    if n == 0 then [] else Copies(n - 1, at) + [at]
  }

  lemma {:induction false} AllCopiesAreRecent(n: nat, at: int, window: nat)
    ensures CountRecent(Copies(n, at), at, window) == n
  {
    if n > 0 {
      assert Copies(n, at)[..n - 1] == Copies(n - 1, at);
      AllCopiesAreRecent(n - 1, at, window);
    }
  }

  /** A run from the start in which everything happens at one instant: `n` recorded failures of the client,
      `waiting` requests of it under way. */
  ghost predicate Burst(events: seq<Event>, s: State, c: Client, at: int, n: nat, waiting: nat,
                        window: nat, max: nat, together: nat) {
    && s == Run(Start(at), events, window, max) && s.clock == at
    && TimelyRun(Start(at), events, window, max) && OrderlyRun(Start(at), events, window, max, together)
    && TimesOf(s.log, c) == Copies(n, at) && s.pending[c] == waiting
  }

  lemma {:induction false} Admit(events: seq<Event>, s: State, c: Client, at: int, n: nat, waiting: nat, window: nat,
                                 max: nat, together: nat)
    returns (longer: seq<Event>, t: State)
    requires Burst(events, s, c, at, n, waiting, window, max, together) && n < max && waiting < together
    ensures Burst(longer, t, c, at, n, waiting + 1, window, max, together)
  {
    LimiterRefinesLog(at, events, window, max, c, at);
    AllCopiesAreRecent(n, at, window);
    longer, t := Then(Start(at), events, s, Check(c, at), window, max, together);
  }

  lemma {:induction false} Refuse(events: seq<Event>, s: State, c: Client, at: int, n: nat, waiting: nat, window: nat,
                                  max: nat, together: nat)
    returns (longer: seq<Event>, t: State)
    requires Burst(events, s, c, at, n, waiting, window, max, together) && waiting > 0
    ensures Burst(longer, t, c, at, n + 1, waiting - 1, window, max, together)
  {
    longer, t := Then(Start(at), events, s, Fail(c, at), window, max, together);
  }

  /** One request after the other, each refused. */
  lemma {:induction false} OneByOne(c: Client, at: int, n: nat, window: nat, max: nat, together: nat)
    returns (events: seq<Event>, s: State)
    requires n <= max && together > 0
    ensures Burst(events, s, c, at, n, 0, window, max, together)
  {
    if n == 0 {
      events, s := [], Start(at);
    } else {
      events, s := OneByOne(c, at, n - 1, window, max, together);
      events, s := Admit(events, s, c, at, n - 1, 0, window, max, together);
      events, s := Refuse(events, s, c, at, n - 1, 1, window, max, together);
    }
  }

  /** Then many at once, all checked before any is decided. */
  lemma {:induction false} Crowd(c: Client, at: int, waiting: nat, window: nat, max: nat, together: nat)
    returns (events: seq<Event>, s: State)
    requires max > 0 && 0 < together && waiting <= together
    ensures Burst(events, s, c, at, max - 1, waiting, window, max, together)
  {
    if waiting == 0 {
      events, s := OneByOne(c, at, max - 1, window, max, together);
    } else {
      events, s := Crowd(c, at, waiting - 1, window, max, together);
      events, s := Admit(events, s, c, at, max - 1, waiting - 1, window, max, together);
    }
  }

  lemma {:induction false} CrowdRefused(c: Client, at: int, refused: nat, window: nat, max: nat, together: nat)
    returns (events: seq<Event>, s: State)
    requires max > 0 && 0 < together && refused <= together
    ensures Burst(events, s, c, at, max - 1 + refused, together - refused, window, max, together)
  {
    if refused == 0 {
      events, s := Crowd(c, at, together, window, max, together);
    } else {
      events, s := CrowdRefused(c, at, refused - 1, window, max, together);
      events, s := Refuse(events, s, c, at, max - 1 + refused - 1, together - refused + 1, window, max, together);
    }
  }

  /** The bound of FailuresPerWindow is reached for every maximum and every number of requests under way: some
      run records max + together - 1 failures of one client at one instant. */
  lemma {:induction false} InterleavedRequestsOvershoot(c: Client, at: int, window: nat, max: nat, together: nat)
    returns (events: seq<Event>)
    requires max > 0 && together > 0
    ensures Burst(events, Run(Start(at), events, window, max), c, at, max + together - 1, 0, window, max, together)
  {
    var s;
    events, s := CrowdRefused(c, at, together, window, max, together);
  }

  /** No orderly run puts more than `max` failures of a client into a stretch of `window`. */
  ghost predicate KeepsMaximum(window: nat, max: nat, together: nat) {
    forall clock: int, events: seq<Event>, c: Client |
      TimelyRun(Start(clock), events, window, max) && OrderlyRun(Start(clock), events, window, max, together) ::
      AtMostPerWindow(TimesOf(Run(Start(clock), events, window, max).log, c), window, max)
  }

  lemma {:induction false} NothingIsAdmitted(clock: int, events: seq<Event>, window: nat, together: nat)
    requires OrderlyRun(Start(clock), events, window, 0, together)
    ensures var s := Run(Start(clock), events, window, 0); s.log == map[] && s.pending == multiset{}
  {
    if events != [] {
      NothingIsAdmitted(clock, events[..|events| - 1], window, together);
    }
  }

  lemma {:induction false} CopiesAreEqual(n: nat, at: int, i: nat)
    requires i < n
    ensures Copies(n, at)[i] == at
  {
    if i < n - 1 { CopiesAreEqual(n - 1, at, i); }
  }

  /** "At most `max` failures per window" holds of all runs exactly when requests of a client are handled one
      at a time (or nothing is ever admitted). */
  lemma {:induction false} MaximumIsKeptExactly(someone: Client, window: nat, max: nat, together: nat)
    requires together > 0
    ensures KeepsMaximum(window, max, together) <==> together == 1 || max == 0
  {
    if together == 1 || max == 0 {
      forall clock: int, events: seq<Event>, c: Client
        | TimelyRun(Start(clock), events, window, max) && OrderlyRun(Start(clock), events, window, max, together)
        ensures AtMostPerWindow(TimesOf(Run(Start(clock), events, window, max).log, c), window, max)
      {
        if max == 0 {
          NothingIsAdmitted(clock, events, window, together);
        } else {
          OneAtATime(clock, events, window, max, c);
        }
      }
    } else {
      var events := InterleavedRequestsOvershoot(someone, 0, window, max, together);
      var times := TimesOf(Run(Start(0), events, window, max).log, someone);
      CopiesAreEqual(|times|, 0, 0);
      CopiesAreEqual(|times|, 0, |times| - 1);
      assert !AtMostPerWindow(times, window, max) by { assert times[|times| - 1] - times[0] <= window; }
    }
  }

  lemma {:induction false} OneAtATime(clock: int, events: seq<Event>, window: nat, max: nat, c: Client)
    requires TimelyRun(Start(clock), events, window, max) && OrderlyRun(Start(clock), events, window, max, 1)
    ensures AtMostPerWindow(TimesOf(Run(Start(clock), events, window, max).log, c), window, max)
  {
    FailuresPerWindow(clock, events, window, max, 1);
    var s := Run(Start(clock), events, window, max);
    assert ClientCapped(TimesOf(s.log, c), Bucket(s.failures, c), s.pending[c], s.clock, window, max);
  }
}
