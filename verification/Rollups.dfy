/** The hourly, daily and per-country summaries of the traffic log, kept while the log itself is pruned. */
module Rollups {
  import opened Wrappers

  // Times are microseconds since the epoch, in UTC.
  const HOUR: int := 3_600_000_000
  const DAY: int := 24 * HOUR
  const BATCH_SIZE: nat := 5000

  /** A proxied host; only compared. */
  type Host(==, !new)

  /** One logged request. */
  datatype Row = Row(host: Option<Host>, at: int, country: Option<string>)

  /** A table of the traffic log, by row id. */
  type Rows = map<nat, Row>

  datatype Kind = Hourly | Daily | Geo

  /** What a summary row is for: a host (or none), a period by its first instant, and a country for `Geo`. */
  datatype Key = Key(kind: Kind, host: Option<Host>, period: int, country: Option<string>)

  function Step(kind: Kind): (step: int)
    ensures step > 0
  {
    if kind == Hourly then HOUR else DAY
  }

  function Floor(t: int, step: int): int
    requires step > 0
  {
    t - t % step
  }

  /** The group a row is counted in; rows without a country have none in the geographic summary. */
  function KeyOf(kind: Kind, row: Row): Option<Key> {
    var period := Floor(row.at, Step(kind));
    if kind != Geo then Some(Key(kind, row.host, period, None))
    else if row.country == None || row.country == Some("") then None
    else Some(Key(kind, row.host, period, row.country))
  }

  /** The rows of a group. */
  function Members(rows: Rows, k: Key): set<nat> {
    set id | id in rows && KeyOf(k.kind, rows[id]) == Some(k)
  }

  function Total(rows: Rows, k: Key): nat { |Members(rows, k)| }

  /** The rows of a group that the aggregating query reads. */
  function Read(rows: Rows, k: Key, start: int): set<nat> {
    set id | id in rows && rows[id].at >= start && KeyOf(k.kind, rows[id]) == Some(k)
  }

  /** The groups the aggregating query returns. */
  function Groups(rows: Rows, kind: Kind, start: int): set<Key> {
    set id | id in rows && rows[id].at >= start && KeyOf(kind, rows[id]).Some? :: KeyOf(kind, rows[id]).value
  }

  predicate IsOldest(rows: Rows, t: int) {
    (exists id | id in rows :: rows[id].at == t) && forall id | id in rows :: t <= rows[id].at
  }

  lemma {:induction false} OldestExists(rows: Rows)
    requires rows != map[]
    ensures exists t :: IsOldest(rows, t)
  {
    var id :| id in rows;
    var rest := rows - {id};
    if rest == map[] {
      assert rows == map[id := rows[id]];
      assert IsOldest(rows, rows[id].at);
    } else {
      OldestExists(rest);
      var t :| IsOldest(rest, t);
      var other :| other in rest && rest[other].at == t;
      assert forall k | k in rows :: k == id || (k in rest && rest[k] == rows[k]);
      if t <= rows[id].at {
        assert rows[other].at == t;
        assert IsOldest(rows, t);
      } else {
        assert IsOldest(rows, rows[id].at);
      }
    }
  }

  ghost function Oldest(rows: Rows): Option<int> {
    if rows == map[] then None
    else
      OldestExists(rows);
      var t :| IsOldest(rows, t);
      Some(t)
  }

  /** Where aggregation starts: the window's start, or the first period that the rows cover whole. */
  function FirstComplete(oldest: Option<int>, start: int, step: int): int
    requires step > 0
  {
    if oldest == None || oldest.value <= start then start
    else
      var floor := Floor(oldest.value, step);
      if floor == oldest.value then floor else floor + step
  }

  function WindowStart(kind: Kind, now: int, back: nat): int {
    Floor(now - back * Step(kind), Step(kind))
  }

  ghost function Start(rows: Rows, kind: Kind, now: int, back: nat): int {
    FirstComplete(Oldest(rows), WindowStart(kind, now, back), Step(kind))
  }

  /** What the aggregating query returns: each group with its number of rows from `start` on. */
  function Query(rows: Rows, kind: Kind, start: int): map<Key, nat> {
    map k | k in Groups(rows, kind, start) :: |Read(rows, k, start)|
  }

  /** The summaries after an aggregation that read the rows from `start` on. */
  function Written(rows: Rows, sums: map<Key, nat>, kind: Kind, start: int): map<Key, nat> {
    sums + Query(rows, kind, start)
  }

  // ---------------------------------------------------------------------------
  // The tables
  // ---------------------------------------------------------------------------

  lemma {:induction false} TakeOne<K, V>(sums: map<K, V>, todo: map<K, V>, k: K)
    requires k in todo
    ensures sums[k := todo[k]] + (todo - {k}) == sums + todo
  {
    var moved := sums[k := todo[k]] + (todo - {k});
    assert moved.Keys == (sums + todo).Keys;
    forall x | x in moved ensures moved[x] == (sums + todo)[x] {
    }
  }

  lemma {:induction false} OneFewer<K, V>(todo: map<K, V>, k: K)
    requires k in todo
    ensures |todo - {k}| == |todo| - 1
  {
    assert (todo - {k}).Keys == todo.Keys - {k};
    assert |todo| == |todo.Keys| && |todo - {k}| == |(todo - {k}).Keys|;
  }

  class Tables {
    var raw: Rows
    var sums: map<Key, nat>

    /** `aggregate_hourly`, `aggregate_daily` and `aggregate_geo`. */
    method Aggregate(kind: Kind, now: int, back: nat) returns (count: nat)
      modifies this`sums
      ensures sums == Written(raw, old(sums), kind, Start(raw, kind, now, back))
      ensures count == |Query(raw, kind, Start(raw, kind, now, back))|
    {
      var oldest := OldestTimestamp();
      var start := FirstComplete(oldest, WindowStart(kind, now, back), Step(kind));
      count := UpsertAll(Query(raw, kind, start));
    }

    /** Writes the query's groups into the summaries, in any order. */
    method UpsertAll(result: map<Key, nat>) returns (count: nat)
      modifies this`sums
      ensures sums == old(sums) + result && count == |result|
    {
      var todo := result;
      count := 0;
      while todo != map[]
        invariant sums + todo == old(sums) + result
        invariant count + |todo| == |result|
        decreases |todo|
      {
        var k :| k in todo;
        TakeOne(sums, todo, k);
        OneFewer(todo, k);
        sums := sums[k := todo[k]];
        todo, count := todo - {k}, count + 1;
      }
    }

    method OldestTimestamp() returns (oldest: Option<int>)
      ensures oldest == Oldest(raw)
    {
      if raw == map[] { return None; }
      OldestExists(raw);
      var id :| id in raw && forall other | other in raw :: raw[id].at <= raw[other].at;
      assert IsOldest(raw, raw[id].at);
      return Some(raw[id].at);
    }

    /** `_batch_delete`: batches of rows older than the cutoff, in no particular order, until a batch comes
        back short. */
    method BatchDelete(cutoff: int) returns (deleted: nat)
      modifies this`raw
      ensures raw == Kept(old(raw), cutoff)
      ensures deleted == |old(raw)| - |raw|
    {
      deleted := 0;
      var more := true;
      while more
        invariant Kept(raw, cutoff) == Kept(old(raw), cutoff)
        invariant deleted == |old(raw)| - |raw|
        invariant !more ==> Expired(raw, cutoff) == {}
        decreases |raw|, more
      {
        ghost var before := raw;
        var batch := PickBatch(Expired(raw, cutoff));
        BatchLeaves(raw, batch, cutoff);
        raw := raw - batch;
        deleted := deleted + |batch|;
        more := |batch| == BATCH_SIZE;
      }
      assert raw == Kept(raw, cutoff);
    }
  }

  function Expired(rows: Rows, cutoff: int): set<nat> { set id | id in rows && rows[id].at < cutoff }

  function Kept(rows: Rows, cutoff: int): Rows { rows - Expired(rows, cutoff) }

  /** Any `BATCH_SIZE` of the rows, or all when there are fewer. */
  method PickBatch(expired: set<nat>) returns (batch: set<nat>)
    ensures batch <= expired
    ensures |batch| == if |expired| < BATCH_SIZE then |expired| else BATCH_SIZE
  {
    SubsetOfSize(expired, if |expired| < BATCH_SIZE then |expired| else BATCH_SIZE);
    batch :| batch <= expired && |batch| == if |expired| < BATCH_SIZE then |expired| else BATCH_SIZE;
  }

  lemma {:induction false} SubsetOfSize(s: set<nat>, n: nat)
    requires n <= |s|
    ensures exists t :: t <= s && |t| == n
  {
    if n == |s| {
    } else {
      var x :| x in s;
      SubsetOfSize(s - {x}, n);
    }
  }

  lemma {:induction false} TakenTwice<K, V>(rows: map<K, V>, part: set<K>, all: set<K>)
    requires part <= all
    ensures (rows - part) - (all - part) == rows - all
  {
  }

  lemma {:induction false} FewerRows<K, V>(rows: map<K, V>, part: set<K>)
    requires part <= rows.Keys
    ensures |rows - part| == |rows| - |part|
  {
    assert (rows - part).Keys == rows.Keys - part;
    assert |rows| == |rows.Keys| && |rows - part| == |(rows - part).Keys|;
  }

  lemma {:induction false} BatchLeaves(rows: Rows, batch: set<nat>, cutoff: int)
    requires batch <= Expired(rows, cutoff)
    requires |batch| == if |Expired(rows, cutoff)| < BATCH_SIZE then |Expired(rows, cutoff)| else BATCH_SIZE
    ensures Kept(rows - batch, cutoff) == Kept(rows, cutoff)
    ensures |rows - batch| == |rows| - |batch|
    ensures |batch| < BATCH_SIZE ==> Expired(rows - batch, cutoff) == {}
  {
    var expired := Expired(rows, cutoff);
    assert Expired(rows - batch, cutoff) == expired - batch;
    TakenTwice(rows, batch, expired);
    FewerRows(rows, batch);
    SubsetCount(batch, expired);
  }

  // ---------------------------------------------------------------------------
  // Periods
  // ---------------------------------------------------------------------------

  predicate Aligned(t: int, kind: Kind) { t % Step(kind) == 0 }

  /** A period that starts at `start` or later is the period of rows at `start` or later. */
  lemma {:induction false} FloorAligned(t: int, start: int, kind: Kind)
    requires Aligned(start, kind)
    ensures Aligned(Floor(t, Step(kind)), kind)
    ensures t >= start <==> Floor(t, Step(kind)) >= start
    ensures Floor(t, Step(kind)) <= t < Floor(t, Step(kind)) + Step(kind)
  {
    FloorStep(t, start, Step(kind));
  }

  lemma {:induction false} FloorStep(t: int, start: int, step: int)
    requires step > 0 && start % step == 0
    ensures Floor(t, step) % step == 0
    ensures t >= start <==> Floor(t, step) >= start
    ensures Floor(t, step) <= t < Floor(t, step) + step
  {
    var q, p := t / step, start / step;
    assert t == q * step + t % step && start == p * step + start % step;
    RemainderIs(Floor(t, step), q, step, 0);
    assert Floor(t, step) - start == (q - p) * step;
    MultipleIsFar(q - p, step);
  }

  lemma {:induction false} RemainderIs(t: int, q: int, step: int, r: int)
    requires 0 <= r < step && t == q * step + r
    ensures t % step == r
  {
    var d := t / step - q;
    assert t == (t / step) * step + t % step;
    assert d * step == r - t % step;
    MultipleIsFar(d, step);
  }

  lemma {:induction false} MultipleIsFar(d: int, step: int)
    requires step > 0
    ensures d > 0 ==> d * step >= step
    ensures d < 0 ==> d * step <= -step
  {
  }

  /** A period that begins before the next one begins no later than this one. */
  lemma {:induction false} NextPeriod(p: int, q: int, kind: Kind)
    requires Aligned(p, kind) && Aligned(q, kind)
    ensures Aligned(q + Step(kind), kind)
    ensures p < q + Step(kind) <==> p <= q
  {
    if kind == Hourly { assert Step(kind) == HOUR; } else { assert Step(kind) == DAY; }
  }

  /** Aggregation starts on a period boundary, no earlier than the window and the oldest row. Of the periods
      in the window it leaves out exactly those that begin before the oldest row. */
  lemma {:induction false} FirstCompleteIsWhole(oldest: int, window: int, kind: Kind)
    requires Aligned(window, kind)
    ensures var start := FirstComplete(Some(oldest), window, Step(kind));
      && Aligned(start, kind) && window <= start && oldest <= start
      && forall p | Aligned(p, kind) && p >= window :: p < start <==> p < oldest
  {
    var step, floor := Step(kind), Floor(oldest, Step(kind));
    FloorAligned(oldest, window, kind);
    NextPeriod(floor, floor, kind);
    if oldest > window {
      forall p | Aligned(p, kind) ensures p < floor + step <==> p <= oldest {
        FloorAligned(oldest, p, kind);
        NextPeriod(p, floor, kind);
      }
    }
  }

  lemma {:induction false} StartIsWhole(rows: Rows, kind: Kind, now: int, back: nat)
    ensures var start, window := Start(rows, kind, now, back), WindowStart(kind, now, back);
      && Aligned(start, kind) && window <= start
      && (rows != map[] ==> Oldest(rows).value <= start)
      && forall p | Aligned(p, kind) && p >= window :: p < start <==> rows != map[] && p < Oldest(rows).value
  {
    FloorAligned(now - back * Step(kind), 0, kind);
    if rows != map[] { FirstCompleteIsWhole(Oldest(rows).value, WindowStart(kind, now, back), kind); }
  }

  lemma {:induction false} SubsetCount(a: set<nat>, b: set<nat>)
    requires a <= b
    ensures |a| <= |b| && (|a| == |b| <==> a == b)
  {
    if a != {} {
      var x :| x in a;
      SubsetCount(a - {x}, b - {x});
      assert a == b <==> a - {x} == b - {x};
    } 
  }

  predicate Part(raw: Rows, log: Rows) {
    forall id | id in raw :: id in log && raw[id] == log[id]
  }

  /** A total written for a group is never more than the number of rows ever logged for it, and equals it
      exactly when no row of that group has been removed. */
  lemma {:induction false} WrittenTotalIsTrueIff(raw: Rows, log: Rows, kind: Kind, now: int, back: nat, k: Key)
    requires Part(raw, log)
    requires k in Groups(raw, kind, Start(raw, kind, now, back))
    ensures |Read(raw, k, Start(raw, kind, now, back))| <= Total(log, k)
    ensures |Read(raw, k, Start(raw, kind, now, back))| == Total(log, k) <==> Members(log, k) <= raw.Keys
  {
    var start := Start(raw, kind, now, back);
    StartIsWhole(raw, kind, now, back);
    var one :| one in raw && raw[one].at >= start && KeyOf(kind, raw[one]) == Some(k);
    FloorAligned(raw[one].at, start, kind);
    forall id | id in Members(raw, k) ensures raw[id].at >= start {
      FloorAligned(raw[id].at, start, kind);
    }
    assert Read(raw, k, start) == Members(raw, k);
    SubsetCount(Members(raw, k), Members(log, k));
  }

  // ---------------------------------------------------------------------------
  // Runs of logging, pruning and aggregating
  // ---------------------------------------------------------------------------

  /** The tables, beside every row ever logged, the latest cutoff of a finished prune, and the latest of any. */
  datatype State = State(raw: Rows, log: Rows, sums: map<Key, nat>, cut: int, reach: int)

  /** `Batches` is a prune that failed after it had removed the rows `gone`. */
  datatype Event =
    | LogRow(id: nat, row: Row)
    | Prune(cutoff: int)
    | Batches(cutoff: int, gone: set<nat>)
    | Rollup(kind: Kind, now: int, back: nat)

  function Max(a: int, b: int): int { if a >= b then a else b }

  ghost function Next(s: State, e: Event): State {
    match e
    case LogRow(id, row) => s.(raw := s.raw[id := row], log := s.log[id := row])
    case Prune(cutoff) => s.(raw := Kept(s.raw, cutoff), cut := Max(s.cut, cutoff), reach := Max(s.reach, cutoff))
    case Batches(cutoff, gone) => s.(raw := s.raw - gone, reach := Max(s.reach, cutoff))
    case Rollup(kind, now, back) => s.(sums := Written(s.raw, s.sums, kind, Start(s.raw, kind, now, back)))
  }

  /** No prune is left half done, or the rollup's window does not reach back to where it was. */
  predicate Safe(s: State, kind: Kind, now: int, back: nat) {
    s.reach <= s.cut || s.reach <= WindowStart(kind, now, back)
  }

  /** Row ids are new, no row arrives that a finished prune should already have removed, batches take expired
      rows only, and rollups are safe. */
  predicate Allowed(s: State, e: Event) {
    match e
    case LogRow(id, row) => id !in s.log && row.at >= s.cut
    case Prune(_) => true
    case Batches(cutoff, gone) => gone <= Expired(s.raw, cutoff)
    case Rollup(kind, now, back) => Safe(s, kind, now, back)
  }

  ghost function Run(s: State, events: seq<Event>): State {
    if events == [] then s else Next(Run(s, events[..|events| - 1]), events[|events| - 1])
  }

  ghost predicate AllowedRun(s: State, events: seq<Event>) {
    events == [] ||
    (var n := |events| - 1; AllowedRun(s, events[..n]) && Allowed(Run(s, events[..n]), events[n]))
  }

  function Begin(cut: int): State { State(map[], map[], map[], cut, cut) }

  /** The rows below the cut are gone, others only where some prune reached, and every stored total counts rows
      that were logged, for a period that the log reaches the start of. */
  ghost predicate Sound(s: State) {
    && Part(s.raw, s.log) && s.cut <= s.reach
    && (forall id | id in s.raw :: s.raw[id].at >= s.cut)
    && (forall id | id in s.log && id !in s.raw :: s.log[id].at < s.reach)
    && (forall k | k in s.sums :: s.sums[k] <= Total(s.log, k))
    && (forall k | k in s.sums :: ReachesBack(s.log, k.period))
  }

  ghost predicate ReachesBack(log: Rows, t: int) {
    exists id | id in log :: log[id].at <= t
  }

  /** Nothing from the first complete period on has been pruned. */
  lemma {:induction false} NothingReadIsMissing(s: State, kind: Kind, now: int, back: nat, k: Key)
    requires Sound(s) && Safe(s, kind, now, back)
    requires k in Groups(s.raw, kind, Start(s.raw, kind, now, back))
    ensures Members(s.log, k) <= s.raw.Keys
    ensures ReachesBack(s.log, k.period)
  {
    var start := Start(s.raw, kind, now, back);
    StartIsWhole(s.raw, kind, now, back);
    var one :| one in s.raw && s.raw[one].at >= start && KeyOf(kind, s.raw[one]) == Some(k);
    FloorAligned(s.raw[one].at, start, kind);
    var oldest := Oldest(s.raw).value;
    assert IsOldest(s.raw, oldest);
    var first :| first in s.raw && s.raw[first].at == oldest;
    assert s.log[first].at <= k.period;
    forall id | id in Members(s.log, k) ensures id in s.raw {
      FloorAligned(s.log[id].at, start, kind);
    }
  }

  /** The stored total of a group is the number of rows ever logged for it. */
  predicate Counted(s: State, k: Key) {
    k in s.sums && s.sums[k] == Total(s.log, k)
  }

  /** The total a rollup writes for a group is the number of rows ever logged for it. */
  lemma {:induction false} RollupCountsEverything(s: State, kind: Kind, now: int, back: nat, k: Key)
    requires Sound(s) && Safe(s, kind, now, back)
    requires k in Groups(s.raw, kind, Start(s.raw, kind, now, back))
    ensures Counted(Next(s, Rollup(kind, now, back)), k)
  {
    NothingReadIsMissing(s, kind, now, back, k);
    WrittenTotalIsTrueIff(s.raw, s.log, kind, now, back, k);
  }

  lemma {:induction false} LoggingGrows(log: Rows, id: nat, row: Row, k: Key)
    requires id !in log
    ensures Total(log[id := row], k) == Total(log, k) + if KeyOf(k.kind, row) == Some(k) then 1 else 0
  {
    var grown := Members(log[id := row], k);
    assert grown == if KeyOf(k.kind, row) == Some(k) then Members(log, k) + {id} else Members(log, k);
  }

  lemma {:induction false} StepKeepsSound(s: State, e: Event)
    requires Sound(s) && Allowed(s, e)
    ensures Sound(Next(s, e))
  {
    var t := Next(s, e);
    forall k | k in t.sums ensures t.sums[k] <= Total(t.log, k) && ReachesBack(t.log, k.period) {
      match e
      case LogRow(id, row) =>
        LoggingGrows(s.log, id, row, k);
        var first :| first in s.log && s.log[first].at <= k.period;
        assert t.log[first].at <= k.period;
      case Prune(_) =>
      case Batches(_, _) =>
      case Rollup(kind, now, back) =>
        if k in Groups(s.raw, kind, Start(s.raw, kind, now, back)) {
          NothingReadIsMissing(s, kind, now, back, k);
          RollupCountsEverything(s, kind, now, back, k);
        }
    }
  }

  lemma {:induction false} RunKeepsSound(s: State, events: seq<Event>)
    requires Sound(s) && AllowedRun(s, events)
    ensures Sound(Run(s, events))
  {
    if events != [] {
      var n := |events| - 1;
      RunKeepsSound(s, events[..n]);
      StepKeepsSound(Run(s, events[..n]), events[n]);
    }
  }

  // ---------------------------------------------------------------------------
  // What a run promises
  // ---------------------------------------------------------------------------

  /** In every run, a rollup writes the number of rows ever logged for each group it touches. */
  lemma {:induction false} EveryRollupIsTrue(cut: int, events: seq<Event>, k: Key)
    requires AllowedRun(Begin(cut), events) && events != [] && events[|events| - 1].Rollup?
    requires k.kind == events[|events| - 1].kind
    requires var s, e := Run(Begin(cut), events), events[|events| - 1];
      k in Groups(s.raw, e.kind, Start(s.raw, e.kind, e.now, e.back))
    ensures Counted(Run(Begin(cut), events), k)
  {
    var n := |events| - 1;
    RunKeepsSound(Begin(cut), events[..n]);
    RollupCountsEverything(Run(Begin(cut), events[..n]), events[n].kind, events[n].now, events[n].back, k);
  }

  /** A stored total is never lost and never decreases, and stays what it is once it counts every row of its
      group and no further row of it is logged. */
  lemma {:induction false} StepKeepsTotals(s: State, e: Event, k: Key)
    requires Sound(s) && Allowed(s, e) && k in s.sums
    ensures k in Next(s, e).sums && s.sums[k] <= Next(s, e).sums[k]
    ensures Counted(s, k) && !Logs(e, k) ==> Counted(Next(s, e), k) && Next(s, e).sums[k] == s.sums[k]
  {
    match e
    case LogRow(id, row) => LoggingGrows(s.log, id, row, k);
    case Prune(_) =>
    case Batches(_, _) =>
    case Rollup(kind, now, back) =>
      if k in Groups(s.raw, kind, Start(s.raw, kind, now, back)) {
        RollupCountsEverything(s, kind, now, back, k);
      }
  }

  predicate Logs(e: Event, k: Key) {
    e.LogRow? && KeyOf(k.kind, e.row) == Some(k)
  }

  lemma {:induction false} TotalsNeverDecrease(s: State, events: seq<Event>, k: Key)
    requires Sound(s) && AllowedRun(s, events) && k in s.sums
    ensures k in Run(s, events).sums && s.sums[k] <= Run(s, events).sums[k]
  {
    if events != [] {
      var n := |events| - 1;
      TotalsNeverDecrease(s, events[..n], k);
      RunKeepsSound(s, events[..n]);
      StepKeepsTotals(Run(s, events[..n]), events[n], k);
    }
  }

  predicate NeverLogged(events: seq<Event>, k: Key) {
    forall i | 0 <= i < |events| :: !Logs(events[i], k)
  }

  lemma {:induction false} NeverLoggedPrefix(events: seq<Event>, k: Key)
    requires events != [] && NeverLogged(events, k)
    ensures NeverLogged(events[..|events| - 1], k) && !Logs(events[|events| - 1], k)
  {
  }

  lemma {:induction false} TrueTotalsAreFinal(s: State, events: seq<Event>, k: Key)
    requires Sound(s) && AllowedRun(s, events) && Counted(s, k) && NeverLogged(events, k)
    ensures Counted(Run(s, events), k) && Run(s, events).sums[k] == s.sums[k]
  {
    if events != [] {
      var n := |events| - 1;
      NeverLoggedPrefix(events, k);
      TrueTotalsAreFinal(s, events[..n], k);
      RunKeepsSound(s, events[..n]);
      StepKeepsTotals(Run(s, events[..n]), events[n], k);
    }
  }

  /** Of the groups with rows left in the window, a rollup covers exactly those whose period does not begin
      before the oldest row. */
  lemma {:induction false} CoveredExactly(rows: Rows, kind: Kind, now: int, back: nat, k: Key)
    requires k.kind == kind && Members(rows, k) != {} && k.period >= WindowStart(kind, now, back)
    ensures k in Groups(rows, kind, Start(rows, kind, now, back)) <==> Oldest(rows).value <= k.period
  {
    var start := Start(rows, kind, now, back);
    StartIsWhole(rows, kind, now, back);
    forall id | id in Members(rows, k)
      ensures Aligned(k.period, kind) && (rows[id].at >= start <==> k.period >= start)
    {
      FloorAligned(rows[id].at, start, kind);
    }
    var id :| id in Members(rows, k);
    assert rows[id].at >= start <==> k.period >= start;
    if k in Groups(rows, kind, start) {
      var other :| other in rows && rows[other].at >= start && KeyOf(kind, rows[other]) == Some(k);
      assert other in Members(rows, k);
    }
  }

  lemma {:induction false} WindowIsCounted(s: State, now: int, back: nat, k: Key)
    requires Sound(s) && Safe(s, k.kind, now, back) && Members(s.raw, k) != {}
    requires k.period >= WindowStart(k.kind, now, back) && Oldest(s.raw).value <= k.period
    ensures k in Groups(s.raw, k.kind, Start(s.raw, k.kind, now, back))
    ensures Counted(Next(s, Rollup(k.kind, now, back)), k)
  {
    CoveredExactly(s.raw, k.kind, now, back, k);
    RollupCountsEverything(s, k.kind, now, back, k);
  }

  /** A period is only ever summarised when some row was logged at or before its first instant: the partial
      period in which logging began never gets a summary, however long its rows are kept. */
  lemma {:induction false} FirstPartialPeriodIsNeverSummarised(cut: int, events: seq<Event>, k: Key)
    requires AllowedRun(Begin(cut), events) && k in Run(Begin(cut), events).sums
    ensures ReachesBack(Run(Begin(cut), events).log, k.period)
  {
    RunKeepsSound(Begin(cut), events);
  }

  // ---------------------------------------------------------------------------
  // What a summary row counts
  // ---------------------------------------------------------------------------

  /** The row was logged for this host, in this period, and for `Geo` from this country. */
  predicate Belongs(row: Row, kind: Kind, host: Option<Host>, period: int, country: string) {
    && row.host == host && period <= row.at < period + Step(kind)
    && (kind == Geo ==> row.country == Some(country))
  }

  /** The summary row of a host and period, and for `Geo` of a country. */
  function SummaryOf(kind: Kind, host: Option<Host>, period: int, country: string): Key {
    Key(kind, host, period, if kind == Geo then Some(country) else None)
  }

  function RowsOf(log: Rows, kind: Kind, host: Option<Host>, period: int, country: string): set<nat> {
    set id | id in log && Belongs(log[id], kind, host, period, country)
  }

  lemma {:induction false} PeriodOf(t: int, period: int, kind: Kind)
    requires Aligned(period, kind)
    ensures Floor(t, Step(kind)) == period <==> period <= t < period + Step(kind)
  {
    FloorAligned(t, period, kind);
    NextPeriod(Floor(t, Step(kind)), period, kind);
  }

  /** The group of a row is that of its host and period, and for `Geo` of its country. */
  lemma {:induction false} KeyOfExactly(row: Row, kind: Kind, host: Option<Host>, period: int, country: string)
    requires Aligned(period, kind) && (kind == Geo ==> country != "")
    ensures KeyOf(kind, row) == Some(SummaryOf(kind, host, period, country)) <==> Belongs(row, kind, host, period, country)
  {
    PeriodOf(row.at, period, kind);
  }

  /** Some row that an aggregation from `start` on reads belongs to the host and period (and country). */
  predicate Reads(rows: Rows, start: int, kind: Kind, host: Option<Host>, period: int, country: string) {
    exists id | id in rows :: rows[id].at >= start && Belongs(rows[id], kind, host, period, country)
  }

  /** The total that a safe rollup stores for a host and period (and country) it reads a row of is the number of
      rows ever logged for that host in that period (from that country). */
  lemma {:induction false} StoredTotalExactly(s: State, kind: Kind, now: int, back: nat, host: Option<Host>,
                                              period: int, country: string)
    requires Sound(s) && Safe(s, kind, now, back) && Aligned(period, kind) && (kind == Geo ==> country != "")
    requires Reads(s.raw, Start(s.raw, kind, now, back), kind, host, period, country)
    ensures var t, k := Next(s, Rollup(kind, now, back)), SummaryOf(kind, host, period, country);
      k in t.sums && t.sums[k] == |RowsOf(s.log, kind, host, period, country)|
  {
    var k, start := SummaryOf(kind, host, period, country), Start(s.raw, kind, now, back);
    var id :| id in s.raw && s.raw[id].at >= start && Belongs(s.raw[id], kind, host, period, country);
    KeyOfExactly(s.raw[id], kind, host, period, country);
    RowIsInGroup(s.raw, kind, start, id);
    RollupCountsEverything(s, kind, now, back, k);
    MembersAreRows(s.log, kind, host, period, country);
  }

  lemma {:induction false} MembersAreRows(log: Rows, kind: Kind, host: Option<Host>, period: int, country: string)
    requires Aligned(period, kind) && (kind == Geo ==> country != "")
    ensures Members(log, SummaryOf(kind, host, period, country)) == RowsOf(log, kind, host, period, country)
  {
    var k := SummaryOf(kind, host, period, country);
    forall id | id in log ensures KeyOf(kind, log[id]) == Some(k) <==> Belongs(log[id], kind, host, period, country) {
      KeyOfExactly(log[id], kind, host, period, country);
    }
  }

  /** Every row from the start of the aggregation on gets into a summary: the one of its host and period, and for
      `Geo`, if it has a country, of that. */
  lemma {:induction false} EveryRowIsSummarised(s: State, kind: Kind, now: int, back: nat, id: nat, period: int)
    requires Sound(s) && Safe(s, kind, now, back) && Aligned(period, kind)
    requires id in s.raw && s.raw[id].at >= Start(s.raw, kind, now, back) && period <= s.raw[id].at < period + Step(kind)
    requires kind == Geo ==> s.raw[id].country != None && s.raw[id].country != Some("")
    ensures var row := s.raw[id];
      var country := if row.country == None then "" else row.country.value;
      var t, k := Next(s, Rollup(kind, now, back)), SummaryOf(kind, row.host, period, country);
      k in t.sums && t.sums[k] == |RowsOf(s.log, kind, row.host, period, country)|
  {
    var row := s.raw[id];
    var country := if row.country == None then "" else row.country.value;
    assert Reads(s.raw, Start(s.raw, kind, now, back), kind, row.host, period, country);
    StoredTotalExactly(s, kind, now, back, row.host, period, country);
  }

  lemma {:induction false} RowIsInGroup(rows: Rows, kind: Kind, start: int, id: nat)
    requires id in rows && rows[id].at >= start && KeyOf(kind, rows[id]).Some?
    ensures KeyOf(kind, rows[id]).value in Groups(rows, kind, start)
  {
  }

  /** The summary row is the one the logged row counts for. */
  predicate CountsFor(row: Row, kind: Kind, k: Key) {
    && k.kind == kind && k.host == row.host && k.period <= row.at < k.period + Step(kind)
    && k.country == (if kind == Geo then row.country else None)
    && (kind == Geo ==> k.country != None && k.country != Some(""))
  }

  /** And only such rows: a total that a rollup changes is that of a row from the start on. */
  lemma {:induction false} OnlyRowsAreSummarised(s: State, kind: Kind, now: int, back: nat, k: Key)
    requires k in Next(s, Rollup(kind, now, back)).sums
    requires k in s.sums ==> Next(s, Rollup(kind, now, back)).sums[k] != s.sums[k]
    ensures exists id | id in s.raw :: s.raw[id].at >= Start(s.raw, kind, now, back) && CountsFor(s.raw[id], kind, k)
  {
    var id :| id in s.raw && s.raw[id].at >= Start(s.raw, kind, now, back) && KeyOf(kind, s.raw[id]) == Some(k);
    FloorAligned(s.raw[id].at, 0, kind);
    assert CountsFor(s.raw[id], kind, k);
  }

  /** The window of `back` periods starts with the period that `now` was in so many periods before. */
  lemma {:induction false} WindowStartExactly(kind: Kind, now: int, back: nat)
    ensures Aligned(WindowStart(kind, now, back), kind)
    ensures WindowStart(kind, now, back) <= now - back * Step(kind) < WindowStart(kind, now, back) + Step(kind)
  {
    FloorAligned(now - back * Step(kind), 0, kind);
  }

  // ---------------------------------------------------------------------------
  // The hourly pass and the backfill at start-up
  // ---------------------------------------------------------------------------

  /** The three rollups in a row, each with its own clock reading. */
  function RollUp(at: Kind -> int, hours: nat, days: nat): seq<Event> {
    [Rollup(Hourly, at(Hourly), hours), Rollup(Daily, at(Daily), days), Rollup(Geo, at(Geo), days)]
  }

  function Back(kind: Kind, hours: nat, days: nat): nat { if kind == Hourly then hours else days }

  /** What a pass does about old rows: nothing, a prune that finishes, or one that fails on the way. */
  datatype Pruning = Off | Finished(days: int) | Failed(days: int, gone: set<nat>)

  function PruneStep(now: int, pruning: Pruning): seq<Event> {
    match pruning
    case Off => []
    case Finished(days) => [Prune(now - days * DAY)]
    case Failed(days, gone) => [Batches(now - days * DAY, gone)]
  }

  /** One pass of the retention loop: the rollups, then the prune. */
  function Pass(at: Kind -> int, now: int, pruning: Pruning): seq<Event> {
    RollUp(at, 3, 2) + PruneStep(now, pruning)
  }

  /** After the rollups every group of the window that has rows left has its true total, unless its period
      begins before the oldest row. */
  lemma {:induction false} RollUpCounts(s: State, at: Kind -> int, hours: nat, days: nat, k: Key)
    requires Sound(s) && Safe(s, k.kind, at(k.kind), Back(k.kind, hours, days)) && Members(s.raw, k) != {}
    requires k.period >= WindowStart(k.kind, at(k.kind), Back(k.kind, hours, days)) && Oldest(s.raw).value <= k.period
    ensures Counted(Run(s, RollUp(at, hours, days)), k)
  {
    WindowIsCounted(s, at(k.kind), Back(k.kind, hours, days), k);
    RollUpUnfolds(s, at, hours, days);
    var h := Next(s, Rollup(Hourly, at(Hourly), hours));
    var d := Next(h, Rollup(Daily, at(Daily), days));
    if k.kind == Hourly {
      OtherKindsStay(h, Daily, at(Daily), days, k);
      OtherKindsStay(d, Geo, at(Geo), days, k);
    } else if k.kind == Daily {
      RollupIgnoresSums(s, h, Daily, at(Daily), days, k);
      OtherKindsStay(d, Geo, at(Geo), days, k);
    } else {
      RollupIgnoresSums(s, d, Geo, at(Geo), days, k);
    }
  }

  /** Summarising comes first: after a pass every such group has its true total, the rows the pass removed
      included. */
  lemma {:induction false} PassCountsBeforePruning(s: State, at: Kind -> int, now: int, pruning: Pruning, k: Key)
    requires Sound(s) && Safe(s, k.kind, at(k.kind), Back(k.kind, 3, 2)) && Members(s.raw, k) != {}
    requires k.period >= WindowStart(k.kind, at(k.kind), Back(k.kind, 3, 2)) && Oldest(s.raw).value <= k.period
    ensures Counted(Run(s, Pass(at, now, pruning)), k)
  {
    RollUpCounts(s, at, 3, 2, k);
    PassUnfolds(s, at, now, pruning);
  }

  lemma {:induction false} PassUnfolds(s: State, at: Kind -> int, now: int, pruning: Pruning)
    ensures var t := Run(s, RollUp(at, 3, 2));
      Run(s, Pass(at, now, pruning)) == if pruning.Off? then t else Next(t, PruneStep(now, pruning)[0])
  {
    var all := Pass(at, now, pruning);
    if pruning.Off? { assert all == RollUp(at, 3, 2); } else { assert all[..|all| - 1] == RollUp(at, 3, 2); }
  }

  lemma {:induction false} OtherKindsStay(s: State, kind: Kind, now: int, back: nat, k: Key)
    requires k.kind != kind && k in s.sums
    ensures var t := Next(s, Rollup(kind, now, back)); k in t.sums && t.sums[k] == s.sums[k]
  {
    assert k !in Groups(s.raw, kind, Start(s.raw, kind, now, back));
  }

  lemma {:induction false} RollupIgnoresSums(s: State, t: State, kind: Kind, now: int, back: nat, k: Key)
    requires s.raw == t.raw && k in Groups(s.raw, kind, Start(s.raw, kind, now, back))
    ensures k in Next(t, Rollup(kind, now, back)).sums
    ensures Next(t, Rollup(kind, now, back)).sums[k] == Next(s, Rollup(kind, now, back)).sums[k]
  {
  }

  lemma {:induction false} RollUpUnfolds(s: State, at: Kind -> int, hours: nat, days: nat)
    ensures Run(s, RollUp(at, hours, days)) == Next(Next(Next(s, Rollup(Hourly, at(Hourly), hours)),
                                                         Rollup(Daily, at(Daily), days)), Rollup(Geo, at(Geo), days))
  {
    var three := RollUp(at, hours, days);
    assert three[..2][..1] == [Rollup(Hourly, at(Hourly), hours)];
    assert three[..2] == [Rollup(Hourly, at(Hourly), hours), Rollup(Daily, at(Daily), days)];
    assert Run(s, three[..2][..1]) == Next(s, Rollup(Hourly, at(Hourly), hours));
    assert Run(s, three[..2]) == Next(Run(s, three[..2][..1]), Rollup(Daily, at(Daily), days));
  }

  /** The newest day (counted from the epoch) that has a daily summary. */
  predicate IsNewestDay(sums: map<Key, nat>, day: int) {
    && (exists k | k in sums :: k.kind == Daily && k.period == day * DAY)
    && forall k | k in sums && k.kind == Daily :: k.period <= day * DAY
  }

  /** How many days the start-up backfill goes back. */
  function BackfillDays(newest: Option<int>, today: int): nat {
    if newest == None then 90
    else
      var gap := today - newest.value;
      var capped := if gap + 1 < 90 then gap + 1 else 90;
      if capped < 2 then 2 else capped
  }

  /** A window of that many days, taken when the date is `later`, reaches the newest summarised day exactly
      when that day is at most two days back, or at most 90 with at most one midnight in between. */
  lemma {:induction false} BackfillReachesExactly(newest: int, today: int, later: int)
    requires today <= later
    ensures later - BackfillDays(Some(newest), today) <= newest
       <==> later - newest <= 2 || (later - newest <= 90 && later <= today + 1)
  {
  }

  lemma {:induction false} WindowStartsOnDay(now: int, back: nat)
    ensures WindowStart(Daily, now, back) == (now / DAY - back) * DAY
  {
    assert now - back * DAY == (now / DAY - back) * DAY + now % DAY;
  }

  lemma {:induction false} BackfillWindow(newest: int, today: int, now: int)
    requires today <= now / DAY <= today + 1 && now / DAY - newest <= 90
    ensures WindowStart(Daily, now, BackfillDays(Some(newest), today)) <= newest * DAY
  {
    BackfillReachesExactly(newest, today, now / DAY);
    WindowStartsOnDay(now, BackfillDays(Some(newest), today));
  }

  /** After a gap of at most 90 days the backfill recounts every day from the newest summarised one on, so
      nothing that was logged around the stop or since is missing from the daily and per-country summaries. */
  lemma {:induction false} BackfillCatchesUp(s: State, newest: int, today: int, at: Kind -> int, k: Key)
    requires Sound(s) && Safe(s, k.kind, at(k.kind), BackfillDays(Some(newest), today))
    requires IsNewestDay(s.sums, newest) && k.kind != Hourly
    requires today <= at(k.kind) / DAY <= today + 1 && at(k.kind) / DAY - newest <= 90
    requires k.period >= newest * DAY && Members(s.raw, k) != {} && Oldest(s.raw).value <= k.period
    ensures Counted(Run(s, RollUp(at, 72, BackfillDays(Some(newest), today))), k)
  {
    BackfillWindow(newest, today, at(k.kind));
    RollUpCounts(s, at, 72, BackfillDays(Some(newest), today), k);
  }

  // ---------------------------------------------------------------------------
  // What the passes remove has been counted
  // ---------------------------------------------------------------------------

  /** The retention loop with the logging around it; `last` is the clock reading of its latest pass. */
  datatype Loop = Loop(tables: State, last: int)

  datatype Turn = Logged(id: nat, row: Row) | Passed(at: Kind -> int, now: int, pruning: Pruning)

  ghost function TakeTurn(l: Loop, t: Turn): Loop {
    match t
    case Logged(id, row) => l.(tables := Next(l.tables, LogRow(id, row)))
    case Passed(at, now, pruning) => Loop(Run(l.tables, Pass(at, now, pruning)), now)
  }

  /** Rows are not older than the latest pass; passes follow each other within the window of `kind`; every prune
      keeps at least `days` days, and one that fails at least three. */
  predicate Regular(l: Loop, t: Turn, kind: Kind, days: int) {
    match t
    case Logged(id, row) => id !in l.tables.log && row.at >= l.last
    case Passed(at, now, pruning) =>
      && l.last <= at(Hourly) <= now && l.last <= at(Daily) <= now && l.last <= at(Geo) <= now
      && now - l.last <= Back(kind, 3, 2) * Step(kind)
      && (pruning != Off ==> pruning.days >= days)
      && (pruning.Failed? ==> days >= 3 && pruning.gone <= Expired(l.tables.raw, now - pruning.days * DAY))
  }

  ghost function Turns(l: Loop, turns: seq<Turn>): Loop {
    if turns == [] then l else TakeTurn(Turns(l, turns[..|turns| - 1]), turns[|turns| - 1])
  }

  ghost predicate RegularTurns(l: Loop, turns: seq<Turn>, kind: Kind, days: int) {
    turns == [] ||
    (var n := |turns| - 1; RegularTurns(l, turns[..n], kind, days) && Regular(Turns(l, turns[..n]), turns[n], kind, days))
  }

  /** Some row was logged in the stretch before the period's start that no prune can have emptied by its end. */
  ghost predicate Continued(log: Rows, k: Key, days: int) {
    exists id | id in log :: k.period + Step(k.kind) - days * DAY <= log[id].at <= k.period
  }

  /** The period had rows, is over, and follows no silence as long as the retention. */
  ghost predicate Due(l: Loop, k: Key, days: int) {
    Members(l.tables.log, k) != {} && k.period + Step(k.kind) <= l.last && Continued(l.tables.log, k, days)
  }

  ghost predicate UpToDate(l: Loop, kind: Kind, days: int) {
    && Sound(l.tables) && l.tables.reach <= l.last - days * DAY
    && (days >= 3 || l.tables.reach <= l.tables.cut)
    && forall k: Key | k.kind == kind && Due(l, k, days) :: Counted(l.tables, k)
  }

  lemma {:induction false} PassIsSafe(l: Loop, at: Kind -> int, days: int, kind: Kind)
    requires l.tables.reach <= l.last - days * DAY && (days >= 3 || l.tables.reach <= l.tables.cut)
    requires l.last <= at(kind)
    ensures Safe(l.tables, kind, at(kind), Back(kind, 3, 2))
  {
    if days >= 3 {
      WindowFollows(kind, Back(kind, 3, 2), days, l.last, at(kind));
    }
  }

  lemma {:induction false} RollUpKeepsSound(s: State, at: Kind -> int)
    requires Sound(s)
    requires forall kind: Kind :: Safe(s, kind, at(kind), Back(kind, 3, 2))
    ensures var t := Run(s, RollUp(at, 3, 2));
      Sound(t) && t.raw == s.raw && t.log == s.log && t.cut == s.cut && t.reach == s.reach
  {
    RollUpUnfolds(s, at, 3, 2);
    var h := Next(s, Rollup(Hourly, at(Hourly), 3));
    var d := Next(h, Rollup(Daily, at(Daily), 2));
    assert Safe(s, Hourly, at(Hourly), 3) && Safe(s, Daily, at(Daily), 2) && Safe(s, Geo, at(Geo), 2);
    StepKeepsSound(s, Rollup(Hourly, at(Hourly), 3));
    StepKeepsSound(h, Rollup(Daily, at(Daily), 2));
    StepKeepsSound(d, Rollup(Geo, at(Geo), 2));
  }

  lemma {:induction false} RollUpKeepsCounted(s: State, at: Kind -> int, k: Key)
    requires Sound(s) && Counted(s, k)
    requires forall kind: Kind :: Safe(s, kind, at(kind), Back(kind, 3, 2))
    ensures Counted(Run(s, RollUp(at, 3, 2)), k)
  {
    RollUpUnfolds(s, at, 3, 2);
    var h := Next(s, Rollup(Hourly, at(Hourly), 3));
    var d := Next(h, Rollup(Daily, at(Daily), 2));
    assert Safe(s, Hourly, at(Hourly), 3) && Safe(s, Daily, at(Daily), 2) && Safe(s, Geo, at(Geo), 2);
    StepKeepsSound(s, Rollup(Hourly, at(Hourly), 3));
    StepKeepsSound(h, Rollup(Daily, at(Daily), 2));
    StepKeepsTotals(s, Rollup(Hourly, at(Hourly), 3), k);
    StepKeepsTotals(h, Rollup(Daily, at(Daily), 2), k);
    StepKeepsTotals(d, Rollup(Geo, at(Geo), 2), k);
  }

  /** A period that ended since the latest pass still has all its rows, and lies in the window. */
  lemma {:induction false} NewlyDue(l: Loop, at: Kind -> int, now: int, kind: Kind, days: int, k: Key)
    requires UpToDate(l, kind, days) && k.kind == kind && days >= 1
    requires l.last <= at(kind) <= now && now - l.last <= Back(kind, 3, 2) * Step(kind)
    requires Members(l.tables.log, k) != {} && l.last < k.period + Step(kind) && Continued(l.tables.log, k, days)
    ensures Counted(Run(l.tables, RollUp(at, 3, 2)), k)
  {
    var s := l.tables;
    PassIsSafe(l, at, days, kind);
    var member :| member in Members(s.log, k);
    FloorAligned(s.log[member].at, 0, kind);
    assert member in s.raw && member in Members(s.raw, k);
    var before :| before in s.log && k.period + Step(kind) - days * DAY <= s.log[before].at <= k.period;
    assert before in s.raw && IsOldest(s.raw, Oldest(s.raw).value);
    assert Oldest(s.raw).value <= s.raw[before].at;
    InWindow(k.period, at(kind), now, l.last, kind);
    RollUpCounts(s, at, 3, 2, k);
  }

  lemma {:induction false} InWindow(period: int, at: int, now: int, last: int, kind: Kind)
    requires Aligned(period, kind) && at <= now && now - last <= Back(kind, 3, 2) * Step(kind)
    requires last < period + Step(kind)
    ensures period >= WindowStart(kind, at, Back(kind, 3, 2))
  {
    var t := at - Back(kind, 3, 2) * Step(kind);
    assert t < period + Step(kind);
    FloorAligned(t, 0, kind);
    NextPeriod(Floor(t, Step(kind)), period, kind);
  }

  lemma {:induction false} PassKeepsUpToDate(l: Loop,
                                             at: Kind -> int, now: int, pruning: Pruning, kind: Kind, days: int)
    requires UpToDate(l, kind, days) && days >= 1 && Regular(l, Passed(at, now, pruning), kind, days)
    ensures UpToDate(TakeTurn(l, Passed(at, now, pruning)), kind, days)
  {
    var s, mid := l.tables, Run(l.tables, RollUp(at, 3, 2));
    forall other: Kind ensures Safe(s, other, at(other), Back(other, 3, 2)) {
      assert other == Hourly || other == Daily || other == Geo;
      PassIsSafe(l, at, days, other);
    }
    RollUpKeepsSound(s, at);
    forall k: Key | k.kind == kind && Members(s.log, k) != {} && k.period + Step(kind) <= now && Continued(s.log, k, days)
      ensures Counted(mid, k)
    {
      if k.period + Step(kind) <= l.last {
        assert Due(l, k, days);
        RollUpKeepsCounted(s, at, k);
      } else {
        NewlyDue(l, at, now, kind, days, k);
      }
    }
    PassUnfolds(s, at, now, pruning);
    PruneKeepsUpToDate(mid, l.last, now, pruning, kind, days);
  }

  lemma {:induction false} PruneKeepsUpToDate(mid: State, last: int, now: int, pruning: Pruning, kind: Kind, days: int)
    requires Sound(mid) && mid.reach <= last - days * DAY && last <= now && (days >= 3 || mid.reach <= mid.cut)
    requires pruning != Off ==> pruning.days >= days
    requires pruning.Failed? ==> days >= 3 && pruning.gone <= Expired(mid.raw, now - pruning.days * DAY)
    requires forall k: Key | k.kind == kind && Due(Loop(mid, now), k, days) :: Counted(mid, k)
    ensures UpToDate(Loop(if pruning.Off? then mid else Next(mid, PruneStep(now, pruning)[0]), now), kind, days)
  {
    if !pruning.Off? {
      var e := PruneStep(now, pruning)[0];
      var t := Next(mid, e);
      StepKeepsSound(mid, e);
      assert pruning.days * DAY >= days * DAY;
      forall k: Key | k.kind == kind && Due(Loop(t, now), k, days) ensures Counted(t, k) {
        assert Due(Loop(mid, now), k, days);
      }
    }
  }

  /** A new row belongs to no period that is over, and starts none. */
  lemma {:induction false} DueBefore(l: Loop, id: nat, row: Row, days: int, k: Key)
    requires id !in l.tables.log && row.at >= l.last
    requires Due(TakeTurn(l, Logged(id, row)), k, days)
    ensures Due(l, k, days) && KeyOf(k.kind, row) != Some(k)
  {
    var log := l.tables.log[id := row];
    FloorAligned(row.at, 0, k.kind);
    assert KeyOf(k.kind, row) != Some(k);
    assert Members(log, k) == Members(l.tables.log, k);
    var before :| before in log && k.period + Step(k.kind) - days * DAY <= log[before].at <= k.period;
    assert before in l.tables.log;
  }

  lemma {:induction false} LogKeepsUpToDate(l: Loop, id: nat, row: Row, kind: Kind, days: int)
    requires UpToDate(l, kind, days) && days >= 1 && Regular(l, Logged(id, row), kind, days)
    ensures UpToDate(TakeTurn(l, Logged(id, row)), kind, days)
  {
    var m := TakeTurn(l, Logged(id, row));
    StepKeepsSound(l.tables, LogRow(id, row));
    forall k: Key | k.kind == kind && Due(m, k, days) ensures Counted(m.tables, k) {
      DueBefore(l, id, row, days, k);
      StepKeepsTotals(l.tables, LogRow(id, row), k);
    }
  }

  lemma {:induction false} TurnsKeepUpToDate(l: Loop, turns: seq<Turn>, kind: Kind, days: int)
    requires UpToDate(l, kind, days) && days >= 1 && RegularTurns(l, turns, kind, days)
    ensures UpToDate(Turns(l, turns), kind, days)
  {
    if turns != [] {
      var n := |turns| - 1;
      TurnsKeepUpToDate(l, turns[..n], kind, days);
      match turns[n]
      case Logged(id, row) => LogKeepsUpToDate(Turns(l, turns[..n]), id, row, kind, days);
      case Passed(at, now, pruning) => PassKeepsUpToDate(Turns(l, turns[..n]), at, now, pruning, kind, days);
    }
  }

  /** Over any regular run of logging and passes, every row that a prune removes, finished or not, belongs to a
      group whose stored total is the true one at that moment, or whose period follows a silence as long as the
      retention (as the period does in which logging begins). */
  lemma {:induction false} RemovedRowsAreCounted(clock: int, cut: int, turns: seq<Turn>, kind: Kind, days: int,
                                                 id: nat, k: Key)
    requires days >= 1 && cut <= clock - days * DAY
    requires RegularTurns(Loop(Begin(cut), clock), turns, kind, days) && turns != []
    requires var l := Turns(Loop(Begin(cut), clock), turns[..|turns| - 1]);
      id in l.tables.raw && k.kind == kind && KeyOf(kind, l.tables.raw[id]) == Some(k)
    requires id !in Turns(Loop(Begin(cut), clock), turns).tables.raw
    ensures var l := Turns(Loop(Begin(cut), clock), turns);
      Counted(l.tables, k) || !Continued(l.tables.log, k, days)
  {
    var start, n := Loop(Begin(cut), clock), |turns| - 1;
    var l, m := Turns(start, turns[..n]), Turns(start, turns);
    TurnsKeepUpToDate(start, turns[..n], kind, days);
    TurnsKeepUpToDate(start, turns, kind, days);
    RemovedRowIsOld(l, turns[n], kind, days, id);
    FloorAligned(l.tables.raw[id].at, 0, kind);
    assert id in Members(m.tables.log, k);
    assert Continued(m.tables.log, k, days) ==> Due(m, k, days);
  }

  lemma {:induction false} RemovedRowIsOld(l: Loop, t: Turn, kind: Kind, days: int, id: nat)
    requires UpToDate(l, kind, days) && days >= 1 && Regular(l, t, kind, days)
    requires id in l.tables.raw && id !in TakeTurn(l, t).tables.raw
    ensures t.Passed? && id in TakeTurn(l, t).tables.log && TakeTurn(l, t).tables.log[id] == l.tables.raw[id]
    ensures l.tables.raw[id].at < TakeTurn(l, t).last - days * DAY
  {
    if t.Passed? {
      var at, now, pruning := t.at, t.now, t.pruning;
      forall other: Kind ensures Safe(l.tables, other, at(other), Back(other, 3, 2)) {
        assert other == Hourly || other == Daily || other == Geo;
        PassIsSafe(l, at, days, other);
      }
      RollUpKeepsSound(l.tables, at);
      PassUnfolds(l.tables, at, now, pruning);
      if !pruning.Off? { assert pruning.days * DAY >= days * DAY; }
    }
  }

  // ---------------------------------------------------------------------------
  // A prune that stops half way
  // ---------------------------------------------------------------------------

  /** With a retention longer than the window and one period more, a later window never reaches back to a cutoff. */
  lemma {:induction false} WindowFollows(kind: Kind, back: nat, days: int, now: int, later: int)
    requires days * DAY >= (back + 1) * Step(kind) && now <= later
    ensures now - days * DAY <= WindowStart(kind, later, back)
  {
    FloorAligned(later - back * Step(kind), 0, kind);
  }

  /** The cutoff that a retention of `days` days has at `now` lies inside the window of a rollup at `later`. */
  predicate Inside(kind: Kind, back: nat, days: int, now: int, later: int) {
    now - days * DAY > WindowStart(kind, later, back)
  }

  ghost predicate NeverInside(kind: Kind, back: nat, days: int) {
    forall now: int, later: int | now <= later :: !Inside(kind, back, days, now, later)
  }

  lemma {:induction false} NeverInsideExactly(kind: Kind, back: nat, days: int)
    ensures NeverInside(kind, back, days) <==> days * DAY >= (back + 1) * Step(kind)
  {
    if days * DAY >= (back + 1) * Step(kind) {
      forall now: int, later: int | now <= later ensures !Inside(kind, back, days, now, later) {
        WindowFollows(kind, back, days, now, later);
      }
    } else {
      JustInside(kind, back, days);
    }
  }

  /** At the last instant of a period the window begins furthest back. */
  lemma {:induction false} JustInside(kind: Kind, back: nat, days: int)
    requires days * DAY < (back + 1) * Step(kind)
    ensures Inside(kind, back, days, Step(kind) - 1, Step(kind) - 1)
  {
    var step := Step(kind);
    LastInstant(step, back);
    if kind == Hourly {
      assert step == HOUR && days * DAY == 24 * days * HOUR;
      assert 24 * days < back + 1;
    } else {
      assert step == DAY && days < back + 1;
    }
  }

  lemma {:induction false} LastInstant(step: int, back: nat)
    requires step > 0
    ensures Floor(step - 1 - back * step, step) == 0 - back * step
  {
    var t: int := step - 1 - back * step;
    var q: int := 0 - back;
    assert t == q * step + (step - 1);
    RemainderIs(t, q, step, step - 1);
  }

  /** For the hourly passes that is a retention of three days or more; hourly summaries are out of reach anyway. */
  lemma {:induction false} PassesNeverInsideExactly(days: int)
    requires days >= 1
    ensures NeverInside(Hourly, 3, days)
    ensures NeverInside(Daily, 2, days) <==> days >= 3
    ensures NeverInside(Geo, 2, days) <==> days >= 3
  {
    NeverInsideExactly(Hourly, 3, days);
    NeverInsideExactly(Daily, 2, days);
    NeverInsideExactly(Geo, 2, days);
  }

  /** For the backfill at start-up it is four days or more for the hourly summaries, and more days than the
      backfill goes back for the others. */
  lemma {:induction false} BackfillNeverInsideExactly(back: nat, days: int)
    ensures NeverInside(Hourly, 72, days) <==> days >= 4
    ensures NeverInside(Daily, back, days) <==> days > back
    ensures NeverInside(Geo, back, days) <==> days > back
  {
    NeverInsideExactly(Hourly, 72, days);
    NeverInsideExactly(Daily, back, days);
    NeverInsideExactly(Geo, back, days);
  }

  /** The rollup after a prune that failed after full batches had removed `gone` gets the total of `k` right, if
      it writes one. */
  ghost predicate RightAfter(s: State, cutoff: int, gone: set<nat>, kind: Kind, now: int, back: nat, k: Key) {
    gone <= Expired(s.raw, cutoff) && |gone| % BATCH_SIZE == 0
      && k in Groups(s.raw - gone, kind, Start(s.raw - gone, kind, now, back)) ==>
    Counted(Next(Next(s, Batches(cutoff, gone)), Rollup(kind, now, back)), k)
  }

  /** It does so whatever was logged and pruned before. */
  ghost predicate Harmless(cutoff: int, kind: Kind, now: int, back: nat) {
    forall s: State, gone: set<nat>, k: Key | Sound(s) && s.reach <= s.cut ::
      RightAfter(s, cutoff, gone, kind, now, back, k)
  }

  /** A prune that fails on the way is harmless for a rollup exactly when the rollup's window begins no earlier
      than the prune's cutoff. */
  lemma {:induction false} InterruptedPruneIsHarmlessExactly(cutoff: int, kind: Kind, now: int, back: nat)
    ensures Harmless(cutoff, kind, now, back) <==> cutoff <= WindowStart(kind, now, back)
  {
    if cutoff <= WindowStart(kind, now, back) {
      forall s: State, gone: set<nat>, k: Key | Sound(s) && s.reach <= s.cut
        ensures RightAfter(s, cutoff, gone, kind, now, back, k)
      {
        if gone <= Expired(s.raw, cutoff) && k in Groups(s.raw - gone, kind, Start(s.raw - gone, kind, now, back)) {
          InterruptedPruneIsHarmless(s, cutoff, gone, kind, now, back, k);
        }
      }
    } else {
      RushGoesWrong(BATCH_SIZE, cutoff, kind, now, back);
    }
  }

  lemma {:induction false} InterruptedPruneIsHarmless(s: State, cutoff: int, gone: set<nat>, kind: Kind, now: int,
                                                      back: nat, k: Key)
    requires Sound(s) && s.reach <= s.cut && gone <= Expired(s.raw, cutoff)
    requires cutoff <= WindowStart(kind, now, back)
    requires k in Groups(s.raw - gone, kind, Start(s.raw - gone, kind, now, back))
    ensures Counted(Next(Next(s, Batches(cutoff, gone)), Rollup(kind, now, back)), k)
  {
    StepKeepsSound(s, Batches(cutoff, gone));
    RollupCountsEverything(Next(s, Batches(cutoff, gone)), kind, now, back, k);
  }

  function Ids(n: nat): (ids: set<nat>)
    ensures |ids| == n + 1 && forall i: nat :: i in ids <==> i <= n
  {
    if n == 0 then {0} else Ids(n - 1) + {n}
  }

  /** A batch of `n` requests and one more, all in the first instant of a period. */
  function Rush(n: nat, start: int): State {
    var rows := map i | i in Ids(n) :: Row(None, start, Some("NL"));
    State(rows, rows, map[], start, start)
  }

  function RushKey(kind: Kind, start: int): Key {
    Key(kind, None, start, if kind == Geo then Some("NL") else None)
  }

  function Taken(n: nat): set<nat> { Ids(n) - {0} }

  /** Rows that all lie in the first instant of the window's first period are counted in one group. */
  lemma {:induction false} InstantIsRead(rows: Rows, sums: map<Key, nat>, kind: Kind, start: int, now: int, back: nat)
    requires rows != map[] && forall i | i in rows :: rows[i] == Row(None, start, Some("NL"))
    requires start == WindowStart(kind, now, back)
    ensures RushKey(kind, start) in Groups(rows, kind, Start(rows, kind, now, back))
    ensures var after := Written(rows, sums, kind, Start(rows, kind, now, back));
      RushKey(kind, start) in after && after[RushKey(kind, start)] == |rows|
  {
    FloorAligned(now - back * Step(kind), 0, kind);
    assert IsOldest(rows, Oldest(rows).value);
    assert Start(rows, kind, now, back) == start;
    RushKeyOf(kind, start);
    OneGroup(rows, sums, start, RushKey(kind, start));
  }

  lemma {:induction false} RushKeyOf(kind: Kind, start: int)
    requires Aligned(start, kind)
    ensures KeyOf(kind, Row(None, start, Some("NL"))) == Some(RushKey(kind, start))
  {
    assert Some("NL") != Some("");
  }

  lemma {:induction false} OneGroup(rows: Rows, sums: map<Key, nat>, start: int, k: Key)
    requires rows != map[] && forall i | i in rows :: rows[i].at >= start
    requires forall i | i in rows :: KeyOf(k.kind, rows[i]) == Some(k)
    ensures k in Groups(rows, k.kind, start)
    ensures var after := Written(rows, sums, k.kind, start); k in after && after[k] == |rows|
  {
    var one :| one in rows;
    assert KeyOf(k.kind, rows[one]).value == k;
    assert Read(rows, k, start) == rows.Keys;
    assert |rows| == |rows.Keys|;
  }

  lemma {:induction false} BatchIsTaken(n: nat, cutoff: int, start: int)
    requires start < cutoff
    ensures Sound(Rush(n, start)) && Taken(n) <= Expired(Rush(n, start).raw, cutoff)
    ensures |Taken(n)| == n && |Rush(n, start).raw| == n + 1
    ensures |Rush(n, start).raw - Taken(n)| == 1 && 0 in Rush(n, start).raw - Taken(n)
  {
    var rows := Rush(n, start).raw;
    assert rows.Keys == Ids(n) && |rows| == |rows.Keys|;
    assert (rows - Taken(n)).Keys == {0} && |rows - Taken(n)| == |(rows - Taken(n)).Keys|;
  }

  lemma {:induction false} RushTotal(n: nat, kind: Kind, start: int)
    requires Aligned(start, kind)
    ensures Total(Rush(n, start).log, RushKey(kind, start)) == n + 1
  {
    RushKeyOf(kind, start);
    assert Members(Rush(n, start).log, RushKey(kind, start)) == Ids(n);
  }

  lemma {:induction false} RushIsCounted(n: nat, kind: Kind, now: int, back: nat)
    ensures var s, k := Rush(n, WindowStart(kind, now, back)), RushKey(kind, WindowStart(kind, now, back));
      var before := Next(s, Rollup(kind, now, back));
      Counted(before, k) && before.sums[k] == n + 1
  {
    var start := WindowStart(kind, now, back);
    FloorAligned(now - back * Step(kind), 0, kind);
    BatchIsTaken(n, start + 1, start);
    RushTotal(n, kind, start);
    InstantIsRead(Rush(n, start).raw, map[], kind, start, now, back);
  }

  lemma {:induction false} RestIsRead(n: nat, sums: map<Key, nat>, cutoff: int, kind: Kind, now: int, back: nat)
    ensures var s, k := Rush(n, WindowStart(kind, now, back)).(sums := sums), RushKey(kind, WindowStart(kind, now, back));
      var after := Next(Next(s, Batches(cutoff, Taken(n))), Rollup(kind, now, back));
      && k in Groups(s.raw - Taken(n), kind, Start(s.raw - Taken(n), kind, now, back))
      && k in after.sums && after.sums[k] == 1
  {
    var start := WindowStart(kind, now, back);
    FloorAligned(now - back * Step(kind), 0, kind);
    BatchIsTaken(n, start + 1, start);
    InstantIsRead(Rush(n, start).raw - Taken(n), sums, kind, start, now, back);
  }

  /** Otherwise, with a cutoff that lies `inside` the window, it can do harm. Batches are not taken oldest first: a
      total that a rollup had right becomes 1 after a prune that fails when `n` rows, any number, are gone. */
  lemma {:induction false} InterruptedPruneLosesCounts(n: nat, inside: nat, kind: Kind, now: int, back: nat)
    requires inside > 0
    ensures var s, k := Rush(n, WindowStart(kind, now, back)), RushKey(kind, WindowStart(kind, now, back));
      var cutoff := WindowStart(kind, now, back) + inside;
      var before := Next(s, Rollup(kind, now, back));
      var after := Next(Next(before, Batches(cutoff, Taken(n))), Rollup(kind, now, back));
      && Taken(n) <= Expired(s.raw, cutoff) && |Taken(n)| == n
      && Counted(before, k) && before.sums[k] == n + 1
      && k in after.sums && after.sums[k] == 1
  {
    var start := WindowStart(kind, now, back);
    BatchIsTaken(n, start + inside, start);
    RushIsCounted(n, kind, now, back);
    RestIsRead(n, Next(Rush(n, start), Rollup(kind, now, back)).sums, start + inside, kind, now, back);
  }

  lemma {:induction false} RushIsWrong(n: nat, cutoff: int, kind: Kind, now: int, back: nat)
    requires n > 0
    ensures var s, k := Rush(n, WindowStart(kind, now, back)), RushKey(kind, WindowStart(kind, now, back));
      && k in Groups(s.raw - Taken(n), kind, Start(s.raw - Taken(n), kind, now, back))
      && !Counted(Next(Next(s, Batches(cutoff, Taken(n))), Rollup(kind, now, back)), k)
  {
    var start := WindowStart(kind, now, back);
    FloorAligned(now - back * Step(kind), 0, kind);
    RushTotal(n, kind, start);
    RestIsRead(n, map[], cutoff, kind, now, back);
    assert Next(Next(Rush(n, start), Batches(cutoff, Taken(n))), Rollup(kind, now, back)).log == Rush(n, start).log;
  }

  lemma {:induction false} RushGoesWrong(n: nat, cutoff: int, kind: Kind, now: int, back: nat)
    requires n > 0 && n % BATCH_SIZE == 0 && cutoff > WindowStart(kind, now, back)
    ensures !Harmless(cutoff, kind, now, back)
  {
    var s, k := Rush(n, WindowStart(kind, now, back)), RushKey(kind, WindowStart(kind, now, back));
    BatchIsTaken(n, cutoff, WindowStart(kind, now, back));
    RushIsWrong(n, cutoff, kind, now, back);
    assert !RightAfter(s, cutoff, Taken(n), kind, now, back, k);
  }

  /** A prune with a cutoff that far back is harmless for every later rollup of one kind. */
  ghost predicate NeverHarms(kind: Kind, back: nat, retention: int) {
    forall cutoff: int, later: int | cutoff + retention * DAY <= later :: Harmless(cutoff, kind, later, back)
  }

  lemma {:induction false} NeverHarmsExactly(kind: Kind, back: nat, retention: int)
    ensures NeverHarms(kind, back, retention) <==> NeverInside(kind, back, retention)
  {
    if NeverHarms(kind, back, retention) {
      forall now: int, later: int | now <= later ensures !Inside(kind, back, retention, now, later) {
        assert Harmless(now - retention * DAY, kind, later, back);
        InterruptedPruneIsHarmlessExactly(now - retention * DAY, kind, later, back);
      }
    }
    if NeverInside(kind, back, retention) {
      forall cutoff: int, later: int | cutoff + retention * DAY <= later ensures Harmless(cutoff, kind, later, back) {
        assert !Inside(kind, back, retention, cutoff + retention * DAY, later);
        InterruptedPruneIsHarmlessExactly(cutoff, kind, later, back);
      }
    }
  }

  /** No failed prune ever spoils a total that a later rollup of `hours` and `days` back writes. */
  ghost predicate FailuresHarmless(retention: int, hours: nat, days: nat) {
    NeverHarms(Hourly, hours, retention) && NeverHarms(Daily, days, retention) && NeverHarms(Geo, days, retention)
  }

  lemma {:induction false} FailuresHarmlessExactly(retention: int, hours: nat, days: nat)
    ensures FailuresHarmless(retention, hours, days)
       <==> NeverInside(Hourly, hours, retention) && NeverInside(Daily, days, retention) && NeverInside(Geo, days, retention)
  {
    NeverHarmsExactly(Hourly, hours, retention);
    NeverHarmsExactly(Daily, days, retention);
    NeverHarmsExactly(Geo, days, retention);
  }

  /** For the hourly passes: harmless exactly with a retention of three days or more. */
  lemma {:induction false} PassesHarmlessExactly(retention: int)
    requires retention >= 1
    ensures FailuresHarmless(retention, 3, 2) <==> retention >= 3
  {
    FailuresHarmlessExactly(retention, 3, 2);
    PassesNeverInsideExactly(retention);
  }

  /** For the backfill at start-up: exactly with a retention of four days or more that is longer than the number
      of days it goes back. */
  lemma {:induction false} BackfillHarmlessExactly(retention: int, back: nat)
    ensures FailuresHarmless(retention, 72, back) <==> retention >= 4 && retention > back
  {
    FailuresHarmlessExactly(retention, 72, back);
    BackfillNeverInsideExactly(back, retention);
  }

  /** With a retention of two days it happens two microseconds after midnight, in the very next rollup. */
  lemma {:induction false} TwoDaysCanLoseCounts()
    ensures Inside(Daily, 2, 2, 2 * DAY + 2, 2 * DAY + 2)
    ensures !Harmless(2 * DAY + 2 - 2 * DAY, Daily, 2 * DAY + 2, 2)
  {
    InterruptedPruneIsHarmlessExactly(2, Daily, 2 * DAY + 2, 2);
  }
}
