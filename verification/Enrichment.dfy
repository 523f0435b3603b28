/** Looking addresses up, with as few metered reputation checks as possible. */
module Enrichment {
  import opened Wrappers
  import Spacing

  // Times are seconds since the epoch.
  const HOUR: int := 3600
  const ENRICHMENT_TTL: int := 24 * HOUR
  const ABUSE_CHECK_RETRY_BACKOFF: int := 6 * HOUR
  const ABUSE_RATE_LIMIT_COOLDOWN: int := 6 * HOUR
  const ENRICHMENT_MAX_AGE: int := 7 * 24 * HOUR

  /** An address; only compared. */
  type Ip(==, !new)

  /** The stored row of an address: the free fields, the reputation, and when a reputation answer came. */
  datatype Record = Record(country: Option<string>, score: Option<int>, checkedAt: Option<int>, updated: int)

  /** How the metered check can end: an answer (possibly without a score), quota gone, or any other failure. */
  datatype Reply = Answer(score: Option<int>) | QuotaGone | NoAnswer

  /** One metered check that was sent, between the clock readings at the start and end of its request;
      `boot` numbers the process it was sent from. */
  datatype Check = Check(ip: Ip, forced: bool, reply: Reply, asked: int, answered: int, boot: nat)

  /** What the outside world holds for one request: whether a key is configured, the local blacklist's score if
      it lists the address, the free lookup's country, and what the metered check would reply. */
  datatype World = World(hasKey: bool, listed: Option<int>, country: Option<string>, reply: Reply)

  datatype State = State(records: map<Ip, Record>, limitedUntil: Option<int>, checks: seq<Check>, boot: nat, clock: int)

  datatype Event =
    | Enrich(ip: Ip, force: bool, world: World, asked: int, answered: int)
    | Cleanup(now: int)
    | Restart

  predicate Limited(until: Option<int>, now: int) {
    until.Some? && now < until.value
  }

  function Existing(records: map<Ip, Record>, ip: Ip): Option<Record> {
    if ip in records then Some(records[ip]) else None
  }

  /** A stored record is returned as it is while it is fresh and no reputation check is due. */
  predicate ServedFromStore(existing: Option<Record>, force: bool, hasKey: bool, until: Option<int>, now: int) {
    && existing.Some? && !force
    && var age := now - existing.value.updated;
       var retry := hasKey && existing.value.checkedAt == None && !Limited(until, now) && age >= ABUSE_CHECK_RETRY_BACKOFF;
       age < ENRICHMENT_TTL && !retry
  }

  predicate AsksLive(existing: Option<Record>, world: World, until: Option<int>, now: int) {
    && world.hasKey && world.listed == None
    && (existing == None || existing.value.checkedAt == None)
    && !Limited(until, now)
  }

  /** The answer a request ends up with: from the blacklist, from the live check, or none. */
  function Outcome(existing: Option<Record>, world: World, until: Option<int>, now: int): Option<Option<int>> {
    if AsksLive(existing, world, until, now) then
      if world.reply.Answer? then Some(world.reply.score) else None
    else if world.hasKey && world.listed.Some? then Some(world.listed)
    else None
  }

  function Refreshed(existing: Option<Record>, world: World, outcome: Option<Option<int>>, now: int): Record {
    match outcome
    case Some(score) => Record(world.country, score, Some(now), now)
    case None =>
      if existing.Some? then existing.value.(country := world.country, updated := now)
      else Record(world.country, None, None, now)
  }

  predicate Stale(record: Record, now: int) { record.updated < now - ENRICHMENT_MAX_AGE }

  function Expired(records: map<Ip, Record>, now: int): set<Ip> { set ip | ip in records && Stale(records[ip], now) }

  /** A request that goes past the store. */
  function Fetch(s: State, ip: Ip, force: bool, world: World, asked: int, answered: int): State {
    var existing := Existing(s.records, ip);
    var live := AsksLive(existing, world, s.limitedUntil, asked);
    State(s.records[ip := Refreshed(existing, world, Outcome(existing, world, s.limitedUntil, asked), answered)],
          if live && world.reply.QuotaGone? then Some(answered + ABUSE_RATE_LIMIT_COOLDOWN) else s.limitedUntil,
          if live then s.checks + [Check(ip, force, world.reply, asked, answered, s.boot)] else s.checks,
          s.boot, answered)
  }

  function Next(s: State, e: Event): State {
    match e
    case Enrich(ip, force, world, asked, answered) =>
      if ServedFromStore(Existing(s.records, ip), force, world.hasKey, s.limitedUntil, asked) then s.(clock := answered)
      else Fetch(s, ip, force, world, asked, answered)
    case Cleanup(now) => s.(records := s.records - Expired(s.records, now), clock := now)
    case Restart => s.(limitedUntil := None, boot := s.boot + 1)
  }

  /** The clock never runs backwards. */
  predicate Timely(s: State, e: Event) {
    match e
    case Enrich(_, _, _, asked, answered) => s.clock <= asked <= answered
    case Cleanup(now) => s.clock <= now
    case Restart => true
  }

  function Run(s: State, events: seq<Event>): State {
    if events == [] then s else Next(Run(s, events[..|events| - 1]), events[|events| - 1])
  }

  predicate TimelyRun(s: State, events: seq<Event>) {
    events == [] || (var n := |events| - 1; TimelyRun(s, events[..n]) && Timely(Run(s, events[..n]), events[n]))
  }

  function Begin(clock: int): State { State(map[], None, [], 0, clock) }

  // ---------------------------------------------------------------------------
  // The service
  // ---------------------------------------------------------------------------

  class Enricher {
    var records: map<Ip, Record>
    var limitedUntil: Option<int>
    ghost var checks: seq<Check>
    ghost var boot: nat
    ghost var clock: int

    ghost function Current(): State
      reads this
    {
      State(records, limitedUntil, checks, boot, clock)
    }

    method LookupAbuse(ip: Ip, ghost force: bool, reply: Reply, asked: int, answered: int)
      returns (score: Option<int>, ok: bool)
      modifies this`limitedUntil, this`checks
      ensures Limited(old(limitedUntil), asked) ==>
        !ok && limitedUntil == old(limitedUntil) && checks == old(checks)
      ensures !Limited(old(limitedUntil), asked) ==>
        && checks == old(checks) + [Check(ip, force, reply, asked, answered, boot)]
        && limitedUntil == (if reply.QuotaGone? then Some(answered + ABUSE_RATE_LIMIT_COOLDOWN) else old(limitedUntil))
        && ok == reply.Answer? && (ok ==> score == reply.score)
    {
      score, ok := None, false;
      if Limited(limitedUntil, asked) {
        return;
      }
      checks := checks + [Check(ip, force, reply, asked, answered, boot)];
      match reply
      case Answer(given) => score, ok := given, true;
      case QuotaGone => limitedUntil := Some(answered + ABUSE_RATE_LIMIT_COOLDOWN);
      case NoAnswer =>
    }

    method EnrichIp(ip: Ip, force: bool, world: World, asked: int, answered: int) returns (record: Record)
      modifies this
      ensures Current() == Next(old(Current()), Enrich(ip, force, world, asked, answered))
      ensures ip in records && record == records[ip]
      ensures FromStore(old(Current()), ip, force, world, asked) ==> records == old(records)
      ensures !FromStore(old(Current()), ip, force, world, asked) ==>
        && record.country == world.country && record.updated == answered
        && (world.hasKey && world.listed.Some? ==> record.score == world.listed)
        && (|checks| > |old(checks)| && world.reply.Answer? ==> record.score == world.reply.score)
    {
      ghost var before := Current();
      StoreServesExactly(before, ip, force, world, asked, answered);
      if !FromStore(before, ip, force, world, asked) {
        ScoreIsStoredExactly(before, ip, force, world, asked, answered);
        ChecksAreSentExactly(before, ip, force, world, asked, answered);
      }
      clock := answered;
      var existing := Existing(records, ip);
      if existing.Some? && !force {
        var age := asked - existing.value.updated;
        var retry := world.hasKey && existing.value.checkedAt == None && !Limited(limitedUntil, asked)
                     && age >= ABUSE_CHECK_RETRY_BACKOFF;
        if age < ENRICHMENT_TTL && !retry {
          return existing.value;
        }
      }
      var listed := if world.hasKey then world.listed else None;
      var live := && world.hasKey && listed == None
                  && (existing == None || existing.value.checkedAt == None)
                  && !Limited(limitedUntil, asked);
      var score, ok := None, false;
      if live {
        score, ok := LookupAbuse(ip, force, world.reply, asked, answered);
      } else if listed.Some? {
        score, ok := listed, true;
      }
      if existing.Some? {
        record := existing.value.(country := world.country, updated := answered);
        if ok {
          record := record.(score := score, checkedAt := Some(answered));
        }
      } else {
        record := Record(world.country, if ok then score else None, if ok then Some(answered) else None, answered);
      }
      records := records[ip := record];
    }

    method CleanupStaleEnrichments(now: int) returns (deleted: nat)
      modifies this
      ensures Current() == Next(old(Current()), Cleanup(now))
      ensures deleted == |Expired(old(records), now)|
    {
      clock := now;
      var stale := Expired(records, now);
      records := records - stale;
      deleted := |stale|;
    }
  }

  // ---------------------------------------------------------------------------
  // Runs
  // ---------------------------------------------------------------------------

  /** What a check that was sent leaves behind while its address has a record. */
  predicate Remembered(c: Check, s: State) {
    && c.answered <= s.clock && c.boot <= s.boot
    && (if c.ip in s.records
        then c.answered <= s.records[c.ip].updated
        else c.answered + ENRICHMENT_MAX_AGE < s.clock)
    && (c.reply.Answer? ==>
          || (c.ip in s.records && s.records[c.ip].checkedAt.Some?)
          || c.answered + ENRICHMENT_MAX_AGE < s.clock)
    && (c.reply.QuotaGone? && c.boot == s.boot ==>
          s.limitedUntil.Some? && s.limitedUntil.value >= c.answered + ABUSE_RATE_LIMIT_COOLDOWN)
  }

  /** What two checks, in the order they were sent, keep between them. */
  predicate Apart(first: Check, second: Check) {
    && first.answered <= second.asked
    && (first.ip == second.ip && !second.forced ==> second.asked - first.answered >= ABUSE_CHECK_RETRY_BACKOFF)
    && (first.ip == second.ip && first.reply.Answer? ==> second.asked - first.answered > ENRICHMENT_MAX_AGE)
    && (first.reply.QuotaGone? && first.boot == second.boot ==>
          second.asked - first.answered >= ABUSE_RATE_LIMIT_COOLDOWN)
  }

  ghost predicate Disciplined(s: State) {
    && (forall ip | ip in s.records :: s.records[ip].updated <= s.clock)
    && (forall i | 0 <= i < |s.checks| :: Remembered(s.checks[i], s) && s.checks[i].asked <= s.checks[i].answered)
    && (forall i, j | 0 <= i < j < |s.checks| :: Apart(s.checks[i], s.checks[j]))
  }

  lemma {:induction false} RememberedStays(c: Check, s: State, e: Event)
    requires Remembered(c, s) && Timely(s, e)
    requires forall ip | ip in s.records :: s.records[ip].updated <= s.clock
    ensures Remembered(c, Next(s, e))
  {
  }

  lemma {:induction false} NewCheckIsApart(c: Check, s: State, e: Event)
    requires Remembered(c, s) && Timely(s, e) && e.Enrich?
    requires AsksLive(Existing(s.records, e.ip), e.world, s.limitedUntil, e.asked)
    requires !ServedFromStore(Existing(s.records, e.ip), e.force, e.world.hasKey, s.limitedUntil, e.asked)
    ensures Apart(c, Check(e.ip, e.force, e.world.reply, e.asked, e.answered, s.boot))
  {
  }

  lemma {:induction false} StepKeepsDiscipline(s: State, e: Event)
    requires Disciplined(s) && Timely(s, e)
    ensures Disciplined(Next(s, e))
  {
    var t := Next(s, e);
    forall i | 0 <= i < |t.checks|
      ensures Remembered(t.checks[i], t) && t.checks[i].asked <= t.checks[i].answered
    {
      if i < |s.checks| { RememberedStays(s.checks[i], s, e); }
    }
    forall i, j | 0 <= i < j < |t.checks| ensures Apart(t.checks[i], t.checks[j]) {
      if j == |s.checks| { NewCheckIsApart(s.checks[i], s, e); }
    }
  }

  lemma {:induction false} RunKeepsDiscipline(clock: int, events: seq<Event>)
    requires TimelyRun(Begin(clock), events)
    ensures Disciplined(Run(Begin(clock), events))
  {
    if events != [] {
      var n := |events| - 1;
      RunKeepsDiscipline(clock, events[..n]);
      StepKeepsDiscipline(Run(Begin(clock), events[..n]), events[n]);
    }
  }

  /** In every run: the next unforced check of an address comes at least six hours after any earlier one, even
      when its record was deleted in between; after an answer the next check of any kind comes more than seven
      days later; after an exhausted quota nothing at all is sent for six hours, until a restart. */
  lemma {:induction false} ChecksKeepApart(clock: int, events: seq<Event>, i: nat, j: nat)
    requires TimelyRun(Begin(clock), events)
    requires i < j < |Run(Begin(clock), events).checks|
    ensures Apart(Run(Begin(clock), events).checks[i], Run(Begin(clock), events).checks[j])
  {
    RunKeepsDiscipline(clock, events);
  }

  /** While an address keeps the record of an answer, no step asks about it again, its answer is never
      forgotten, and only a blacklist entry ever changes the score. */
  lemma {:induction false} AnsweredIsNotAskedAgain(s: State, e: Event, ip: Ip)
    requires ip in s.records && s.records[ip].checkedAt.Some?
    ensures forall i | |s.checks| <= i < |Next(s, e).checks| :: Next(s, e).checks[i].ip != ip
    ensures ip in Next(s, e).records ==> Next(s, e).records[ip].checkedAt.Some?
    ensures ip in Next(s, e).records && !(e.Enrich? && e.ip == ip && e.world.hasKey && e.world.listed.Some?) ==>
      && Next(s, e).records[ip].score == s.records[ip].score
      && Next(s, e).records[ip].checkedAt == s.records[ip].checkedAt
  {
  }

  /** Whether the record was there after every event of a run. */
  predicate KeptThroughout(s: State, events: seq<Event>, ip: Ip) {
    ip in Run(s, events).records && (events == [] || KeptThroughout(s, events[..|events| - 1], ip))
  }

  function ChecksOf(checks: seq<Check>, ip: Ip): nat {
    if checks == [] then 0
    else ChecksOf(checks[..|checks| - 1], ip) + if checks[|checks| - 1].ip == ip then 1 else 0
  }

  /** Over a whole run, forced or not, an answered address costs no further check while its record stays. */
  lemma {:induction false} AnswersAreFree(s: State, events: seq<Event>, ip: Ip)
    requires KeptThroughout(s, events, ip) && ip in s.records && s.records[ip].checkedAt.Some?
    ensures Run(s, events).records[ip].checkedAt.Some?
    ensures ChecksOf(Run(s, events).checks, ip) == ChecksOf(s.checks, ip)
  {
    if events != [] {
      var n := |events| - 1;
      AnswersAreFree(s, events[..n], ip);
      AnsweredIsNotAskedAgain(Run(s, events[..n]), events[n], ip);
      AtMostOneCheck(Run(s, events[..n]), events[n]);
    }
  }

  lemma {:induction false} AtMostOneCheck(s: State, e: Event)
    ensures var checks := Next(s, e).checks;
      checks == s.checks || (|checks| == |s.checks| + 1 && checks[..|s.checks|] == s.checks)
  {
  }

  // ---------------------------------------------------------------------------
  // One request
  // ---------------------------------------------------------------------------

  /** Lookups are paused after an exhausted quota. */
  predicate Paused(s: State, now: int) { s.limitedUntil.Some? && now < s.limitedUntil.value }

  /** The address has a record from an answer. */
  predicate Answered(s: State, ip: Ip) { ip in s.records && s.records[ip].checkedAt.Some? }

  /** A request is served from the store exactly when it is not forced, the record is less than a day old, and it
      is answered, or no check is possible, or the record is less than six hours old. */
  predicate FromStore(s: State, ip: Ip, force: bool, world: World, asked: int) {
    && ip in s.records && !force && asked - s.records[ip].updated < 24 * HOUR
    && (Answered(s, ip) || !world.hasKey || Paused(s, asked) || asked - s.records[ip].updated < 6 * HOUR)
  }

  lemma {:induction false} StoreServesExactly(s: State, ip: Ip, force: bool, world: World, asked: int, answered: int)
    ensures var t := Next(s, Enrich(ip, force, world, asked, answered));
      && (FromStore(s, ip, force, world, asked) ==> t == s.(clock := answered))
      && (!FromStore(s, ip, force, world, asked) ==>
            && ip in t.records && t.records[ip].updated == answered && t.records[ip].country == world.country
            && t.records == s.records[ip := t.records[ip]] && t.boot == s.boot && t.clock == answered)
  {
  }

  /** A check is sent exactly when the request is not served from the store, there is a key, the blacklist does not
      list the address, no answer is on record, and lookups are not paused. Only an exhausted quota pauses them. */
  lemma {:induction false} ChecksAreSentExactly(s: State, ip: Ip, force: bool, world: World, asked: int, answered: int)
    ensures var t := Next(s, Enrich(ip, force, world, asked, answered));
      var sent := !FromStore(s, ip, force, world, asked) && world.hasKey && world.listed == None && !Answered(s, ip)
                  && !Paused(s, asked);
      && t.checks == (if sent then s.checks + [Check(ip, force, world.reply, asked, answered, s.boot)] else s.checks)
      && t.limitedUntil == (if sent && world.reply == QuotaGone then Some(answered + 6 * HOUR) else s.limitedUntil)
  {
  }

  /** What a request that goes past the store leaves of the reputation: the blacklist's score if there is a key and
      it lists the address, else the answer if a check was sent and answered, else what was there. */
  lemma {:induction false} ScoreIsStoredExactly(s: State, ip: Ip, force: bool, world: World, asked: int, answered: int)
    requires !FromStore(s, ip, force, world, asked)
    ensures var t := Next(s, Enrich(ip, force, world, asked, answered));
      && ip in t.records
      && if world.hasKey && world.listed.Some? then
           t.records[ip].score == world.listed && t.records[ip].checkedAt == Some(answered)
         else if |t.checks| > |s.checks| && world.reply.Answer? then
           t.records[ip].score == world.reply.score && t.records[ip].checkedAt == Some(answered)
         else if ip in s.records then
           t.records[ip].score == s.records[ip].score && t.records[ip].checkedAt == s.records[ip].checkedAt
         else t.records[ip].score == None && t.records[ip].checkedAt == None
  {
  }

  /** Exactly the records that were not refreshed for seven days are deleted. */
  lemma {:induction false} CleanupExactly(s: State, now: int, ip: Ip)
    ensures var t := Next(s, Cleanup(now));
      && (ip in t.records <==> ip in s.records && now - s.records[ip].updated <= 7 * 24 * HOUR)
      && (ip in t.records ==> t.records[ip] == s.records[ip])
      && t == s.(records := t.records, clock := now)
  {
  }

  /** What an event learns about an address: the score, and when. */
  function Learned(s: State, e: Event, ip: Ip): Option<(Option<int>, int)> {
    if e.Enrich? && e.ip == ip && !FromStore(s, ip, e.force, e.world, e.asked) then
      if e.world.hasKey && e.world.listed.Some? then Some((e.world.listed, e.answered))
      else if |Next(s, e).checks| > |s.checks| && e.world.reply.Answer? then Some((e.world.reply.score, e.answered))
      else None
    else None
  }

  /** The latest that a run has learned since the record of the address was last deleted. */
  function Latest(s: State, events: seq<Event>, ip: Ip): Option<(Option<int>, int)> {
    if events == [] || ip !in Run(s, events).records then None
    else
      var n := |events| - 1;
      var learned := Learned(Run(s, events[..n]), events[n], ip);
      if learned.Some? then learned else Latest(s, events[..n], ip)
  }

  /** In every run a stored score is that of the latest answer or blacklist entry of the address, and its time that
      of the answer; a record without one has neither. */
  lemma {:induction false} StoredScoreIsLatest(clock: int, events: seq<Event>, ip: Ip)
    requires ip in Run(Begin(clock), events).records
    ensures var record, latest := Run(Begin(clock), events).records[ip], Latest(Begin(clock), events, ip);
      && record.score == (if latest.Some? then latest.value.0 else None)
      && record.checkedAt == (if latest.Some? then Some(latest.value.1) else None)
  {
    if events != [] {
      var n := |events| - 1;
      var s, e := Run(Begin(clock), events[..n]), events[n];
      if ip in s.records { StoredScoreIsLatest(clock, events[..n], ip); }
      if e.Enrich? {
        StoreServesExactly(s, e.ip, e.force, e.world, e.asked, e.answered);
        if !FromStore(s, e.ip, e.force, e.world, e.asked) {
          ScoreIsStoredExactly(s, e.ip, e.force, e.world, e.asked, e.answered);
        }
      }
    }
  }

  // ---------------------------------------------------------------------------
  // How many checks fit into a span of time
  // ---------------------------------------------------------------------------

  /** The times of the checks that `pick` selects. */
  function Times(checks: seq<Check>, pick: Check -> bool): (times: seq<int>)
    ensures |times| <= |checks|
  {
    if checks == [] then []
    else
      var last := checks[|checks| - 1];
      Times(checks[..|checks| - 1], pick) + if pick(last) then [last.asked] else []
  }

  predicate PickedApart(checks: seq<Check>, pick: Check -> bool, gap: int) {
    forall i, j | 0 <= i < j < |checks| && pick(checks[i]) && pick(checks[j]) :: checks[j].asked - checks[i].asked >= gap
  }

  lemma {:induction false} PickedAreSpaced(checks: seq<Check>, pick: Check -> bool, gap: int)
    requires PickedApart(checks, pick, gap)
    ensures Spacing.Spaced(Times(checks, pick), gap)
    ensures Times(checks, pick) != [] ==>
      exists i :: 0 <= i < |checks| && pick(checks[i]) && checks[i].asked == Times(checks, pick)[|Times(checks, pick)| - 1]
  {
    if checks != [] {
      var n := |checks| - 1;
      PickedAreSpaced(checks[..n], pick, gap);
      var before := Times(checks[..n], pick);
      if before != [] {
        var i :| 0 <= i < n && pick(checks[..n][i]) && checks[..n][i].asked == before[|before| - 1];
        assert pick(checks[i]) && checks[i].asked == before[|before| - 1];
      }
      if pick(checks[n]) {
        assert pick(checks[n]) && checks[n].asked == Times(checks, pick)[|Times(checks, pick)| - 1];
      }
    }
  }

  lemma {:induction false} PickedBound(checks: seq<Check>, pick: Check -> bool, gap: nat, i: nat, j: nat, span: nat)
    requires gap > 0 && PickedApart(checks, pick, gap)
    requires i < j <= |Times(checks, pick)| && Times(checks, pick)[j - 1] - Times(checks, pick)[i] <= span
    ensures j - i <= span / gap + 1
  {
    PickedAreSpaced(checks, pick, gap);
    Spacing.AtMost(Times(checks, pick), gap, i, j, span);
  }

  /** At most floor(span / 6 h) + 1 unforced checks of one address are sent in any span of time, however
      often its record is deleted and the process restarted. */
  lemma {:induction false} UnforcedBound(clock: int, events: seq<Event>, ip: Ip, i: nat, j: nat, span: nat)
    requires TimelyRun(Begin(clock), events)
    requires var times := Times(Run(Begin(clock), events).checks, (c: Check) => c.ip == ip && !c.forced);
      i < j <= |times| && times[j - 1] - times[i] <= span
    ensures j - i <= span / ABUSE_CHECK_RETRY_BACKOFF + 1
  {
    RunKeepsDiscipline(clock, events);
    var checks, pick := Run(Begin(clock), events).checks, (c: Check) => c.ip == ip && !c.forced;
    forall a, b | 0 <= a < b < |checks| && pick(checks[a]) && pick(checks[b])
      ensures checks[b].asked - checks[a].asked >= ABUSE_CHECK_RETRY_BACKOFF
    {
      assert Apart(checks[a], checks[b]) && checks[a].asked <= checks[a].answered;
    }
    PickedBound(checks, pick, ABUSE_CHECK_RETRY_BACKOFF, i, j, span);
  }

  /** Once the quota is gone one process meets it at most floor(span / 6 h) + 1 times in any span. */
  lemma {:induction false} QuotaBound(clock: int, events: seq<Event>, boot: nat, i: nat, j: nat, span: nat)
    requires TimelyRun(Begin(clock), events)
    requires var times := Times(Run(Begin(clock), events).checks, (c: Check) => c.reply.QuotaGone? && c.boot == boot);
      i < j <= |times| && times[j - 1] - times[i] <= span
    ensures j - i <= span / ABUSE_RATE_LIMIT_COOLDOWN + 1
  {
    RunKeepsDiscipline(clock, events);
    var checks, pick := Run(Begin(clock), events).checks, (c: Check) => c.reply.QuotaGone? && c.boot == boot;
    forall a, b | 0 <= a < b < |checks| && pick(checks[a]) && pick(checks[b])
      ensures checks[b].asked - checks[a].asked >= ABUSE_RATE_LIMIT_COOLDOWN
    {
      assert Apart(checks[a], checks[b]) && checks[a].asked <= checks[a].answered;
    }
    PickedBound(checks, pick, ABUSE_RATE_LIMIT_COOLDOWN, i, j, span);
  }
}
