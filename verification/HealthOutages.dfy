/** The host's own announcements, and how they are coupled with those of its servers. */
module HealthOutages {
  import opened Wrappers
  import opened HealthModel

  // ---------------------------------------------------------------------------
  // The host's announcements
  // ---------------------------------------------------------------------------

  /** Down, back, down, ...: the stored status is "down" exactly when the last one is a down,
      and a host that is not down has failed at most once in a row. */
  predicate Alternating(h: Host) {
    && (forall i | 0 <= i < |h.notes| :: h.notes[i].HostDown? <==> i % 2 == 0)
    && (h.status == Down <==> |h.notes| % 2 == 1)
    && (h.status != Down ==> h.failures <= 1)
  }

  lemma {:induction false} CycleAlternates(h: Host, c: Cycle)
    requires Alternating(h)
    ensures Alternating(RunCycle(h, c))
  {
    var t, n := RunCycle(h, c), |h.notes|;
    assert t.notes == h.notes + HostNews(h, c) && t.status == NewStatus(h, c);
    if GoesDown(h, c) {
      assert t.notes[n].HostDown? && n % 2 == 0;
    } else if ComesBack(h, c) {
      assert t.notes[n].HostBack? && n % 2 == 1;
    }
  }

  lemma {:induction false} AnnouncementsAlternate(h: Host, steps: seq<Step>)
    requires Alternating(h)
    ensures Alternating(Run(h, steps))
  {
    if steps != [] {
      var n := |steps| - 1;
      AnnouncementsAlternate(h, steps[..n]);
      if steps[n].Check? { CycleAlternates(Run(h, steps[..n]), steps[n].cycle); }
    }
  }

  predicate FailsAt(h: Host, steps: seq<Step>, i: nat)
    requires i < |steps|
  {
    steps[i].Check? && !HostUp(Run(h, steps[..i]), steps[i].cycle)
  }

  /** The latest cycle of this process failed: no other cycle and no restart came after it. */
  predicate LastCycleFailed(h: Host, steps: seq<Step>) {
    exists i | 0 <= i < |steps| :: FailsAt(h, steps, i) && NoCycleSince(steps, i)
  }

  predicate NoCycleSince(steps: seq<Step>, i: nat) {
    forall k | i < k < |steps| :: !steps[k].Check? && !steps[k].Restart?
  }

  lemma {:induction false} FailedCycleStays(h: Host, steps: seq<Step>, n: nat, i: nat)
    requires i < n <= |steps|
    ensures FailsAt(h, steps[..n], i) <==> FailsAt(h, steps, i)
  {
    assert steps[..n][..i] == steps[..i];
  }

  lemma {:induction false} NoCycleSinceUnfolds(steps: seq<Step>, i: nat)
    requires i < |steps| - 1
    ensures var n := |steps| - 1;
      NoCycleSince(steps, i) <==> NoCycleSince(steps[..n], i) && !steps[n].Check? && !steps[n].Restart?
  {
    var n := |steps| - 1;
    assert forall k | 0 <= k < n :: steps[..n][k] == steps[k];
  }

  lemma {:induction false} LastCycleFailedUnfolds(h: Host, steps: seq<Step>)
    requires steps != []
    ensures var n := |steps| - 1;
      LastCycleFailed(h, steps) <==>
      FailsAt(h, steps, n) || (!steps[n].Check? && !steps[n].Restart? && LastCycleFailed(h, steps[..n]))
  {
    var n := |steps| - 1;
    forall i | 0 <= i < n
      ensures FailsAt(h, steps[..n], i) <==> FailsAt(h, steps, i)
      ensures NoCycleSince(steps, i) <==> NoCycleSince(steps[..n], i) && !steps[n].Check? && !steps[n].Restart?
    {
      FailedCycleStays(h, steps, n, i);
      NoCycleSinceUnfolds(steps, i);
    }
    assert NoCycleSince(steps, n);
  }

  lemma {:induction false} CounterMeansLastCycleFailed(h: Host, steps: seq<Step>)
    requires Fresh(h)
    ensures Run(h, steps).failures > 0 <==> LastCycleFailed(h, steps)
  {
    if steps != [] {
      CounterMeansLastCycleFailed(h, steps[..|steps| - 1]);
      LastCycleFailedUnfolds(h, steps);
    }
  }

  /** A cycle announces the host down exactly when it fails right after another failing cycle
      of the same process and the host was not down yet. */
  lemma {:induction false} HostDownIffTwoFailures(h: Host, steps: seq<Step>, c: Cycle)
    requires Fresh(h)
    ensures var before := Run(h, steps);
      GoesDown(before, c) <==> before.status != Down && !HostUp(before, c) && LastCycleFailed(h, steps)
  {
    CounterMeansLastCycleFailed(h, steps);
  }

  /** The clock of the latest cycle, across restarts. */
  function LastChecked(steps: seq<Step>): Option<int> {
    if steps == [] then None
    else if steps[|steps| - 1].Check? then Some(steps[|steps| - 1].cycle.checked)
    else LastChecked(steps[..|steps| - 1])
  }

  lemma {:induction false} CheckedAtWhileDown(h: Host, steps: seq<Step>)
    requires Fresh(h)
    ensures var after := Run(h, steps); after.status == Down ==> after.checkedAt == LastChecked(steps)
    ensures Run(h, steps).status == Down ==> LastChecked(steps).Some?
  {
    if steps != [] {
      CheckedAtWhileDown(h, steps[..|steps| - 1]);
    }
  }

  /** The downtime a recovery reports is the time since the previous check of the host. */
  lemma {:induction false} ReportedDowntime(h: Host, steps: seq<Step>, c: Cycle)
    requires Fresh(h) && ComesBack(Run(h, steps), c)
    ensures LastChecked(steps).Some?
    ensures HostNews(Run(h, steps), c) == [HostBack(c.checked, Some(c.checked - LastChecked(steps).value))]
  {
    CheckedAtWhileDown(h, steps);
  }

  /** When the outage was announced: the time of the latest host note. */
  function DownSince(h: Host): (since: Option<int>)
    ensures since.Some? ==> h.notes != [] && h.notes[|h.notes| - 1] == HostDown(since.value)
  {
    if h.notes != [] && h.notes[|h.notes| - 1].HostDown? then Some(h.notes[|h.notes| - 1].at) else None
  }

  lemma {:induction false} DownIsAnnounced(h: Host)
    requires Alternating(h) && h.status == Down
    ensures DownSince(h).Some?
  {
  }

  /** So it is the length of the outage, counted from its announcement, exactly when no cycle with another clock
      reading came after the announcing one. */
  lemma {:induction false} DowntimeIsOutageLengthExactly(h: Host, steps: seq<Step>, c: Cycle)
    requires Fresh(h) && ComesBack(Run(h, steps), c)
    ensures DownSince(Run(h, steps)).Some?
    ensures HostNews(Run(h, steps), c) == [HostBack(c.checked, Some(c.checked - DownSince(Run(h, steps)).value))]
       <==> LastChecked(steps) == DownSince(Run(h, steps))
  {
    ReportedDowntime(h, steps, c);
    AnnouncementsAlternate(h, steps);
    DownIsAnnounced(Run(h, steps));
  }

  /** A host without servers of its own, and a cycle at a time in which its probe answers or not. */
  function Lone(status: Status, checkedAt: Option<int>, failures: nat, notes: seq<HostNote>): Host {
    Host(status, checkedAt, failures, false, [], notes)
  }

  function Minute(n: int, answers: bool): Cycle { Cycle(60 * n, 60 * n, 300, {}, answers) }

  /** An answer, two failing cycles that announce the outage, and `more` that keep it going. */
  function Minutes(more: nat): (steps: seq<Step>)
    ensures |steps| == 3 + more
  {
    if more == 0 then [Check(Minute(0, true)), Check(Minute(1, false)), Check(Minute(2, false))]
    else Minutes(more - 1) + [Check(Minute(2 + more, false))]
  }

  /** The recovery reports one minute, while the outage was announced `more + 1` minutes before. */
  lemma {:induction false} LongOutage(more: nat)
    ensures var h := Run(Lone(Unknown, None, 0, []), Minutes(more));
      && h == Lone(Down, Some(60 * (2 + more)), 2 + more, [HostDown(120)])
      && RunCycle(h, Minute(3 + more, true)).notes == [HostDown(120), HostBack(60 * (3 + more), Some(60))]
  {
    OutageGoesOn(more);
  }

  lemma {:induction false} OutageBegins()
    ensures Run(Lone(Unknown, None, 0, []), Minutes(0)) == Lone(Down, Some(120), 2, [HostDown(120)])
  {
    var blank, steps := Lone(Unknown, None, 0, []), Minutes(0);
    assert steps[..2] == [Check(Minute(0, true)), Check(Minute(1, false))] && steps[..2][..1] == [Check(Minute(0, true))];
    assert Run(blank, steps[..2][..1]) == Lone(Up, Some(0), 0, []);
    assert Run(blank, steps[..2]) == Lone(Up, Some(60), 1, []);
  }

  lemma {:induction false} AnotherMinute(n: nat, notes: seq<HostNote>)
    ensures Next(Lone(Down, Some(60 * n), n, notes), Check(Minute(n + 1, false))) == Lone(Down, Some(60 * (n + 1)), n + 1, notes)
  {
  }

  lemma {:induction false} OutageGoesOn(more: nat)
    ensures Run(Lone(Unknown, None, 0, []), Minutes(more)) == Lone(Down, Some(60 * (2 + more)), 2 + more, [HostDown(120)])
  {
    if more == 0 {
      OutageBegins();
    } else {
      OutageGoesOn(more - 1);
      AnotherMinute(1 + more, [HostDown(120)]);
      assert Minutes(more)[..2 + more] == Minutes(more - 1);
    }
  }

  // ---------------------------------------------------------------------------
  // Coupling of the two failure counters
  // ---------------------------------------------------------------------------

  /** Cycles, restarts and the rotation option; no manual check and no edit of the servers. */
  predicate Undisturbed(steps: seq<Step>) {
    forall i | 0 <= i < |steps| :: steps[i].Check? || steps[i].Restart? || steps[i].SetAutoDown?
  }

  /** A save that adds no row and switches none: it may reorder rows, drop some and move some elsewhere. */
  predicate KeepsRows(pool: seq<Server>, items: seq<Upsert>)
    decreases items
  {
    items == [] ||
    (var u := items[0];
     u.id.Some? &&
     var i := IndexOf(pool, u.id.value);
     i < |pool| && u.enabled == pool[i].enabled && u.down == pool[i].down
     && KeepsRows(pool[..i] + pool[i + 1..], items[1..]))
  }

  /** Undisturbed but for such saves. */
  predicate Calm(h: Host, steps: seq<Step>) {
    forall k | 0 <= k < |steps| ::
      || steps[k].Check? || steps[k].Restart? || steps[k].SetAutoDown?
      || (steps[k].Save? && KeepsRows(Run(h, steps[..k]).servers, steps[k].items))
  }

  /** The host's counter never runs ahead of those of its servers in service, and a host that is
      down has every server in service down, or, where servers may be moved, not probed since. */
  predicate Coupled(h: Host, moves: bool) {
    forall i | 0 <= i < |h.servers| && h.servers[i].InService() :: CoupledServer(h, h.servers[i], moves)
  }

  predicate CoupledServer(h: Host, s: Server, moves: bool) {
    h.failures <= s.failures && (h.status == Down ==> s.lastStatus == Down || (moves && s.lastStatus == Unknown))
  }

  lemma {:induction false} CycleKeepsCoupling(h: Host, c: Cycle, moves: bool)
    requires Coupled(h, moves)
    ensures Coupled(RunCycle(h, c), false)
  {
    forall i | 0 <= i < |h.servers| && RunCycle(h, c).servers[i].InService()
      ensures CoupledServer(RunCycle(h, c), RunCycle(h, c).servers[i], false)
    {
      CycleOnServer(h, c, i);
      CycleKeepsCoupled(h, c, moves, i);
    }
  }

  lemma {:induction false} CycleKeepsCoupled(h: Host, c: Cycle, moves: bool, i: nat)
    requires i < |h.servers| && h.servers[i].InService() && CoupledServer(h, h.servers[i], moves)
    ensures CoupledServer(RunCycle(h, c), RunCycle(h, c).servers[i], false)
  {
    assert h.servers[i].enabled;
    assert HasServers(h.servers);
    CycleOnServer(h, c, i);
  }

  predicate RowsCoupled(h: Host, rows: seq<Server>) {
    forall s | s in rows && s.InService() :: CoupledServer(h, s, true)
  }

  lemma {:induction false} EditKeepsCoupling(h: Host, s: Server, u: Upsert)
    requires u.enabled == s.enabled && u.down == s.down && (s.InService() ==> CoupledServer(h, s, true))
    ensures Edited(s, u).InService() ==> CoupledServer(h, Edited(s, u), true)
  {
  }

  lemma {:induction false} SaveKeepsCoupling(h: Host, pool: seq<Server>, items: seq<Upsert>)
    requires KeepsRows(pool, items) && RowsCoupled(h, pool)
    ensures RowsCoupled(h, SaveServers(pool, items))
    decreases items
  {
    if items != [] {
      var i := IndexOf(pool, items[0].id.value);
      var rest := pool[..i] + pool[i + 1..];
      assert RowsCoupled(h, rest) by { assert forall s | s in rest :: s in pool; }
      SaveKeepsCoupling(h, rest, items[1..]);
      EditKeepsCoupling(h, pool[i], items[0]);
      assert SaveServers(pool, items) == [Edited(pool[i], items[0])] + SaveServers(rest, items[1..]);
    }
  }

  lemma {:induction false} RunKeepsCoupling(h: Host, steps: seq<Step>, moves: bool)
    requires Coupled(h, moves) && if moves then Calm(h, steps) else Undisturbed(steps)
    ensures Coupled(Run(h, steps), moves)
  {
    if steps != [] {
      var n := |steps| - 1;
      var before := Run(h, steps[..n]);
      CalmPrefix(h, steps, moves);
      RunKeepsCoupling(h, steps[..n], moves);
      if steps[n].Check? {
        CycleKeepsCoupling(before, steps[n].cycle, moves);
      } else if steps[n].Save? {
        SaveStepKeepsCoupling(before, steps[n].items);
      } else {
        QuietKeepsCoupling(before, steps[n], moves);
      }
    }
  }

  lemma {:induction false} QuietKeepsCoupling(h: Host, step: Step, moves: bool)
    requires Coupled(h, moves) && (step.Restart? || step.SetAutoDown?)
    ensures Coupled(Next(h, step), moves)
  {
    var n := Next(h, step);
    forall i | 0 <= i < |n.servers| && n.servers[i].InService() ensures CoupledServer(n, n.servers[i], moves) {
      assert CoupledServer(h, h.servers[i], moves);
    }
  }

  lemma {:induction false} SaveStepKeepsCoupling(h: Host, items: seq<Upsert>)
    requires Coupled(h, true) && KeepsRows(h.servers, items)
    ensures Coupled(Next(h, Save(items)), true)
  {
    SaveKeepsCoupling(h, h.servers, items);
    var n := Next(h, Save(items));
    forall i | 0 <= i < |n.servers| && n.servers[i].InService() ensures CoupledServer(n, n.servers[i], true) {
      assert CoupledServer(h, n.servers[i], true);
    }
  }

  lemma {:induction false} CalmPrefix(h: Host, steps: seq<Step>, moves: bool)
    requires steps != [] && if moves then Calm(h, steps) else Undisturbed(steps)
    ensures var n := |steps| - 1;
      && (if moves then Calm(h, steps[..n]) else Undisturbed(steps[..n]))
      && (steps[n].Check? || steps[n].Restart? || steps[n].SetAutoDown?
          || (moves && steps[n].Save? && KeepsRows(Run(h, steps[..n]).servers, steps[n].items)))
  {
    var n := |steps| - 1;
    assert forall k | 0 <= k < n :: steps[..n][k] == steps[k];
    if moves {
      forall k | 0 <= k < n
        ensures steps[..n][k].Save? ==> KeepsRows(Run(h, steps[..n][..k]).servers, steps[..n][k].items)
      {
        assert steps[..n][..k] == steps[..k];
      }
    }
  }

  /** Planning a confirmed-down server of a host that is down. */
  lemma {:induction false} PlanUnderHostOutage(s: Server, observed: Option<Status>, c: Context)
    requires s.InService() && s.lastStatus == Down && c.hostDown
    ensures var t := PlanServer(s, observed, c);
      && t.alertStatus != SaidUp
      && t.log == s.log + if s.alertStatus == SaidUp then [Note(c.now, WentDown, Grouped)] else []
  {
  }

  /** Probing and rotating leave what was announced alone. */
  lemma {:induction false} CheckOnServer(h: Host, c: Cycle, i: nat)
    requires i < |h.servers|
    ensures var s := h.servers[i]; var p := CheckHost(h, c).servers[i];
      && p.log == s.log && p.alertStatus == s.alertStatus && p.alertDownAt == s.alertDownAt
      && p.id == s.id && p.enabled == s.enabled && p.down == s.down
      && p.lastStatus == ProbeServer(s, c.answering, true).lastStatus
      && p.failures == ProbeServer(s, c.answering, true).failures
  {
  }

  /** Planning leaves everything but what was announced alone. */
  lemma {:induction false} PlanOnServer(p: Server, observed: Option<Status>, c: Context)
    ensures var t := PlanServer(p, observed, c);
      && t.id == p.id && t.enabled == p.enabled && t.down == p.down && t.autoDown == p.autoDown
      && t.lastStatus == p.lastStatus && t.failures == p.failures
  {
  }

  /** How one server fares in a cycle: probed and rotated first, planned second. */
  lemma {:induction false} CycleOnServer(h: Host, c: Cycle, i: nat)
    requires i < |h.servers|
    ensures var s := h.servers[i]; var p := CheckHost(h, c).servers[i];
      && p.log == s.log && p.alertStatus == s.alertStatus && p.alertDownAt == s.alertDownAt
      && p.id == s.id && p.enabled == s.enabled && p.down == s.down
      && p.lastStatus == ProbeServer(s, c.answering, true).lastStatus
      && p.failures == ProbeServer(s, c.answering, true).failures
    ensures RunCycle(h, c).servers[i] ==
            PlanServer(CheckHost(h, c).servers[i], Some(h.servers[i].lastStatus), ContextOf(h, c))
    ensures var p := CheckHost(h, c).servers[i]; var t := RunCycle(h, c).servers[i];
      && t.id == p.id && t.enabled == p.enabled && t.down == p.down && t.autoDown == p.autoDown
      && t.lastStatus == p.lastStatus && t.failures == p.failures
  {
    CheckOnServer(h, c, i);
    PlanOnServer(CheckHost(h, c).servers[i], Some(h.servers[i].lastStatus), ContextOf(h, c));
  }

  /** Between `s` and `t` the server was confirmed down and, if still announced up, grouped; no more. */
  predicate CoveredByHost(s: Server, t: Server, now: int) {
    && t.lastStatus == Down && t.alertStatus != SaidUp
    && t.log == s.log + if s.alertStatus == SaidUp then [Note(now, WentDown, Grouped)] else []
  }

  /** In a cycle that finds the host down every server in service is confirmed down and none gets
      an alert of its own: one still announced "up" becomes "grouped" in this very cycle. */
  lemma {:induction false} OutageCoversItsServers(h: Host, steps: seq<Step>, c: Cycle, i: nat)
    requires Fresh(h) && Calm(h, steps)
    requires i < |Run(h, steps).servers| && Run(h, steps).servers[i].InService()
    requires RunCycle(Run(h, steps), c).status == Down
    ensures CoveredByHost(Run(h, steps).servers[i], RunCycle(Run(h, steps), c).servers[i], c.now)
  {
    var before := Run(h, steps);
    RunKeepsCoupling(h, steps, true);
    CycleKeepsCoupling(before, c, true);
    CycleOnServer(before, c, i);
    assert CoupledServer(RunCycle(before, c), RunCycle(before, c).servers[i], false);
    PlanUnderHostOutage(CheckHost(before, c).servers[i], Some(before.servers[i].lastStatus), ContextOf(before, c));
  }

  /** In the cycle that brings a host back, a server covered by the host alert that answers again
      is grouped; one that stays down gets an alert of its own, unless its flap window holds it. */
  lemma {:induction false} RecoveryCoversItsServers(h: Host, c: Cycle, i: nat)
    requires ComesBack(h, c) && i < |h.servers|
    requires h.servers[i].InService() && h.servers[i].alertStatus == ByHost
    ensures var s := h.servers[i]; var t := RunCycle(h, c).servers[i];
      && (s.id in c.answering ==> t.log == s.log + [Note(c.now, Recovered, Grouped)] && t.alertStatus == SaidUp)
      && (s.id !in c.answering && s.lastStatus == Down ==>
            if s.alertDownAt.Some? && c.now - s.alertDownAt.value < c.window then t.log == s.log && t.alertStatus == ByHost
            else t.log == s.log + [Note(c.now, WentDown, Sent)] && t.alertStatus == SaidDown)
  {
    CycleOnServer(h, c, i);
  }

  // ---------------------------------------------------------------------------
  // A whole outage, from the first failing probe to the recovery
  // ---------------------------------------------------------------------------

  /** Everything in service is up and announced so. */
  predicate Healthy(h: Host) {
    && h.status == Up && h.failures == 0
    && (exists i | 0 <= i < |h.servers| :: h.servers[i].InService())
    && forall i | 0 <= i < |h.servers| && h.servers[i].InService() ::
         h.servers[i].lastStatus == Up && h.servers[i].alertStatus == SaidUp && h.servers[i].failures == 0
  }

  /** Every step is a restart, a switch of the rotation option, or a cycle in which no server in
      service answers. */
  predicate AllFail(h: Host, steps: seq<Step>) {
    forall k | 0 <= k < |steps| ::
      || steps[k].Restart? || steps[k].SetAutoDown?
      || (steps[k].Check? && !Answering(h.servers, steps[k].cycle.answering))
  }

  /** The server between the start `s` of an outage and now: counters agree with the host's, and it
      is either untouched or, once the host is down, covered by the host alert. */
  ghost predicate MidOutage(s: Server, t: Server, h: Host) {
    && t.id == s.id && t.enabled == s.enabled && t.down == s.down
    && (s.InService() ==>
          && t.failures == h.failures
          && t.alertDownAt == s.alertDownAt
          && if h.status == Down then
               && t.lastStatus == Down && t.alertStatus == ByHost
               && exists at :: t.log == s.log + [Note(at, WentDown, Grouped)]
             else
               t.lastStatus == Up && t.alertStatus == SaidUp && t.log == s.log)
  }

  ghost predicate InOutage(start: Host, h: Host) {
    && |h.servers| == |start.servers|
    && (forall i | 0 <= i < |start.servers| :: MidOutage(start.servers[i], h.servers[i], h))
    && if h.status == Down then exists at :: h.notes == start.notes + [HostDown(at)]
       else h.status == Up && h.failures <= 1 && h.notes == start.notes
  }

  lemma {:induction false} OutageCycleOnServer(start: Host, h: Host, c: Cycle, i: nat)
    requires Healthy(start) && InOutage(start, h) && !Answering(start.servers, c.answering)
    requires i < |start.servers| && !HostUp(h, c)
    ensures MidOutage(start.servers[i], RunCycle(h, c).servers[i], RunCycle(h, c))
  {
    var s := start.servers[i];
    assert MidOutage(s, h.servers[i], h);
    CycleOnServer(h, c, i);
    var p := CheckHost(h, c).servers[i];
    if s.InService() {
      assert s.id !in c.answering;
      if NewStatus(h, c) == Down {
        PlanUnderHostOutage(p, Some(h.servers[i].lastStatus), ContextOf(h, c));
      }
    }
  }

  lemma {:induction false} OutageCycle(start: Host, h: Host, c: Cycle)
    requires Healthy(start) && InOutage(start, h) && !Answering(start.servers, c.answering)
    ensures InOutage(start, RunCycle(h, c))
  {
    assert !HostUp(h, c) by {
      var i :| 0 <= i < |start.servers| && start.servers[i].InService();
      assert MidOutage(start.servers[i], h.servers[i], h);
      assert h.servers[i].enabled;
      forall j | 0 <= j < |h.servers| ensures !(h.servers[j].InService() && h.servers[j].id in c.answering) {
        assert MidOutage(start.servers[j], h.servers[j], h);
      }
    }
    forall i | 0 <= i < |start.servers|
      ensures MidOutage(start.servers[i], RunCycle(h, c).servers[i], RunCycle(h, c))
    {
      OutageCycleOnServer(start, h, c, i);
    }
    if GoesDown(h, c) {
      assert RunCycle(h, c).notes == start.notes + [HostDown(c.checked)];
    }
  }

  lemma {:induction false} OutageRun(start: Host, steps: seq<Step>)
    requires Healthy(start) && AllFail(start, steps)
    ensures InOutage(start, Run(start, steps))
  {
    if steps != [] {
      var n := |steps| - 1;
      OutageRun(start, steps[..n]);
      var h := Run(start, steps[..n]);
      if steps[n].Check? {
        OutageCycle(start, h, steps[n].cycle);
      } else {
        assert steps[n].Restart? || steps[n].SetAutoDown?;
        forall i | 0 <= i < |start.servers|
          ensures MidOutage(start.servers[i], Next(h, steps[n]).servers[i], Next(h, steps[n]))
        {
          assert MidOutage(start.servers[i], h.servers[i], h);
        }
      }
    }
  }

  /** A whole-host outage is announced once. However many cycles it lasts and however often the
      process restarts meanwhile: the host is announced down at most once, no server in service is
      announced down on its own, and when everything answers again the host is announced back once
      and every covered server returns without an alert of its own. */
  lemma {:induction false} WholeOutageAnnouncedOnce(start: Host, steps: seq<Step>, back: Cycle, i: nat)
    requires Healthy(start) && AllFail(start, steps)
    requires i < |start.servers| && start.servers[i].InService() && start.servers[i].id in back.answering
    ensures |Run(start, steps).servers| == |start.servers|
    ensures var low := Run(start, steps); var high := RunCycle(low, back);
            var s := start.servers[i]; var t := high.servers[i];
      && high.status == Up && t.lastStatus == Up && t.alertStatus == SaidUp
      && (low.status != Down ==> high.notes == start.notes && t.log == s.log)
      && (low.status == Down ==>
            && (exists d, b, l :: high.notes == start.notes + [HostDown(d), HostBack(b, l)])
            && (exists d :: t.log == s.log + [Note(d, WentDown, Grouped), Note(back.now, Recovered, Grouped)]))
  {
    var low := Run(start, steps);
    var high := RunCycle(low, back);
    OutageRun(start, steps);
    assert MidOutage(start.servers[i], low.servers[i], low);
    assert low.servers[i].InService() && low.servers[i].id in back.answering;
    assert HostUp(low, back);
    CycleOnServer(low, back, i);
    if low.status == Down {
      RecoveryCoversItsServers(low, back, i);
      var d :| low.notes == start.notes + [HostDown(d)];
      assert ComesBack(low, back);
      var news := HostNews(low, back)[0];
      assert high.notes == start.notes + [HostDown(d), HostBack(news.at, news.downtime)];
      var e :| low.servers[i].log == start.servers[i].log + [Note(e, WentDown, Grouped)];
      assert high.servers[i].log ==
             start.servers[i].log + [Note(e, WentDown, Grouped), Note(back.now, Recovered, Grouped)];
    }
  }
}
