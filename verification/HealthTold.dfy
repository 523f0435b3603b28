/** What a cycle tells of each server, and when: every alert against the statuses that led to it. */
module HealthTold {
  import opened Wrappers
  import opened HealthModel
  import opened HealthOutages

  /** What a cycle added to a server's history. */
  predicate Adds(s: Server, t: Server, entries: seq<Entry>) { t.log == s.log + entries }

  /** An alert of the server would be held. */
  predicate InFlapWindow(s: Server, c: Cycle) {
    s.alertDownAt.Some? && c.now - s.alertDownAt.value < c.window
  }

  /** The host was down and is up again after this cycle. */
  predicate HostReturns(h: Host, c: Cycle) { h.status == Down && RunCycle(h, c).status == Up }

  /** A server in service that is up after a cycle and was announced down: its return is grouped exactly when the
      host's alert covered it and the host returns in this very cycle; otherwise it is sent. */
  lemma {:induction false} ReturnToldExactly(h: Host, c: Cycle, i: nat)
    requires i < |h.servers| && h.servers[i].InService() && RunCycle(h, c).servers[i].lastStatus == Up
    requires h.servers[i].alertStatus == SaidDown || h.servers[i].alertStatus == ByHost
    ensures var s, t := h.servers[i], RunCycle(h, c).servers[i];
      && t.alertStatus == SaidUp && t.alertDownAt == s.alertDownAt
      && Adds(s, t, [Note(c.now, Recovered, if s.alertStatus == ByHost && HostReturns(h, c) then Grouped else Sent)])
  {
    CycleOnServer(h, c, i);
    assert HostReturns(h, c) <==> ContextOf(h, c).recovered;
  }

  /** One that is up and was announced up, or never: nothing is told, but a return that ends a held alert is
      recorded. */
  lemma {:induction false} UpToldExactly(h: Host, c: Cycle, i: nat)
    requires i < |h.servers| && h.servers[i].InService() && RunCycle(h, c).servers[i].lastStatus == Up
    requires h.servers[i].alertStatus == SaidUp || h.servers[i].alertStatus == Never
    ensures var s, t := h.servers[i], RunCycle(h, c).servers[i];
      && t.alertStatus == SaidUp && t.alertDownAt == s.alertDownAt
      && Adds(s, t, if s.alertStatus == Never then [SeenUp]
                    else if s.lastStatus == Down then [Note(c.now, Recovered, Held)] else [])
  {
    CycleOnServer(h, c, i);
  }

  /** A server in service that is down after a cycle, was announced up, and whose host is down: the host's alert
      covers it. */
  lemma {:induction false} CoveredToldExactly(h: Host, c: Cycle, i: nat)
    requires i < |h.servers| && h.servers[i].InService() && RunCycle(h, c).servers[i].lastStatus == Down
    requires h.servers[i].alertStatus == SaidUp && RunCycle(h, c).status == Down
    ensures var s, t := h.servers[i], RunCycle(h, c).servers[i];
      t.alertStatus == ByHost && t.alertDownAt == s.alertDownAt && Adds(s, t, [Note(c.now, WentDown, Grouped)])
  {
    CycleOnServer(h, c, i);
  }

  /** One whose host is not down, announced up or covered before: the alert is sent exactly when its flap window
      is over; a held one is recorded exactly in the cycle that sees the drop. */
  lemma {:induction false} DropToldExactly(h: Host, c: Cycle, i: nat)
    requires i < |h.servers| && h.servers[i].InService() && RunCycle(h, c).servers[i].lastStatus == Down
    requires h.servers[i].alertStatus == SaidUp || h.servers[i].alertStatus == ByHost
    requires RunCycle(h, c).status != Down
    ensures var s, t := h.servers[i], RunCycle(h, c).servers[i];
      if InFlapWindow(s, c) then
        t.alertStatus == s.alertStatus && t.alertDownAt == s.alertDownAt
        && Adds(s, t, if s.lastStatus == Up then [Note(c.now, WentDown, Held)] else [])
      else t.alertStatus == SaidDown && t.alertDownAt == Some(c.now) && Adds(s, t, [Note(c.now, WentDown, Sent)])
  {
    CycleOnServer(h, c, i);
  }

  /** In all other cases nothing is told: a server that was announced down already, is covered by a host that is
      down, was never seen up, or is not known yet. */
  lemma {:induction false} NothingToldExactly(h: Host, c: Cycle, i: nat)
    requires i < |h.servers| && h.servers[i].InService() && RunCycle(h, c).servers[i].lastStatus != Up
    requires var s, t := h.servers[i], RunCycle(h, c).servers[i];
      || s.alertStatus == SaidDown || s.alertStatus == Never || t.lastStatus == Unknown
      || (s.alertStatus == ByHost && RunCycle(h, c).status == Down)
    ensures var s, t := h.servers[i], RunCycle(h, c).servers[i];
      t.alertStatus == s.alertStatus && t.alertDownAt == s.alertDownAt && Adds(s, t, [])
  {
    CycleOnServer(h, c, i);
  }

  /** Maintenance forgets what was announced, and tells nothing; a disabled server is not looked at. */
  lemma {:induction false} MaintenanceForgets(h: Host, c: Cycle, i: nat)
    requires i < |h.servers| && !h.servers[i].InService()
    ensures var s, t := h.servers[i], RunCycle(h, c).servers[i];
      && t.alertDownAt == s.alertDownAt
      && (s.enabled ==> t.alertStatus == Never && Adds(s, t, [Maintained]))
      && (!s.enabled ==> t == s)
  {
    CycleOnServer(h, c, i);
    if !h.servers[i].enabled { DisabledStays(h, c, i); }
  }

  lemma {:induction false} DisabledStays(h: Host, c: Cycle, i: nat)
    requires i < |h.servers| && !h.servers[i].enabled
    ensures CheckHost(h, c).servers[i] == h.servers[i]
  {
  }

  // ---------------------------------------------------------------------------
  // Over runs
  // ---------------------------------------------------------------------------

  /** Step `n` is a cycle that fits the entry: what is grouped goes with the host's own alerts, and no drop is sent
      or held while the host is down. */
  predicate Explains(h: Host, steps: seq<Step>, n: nat, e: Entry)
    requires n < |steps| && e.Note?
  {
    steps[n].Check? &&
    var before, c := Run(h, steps[..n]), steps[n].cycle;
    && c.now == e.at
    && (e.IsNote(Recovered, Grouped) ==> HostReturns(before, c))
    && (e.IsNote(WentDown, Grouped) ==> RunCycle(before, c).status == Down)
    && (e.IsNote(WentDown, Sent) || e.IsNote(WentDown, Held) ==> RunCycle(before, c).status != Down)
  }

  ghost predicate Explained(h: Host, steps: seq<Step>, e: Entry) {
    e.Note? ==> exists n: nat :: n < |steps| && Explains(h, steps, n, e)
  }

  ghost predicate AllExplained(h: Host, steps: seq<Step>, log: seq<Entry>) {
    forall j | 0 <= j < |log| :: Explained(h, steps, log[j])
  }

  lemma {:induction false} ExplainedStays(h: Host, steps: seq<Step>, e: Entry)
    requires steps != [] && Explained(h, steps[..|steps| - 1], e)
    ensures Explained(h, steps, e)
  {
    if e.Note? {
      var before := steps[..|steps| - 1];
      var n: nat :| n < |before| && Explains(h, before, n, e);
      assert before[..n] == steps[..n];
      assert Explains(h, steps, n, e);
    }
  }

  lemma {:induction false} AllExplainedStays(h: Host, steps: seq<Step>, log: seq<Entry>)
    requires steps != [] && AllExplained(h, steps[..|steps| - 1], log)
    ensures AllExplained(h, steps, log)
  {
    forall j | 0 <= j < |log| ensures Explained(h, steps, log[j]) { ExplainedStays(h, steps, log[j]); }
  }

  lemma {:induction false} CycleExplains(h: Host, c: Cycle, i: nat) returns (e: Entry)
    requires i < |h.servers|
    ensures var s, t := h.servers[i], RunCycle(h, c).servers[i];
      || t.log == s.log
      || (t.log == s.log + [e]
          && (e.Note? ==> e.at == c.now)
          && (e.IsNote(Recovered, Grouped) ==> HostReturns(h, c))
          && (e.IsNote(WentDown, Grouped) ==> RunCycle(h, c).status == Down)
          && (e.IsNote(WentDown, Sent) || e.IsNote(WentDown, Held) ==> RunCycle(h, c).status != Down))
  {
    CycleOnServer(h, c, i);
    assert HostReturns(h, c) <==> ContextOf(h, c).recovered;
    var s, t := h.servers[i], RunCycle(h, c).servers[i];
    e := if |t.log| > |s.log| then t.log[|s.log|] else SeenUp;
    if t.log != s.log { assert t.log == s.log + [e]; }
  }

  lemma {:induction false} CycleStaysExplained(h: Host, steps: seq<Step>, i: nat)
    requires steps != [] && steps[|steps| - 1].Check?
    requires i < |Run(h, steps[..|steps| - 1]).servers|
    requires AllExplained(h, steps[..|steps| - 1], Run(h, steps[..|steps| - 1]).servers[i].log)
    ensures i < |Run(h, steps).servers| && AllExplained(h, steps, Run(h, steps).servers[i].log)
  {
    var n := |steps| - 1;
    var before := Run(h, steps[..n]);
    var e := CycleExplains(before, steps[n].cycle, i);
    AllExplainedStays(h, steps, before.servers[i].log);
    if Run(h, steps).servers[i].log != before.servers[i].log && e.Note? {
      assert Explains(h, steps, n, e);
    }
  }

  ghost predicate LogsExplained(h: Host, steps: seq<Step>, rows: seq<Server>) {
    forall s | s in rows :: AllExplained(h, steps, s.log)
  }

  lemma {:induction false} SaveStaysExplained(h: Host, steps: seq<Step>, pool: seq<Server>, items: seq<Upsert>)
    requires LogsExplained(h, steps, pool)
    ensures LogsExplained(h, steps, SaveServers(pool, items))
    decreases items
  {
    if items != [] {
      var i := if items[0].id.Some? then IndexOf(pool, items[0].id.value) else |pool|;
      if i < |pool| {
        var rest := pool[..i] + pool[i + 1..];
        assert forall s | s in rest :: s in pool;
        assert pool[i] in pool && Edited(pool[i], items[0]).log == pool[i].log;
        SaveStaysExplained(h, steps, rest, items[1..]);
      } else {
        SaveStaysExplained(h, steps, pool, items[1..]);
      }
    }
  }

  lemma {:induction false} StepStaysExplained(h: Host, steps: seq<Step>)
    requires steps != [] && LogsExplained(h, steps[..|steps| - 1], Run(h, steps[..|steps| - 1]).servers)
    ensures LogsExplained(h, steps, Run(h, steps).servers)
  {
    var n := |steps| - 1;
    var before := Run(h, steps[..n]);
    if steps[n].Save? {
      forall s | s in before.servers ensures AllExplained(h, steps, s.log) { AllExplainedStays(h, steps, s.log); }
      SaveStaysExplained(h, steps, before.servers, steps[n].items);
    } else {
      RowsStayExplained(h, steps);
    }
  }

  lemma {:induction false} RowsStayExplained(h: Host, steps: seq<Step>)
    requires steps != [] && !steps[|steps| - 1].Save?
    requires LogsExplained(h, steps[..|steps| - 1], Run(h, steps[..|steps| - 1]).servers)
    ensures LogsExplained(h, steps, Run(h, steps).servers)
  {
    var n := |steps| - 1;
    var before, after := Run(h, steps[..n]), Run(h, steps);
    forall s | s in after.servers ensures AllExplained(h, steps, s.log) {
      var i :| 0 <= i < |after.servers| && after.servers[i] == s;
      assert before.servers[i] in before.servers;
      if steps[n].Check? { CycleStaysExplained(h, steps, i); }
      else { AllExplainedStays(h, steps, before.servers[i].log); }
    }
  }

  /** Every event on record, in any run, belongs to a cycle with its clock reading: a grouped return to one in
      which the host returned, a grouped drop to one that found the host down, and a sent or held drop to one that
      did not. */
  lemma {:induction false} EveryNoteIsExplained(h: Host, steps: seq<Step>, k: nat, j: nat)
    requires Fresh(h) && k < |Run(h, steps).servers| && j < |Run(h, steps).servers[k].log|
    ensures Explained(h, steps, Run(h, steps).servers[k].log[j])
  {
    LogsStayExplained(h, steps);
    assert Run(h, steps).servers[k] in Run(h, steps).servers;
  }

  lemma {:induction false} LogsStayExplained(h: Host, steps: seq<Step>)
    requires Fresh(h)
    ensures LogsExplained(h, steps, Run(h, steps).servers)
  {
    if steps != [] {
      LogsStayExplained(h, steps[..|steps| - 1]);
      StepStaysExplained(h, steps);
    }
  }
}
