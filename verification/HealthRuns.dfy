/** What holds over whole runs of the health loop. */
module HealthRuns {
  import opened Wrappers
  import opened HealthModel
  import opened HealthHistory
  import Spacing

  // ---------------------------------------------------------------------------
  // Histories: every server's announced state is its history, replayed
  // ---------------------------------------------------------------------------

  /** `gap` is a lower bound on the flap window of every cycle so far. */
  predicate Recorded(s: Server, gap: int) {
    var sent := SentDowns(s.log);
    && Replay(s.log) == Some(s.alertStatus)
    && Spacing.Spaced(sent, gap)
    && s.alertDownAt == if sent == [] then None else Some(sent[|sent| - 1])
  }

  predicate AllRecorded(h: Host, gap: int) {
    forall i | 0 <= i < |h.servers| :: Recorded(h.servers[i], gap)
  }

  predicate WindowsAtLeast(steps: seq<Step>, gap: int) {
    forall i | 0 <= i < |steps| && steps[i].Check? :: steps[i].cycle.window >= gap
  }

  /** Entry `e` moves the announced state of `s` to that of `t` and respects the spacing. */
  predicate Follows(s: Server, t: Server, e: Entry, gap: int) {
    && t.log == s.log + [e]
    && Advance(s.alertStatus, e) == Some(t.alertStatus)
    && if e.IsNote(WentDown, Sent)
       then t.alertDownAt == Some(e.at) && (s.alertDownAt.None? || e.at - s.alertDownAt.value >= gap)
       else t.alertDownAt == s.alertDownAt
  }

  lemma {:induction false} LogKeeps(s: Server, t: Server, e: Entry, gap: int)
    requires Recorded(s, gap) && Follows(s, t, e, gap)
    ensures Recorded(t, gap)
  {
    ReplayAppend(s.log, e);
    SentDownsAppend(s.log, e);
  }

  lemma {:induction false} PlanFollows(s: Server, observed: Option<Status>, c: Context) returns (e: Entry)
    ensures var t := PlanServer(s, observed, c); t == s || Follows(s, t, e, c.window)
  {
    var t := PlanServer(s, observed, c);
    e := SeenUp;
    if t != s {
      e := t.log[|s.log|];
      assert t.log == s.log + [e];
    }
  }

  lemma {:induction false} PlanKeepsRecord(s: Server, observed: Option<Status>, c: Context, gap: int)
    requires Recorded(s, gap) && c.window >= gap
    ensures Recorded(PlanServer(s, observed, c), gap)
  {
    var e := PlanFollows(s, observed, c);
    var t := PlanServer(s, observed, c);
    if t != s {
      LogKeeps(s, t, e, gap);
    }
  }

  lemma {:induction false} RecordIgnoresProbes(s: Server, t: Server, gap: int)
    requires Recorded(s, gap)
    requires t.log == s.log && t.alertStatus == s.alertStatus && t.alertDownAt == s.alertDownAt
    ensures Recorded(t, gap)
  {
  }

  lemma {:induction false} SaveKeepsRecords(pool: seq<Server>, items: seq<Upsert>, gap: int)
    requires forall i | 0 <= i < |pool| :: Recorded(pool[i], gap)
    ensures forall i | 0 <= i < |SaveServers(pool, items)| :: Recorded(SaveServers(pool, items)[i], gap)
    decreases items
  {
    if items != [] {
      var u := items[0];
      var i := if u.id.Some? then IndexOf(pool, u.id.value) else |pool|;
      if i < |pool| {
        SaveKeepsRecords(pool[..i] + pool[i + 1..], items[1..], gap);
      } else {
        SaveKeepsRecords(pool, items[1..], gap);
      }
    }
  }

  lemma {:induction false} CycleKeepsRecords(h: Host, c: Cycle, gap: int)
    requires AllRecorded(h, gap) && c.window >= gap
    ensures AllRecorded(RunCycle(h, c), gap)
  {
    forall i | 0 <= i < |h.servers| ensures Recorded(RunCycle(h, c).servers[i], gap) {
      CycleKeepsRecord(h, c, gap, i);
    }
  }

  lemma {:induction false} CycleKeepsRecord(h: Host, c: Cycle, gap: int, i: nat)
    requires i < |h.servers| && Recorded(h.servers[i], gap) && c.window >= gap
    ensures Recorded(RunCycle(h, c).servers[i], gap)
  {
    var rows := CheckHost(h, c).servers;
    RecordIgnoresProbes(h.servers[i], rows[i], gap);
    PlanKeepsRecord(rows[i], Statuses(h.servers)[i], ContextOf(h, c), gap);
  }

  lemma {:induction false} StepKeepsRecords(h: Host, step: Step, gap: int)
    requires AllRecorded(h, gap) && (step.Check? ==> step.cycle.window >= gap)
    ensures AllRecorded(Next(h, step), gap)
  {
    match step
    case Check(c) => CycleKeepsRecords(h, c, gap);
    case Save(items) => SaveKeepsRecords(h.servers, items, gap);
    case _ =>
      forall i | 0 <= i < |h.servers| ensures Recorded(Next(h, step).servers[i], gap) {
        RecordIgnoresProbes(h.servers[i], Next(h, step).servers[i], gap);
      }
  }

  lemma {:induction false} RunKeepsRecords(h: Host, steps: seq<Step>, gap: int)
    requires AllRecorded(h, gap) && WindowsAtLeast(steps, gap)
    ensures AllRecorded(Run(h, steps), gap)
  {
    if steps != [] {
      var n := |steps| - 1;
      RunKeepsRecords(h, steps[..n], gap);
      StepKeepsRecords(Run(h, steps[..n]), steps[n], gap);
    }
  }

  /** Alerts pair up in every run, whatever the flap windows, restarts, manual checks and edits. */
  lemma {:induction false} AlertsPairUp(h: Host, steps: seq<Step>, k: nat)
    requires Fresh(h) && k < |Run(h, steps).servers|
    ensures var s := Run(h, steps).servers[k];
      && Replay(s.log) == Some(s.alertStatus)
      && RecoveriesClose(s.log) && DropsSeparated(s.log) && SeenUpFirst(s.log)
  {
    var gap := LeastWindow(steps);
    assert AllRecorded(h, gap);
    RunKeepsRecords(h, steps, gap);
    HistoryPairsUp(Run(h, steps).servers[k].log);
  }

  function LeastWindow(steps: seq<Step>): (gap: int)
    ensures WindowsAtLeast(steps, gap)
  {
    if steps == [] then 0
    else
      var rest := LeastWindow(steps[1..]);
      var gap := if steps[0].Check? && steps[0].cycle.window < rest then steps[0].cycle.window else rest;
      assert forall i | 1 <= i < |steps| :: steps[i] == steps[1..][i - 1];
      gap
  }

  /** Flap protection over whole runs: with windows of at least `gap`, the sent down alerts of a
      server are at least `gap` apart, so no stretch of `span` holds more than span / gap + 1. */
  lemma {:induction false} FlapBound(h: Host, steps: seq<Step>, gap: nat, k: nat, i: nat, j: nat, span: nat)
    requires Fresh(h) && gap > 0 && WindowsAtLeast(steps, gap)
    requires k < |Run(h, steps).servers|
    ensures Spacing.Spaced(SentDowns(Run(h, steps).servers[k].log), gap)
    ensures var sent := SentDowns(Run(h, steps).servers[k].log);
            i < j <= |sent| && sent[j - 1] - sent[i] <= span ==> j - i <= span / gap + 1
  {
    RunKeepsRecords(h, steps, gap);
    var sent := SentDowns(Run(h, steps).servers[k].log);
    if i < j <= |sent| && sent[j - 1] - sent[i] <= span {
      Spacing.AtMost(sent, gap, i, j, span);
    }
  }

  // ---------------------------------------------------------------------------
  // One cycle: no outage is forgotten, and planning again changes nothing
  // ---------------------------------------------------------------------------

  /** Where an enabled server outside maintenance stands after any cycle. */
  lemma {:induction false} NoOutageForgotten(h: Host, c: Cycle, i: nat)
    requires i < |h.servers| && h.servers[i].InService()
    ensures var h' := RunCycle(h, c);
            var s := h'.servers[i];
      && (s.lastStatus == Up ==> s.alertStatus == SaidUp)
      && (s.lastStatus == Down ==>
            || s.alertStatus == SaidDown
            || (s.alertStatus == ByHost && h'.status == Down)
            || (h'.status != Down && s.alertDownAt.Some? && c.now - s.alertDownAt.value < c.window)
            || (s.alertStatus == Never && h.servers[i].alertStatus == Never))
  {
    assert CheckHost(h, c).servers[i].InService();
  }

  /** Planning again at the same clock, with the now current statuses as the previous ones, returns
      no items and changes nothing (maintenance is only marked again). */
  lemma {:induction false} PlanningTwiceIsPlanningOnce(rows: seq<Server>, observed: seq<Option<Status>>, c: Context)
    requires |observed| == |rows|
    ensures var once := Plan(rows, observed, c);
            var twice := Plan(once, Statuses(once), c);
            forall i | 0 <= i < |rows| ::
              twice[i] == if once[i].enabled && once[i].down then once[i].Logged(Maintained) else once[i]
  {
  }
}
