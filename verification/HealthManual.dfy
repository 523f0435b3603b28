/** What a manual check in the middle of an outage does to the grouping of its alerts. */
module HealthManual {
  import opened Wrappers
  import opened HealthModel
  import opened HealthOutages

  /** An alert of the server would not be held in this cycle. */
  predicate WindowOpen(s: Server, c: Cycle) {
    s.alertDownAt.None? || c.now - s.alertDownAt.value >= c.window
  }

  /** The host after a manual check that reached the servers in `reached`, and some further steps. */
  function Since(h: Host, reached: set<string>, steps: seq<Step>): Host {
    Run(Next(h, CheckNow(reached)), steps)
  }

  /** Step `j` is a cycle that leaves the host not confirmed down and finds the server's flap window open. */
  predicate Early(h: Host, reached: set<string>, steps: seq<Step>, s: Server, j: nat)
    requires j < |steps|
  {
    steps[j].Check? && WindowOpen(s, steps[j].cycle) && Since(h, reached, steps[..j + 1]).status != Down
  }

  /** Some such cycle comes before the one that confirms the outage. */
  predicate SomeEarly(h: Host, reached: set<string>, steps: seq<Step>, s: Server) {
    exists j | 0 <= j < |steps| :: Early(h, reached, steps, s, j)
  }

  /** How a server that was announced up stands since the check: `told` says whether an early cycle came. */
  ghost predicate Stands(s: Server, t: Server, h: Host, reached: bool, told: bool) {
    if reached then
      && t.failures <= h.failures
      && ((t.lastStatus == Up && t.alertStatus == SaidUp && t.failures <= 1 && t.log == s.log)
          || (h.status == Down && CoveredSince(s, t)))
    else
      && t.lastStatus == Down
      && if told then t.alertStatus == SaidDown && exists at :: t.log == s.log + [Note(at, WentDown, Sent)]
         else if h.status == Down then CoveredSince(s, t)
         else t.alertStatus == SaidUp && t.log == s.log && t.alertDownAt == s.alertDownAt
  }

  ghost predicate CoveredSince(s: Server, t: Server) {
    t.lastStatus == Down && t.alertStatus == ByHost && exists at :: t.log == s.log + [Note(at, WentDown, Grouped)]
  }

  // ---------------------------------------------------------------------------
  // The host
  // ---------------------------------------------------------------------------

  /** The rows are the same ones, switched the same way. */
  predicate SameRows(h: Host, k: Host) {
    && |k.servers| == |h.servers|
    && forall i | 0 <= i < |h.servers| ::
         && k.servers[i].id == h.servers[i].id
         && k.servers[i].enabled == h.servers[i].enabled && k.servers[i].down == h.servers[i].down
  }

  lemma {:induction false} StepKeepsRows(h: Host, step: Step)
    requires step.Check? || step.Restart? || step.SetAutoDown? || step.CheckNow?
    ensures SameRows(h, Next(h, step))
  {
    if step.Check? {
      forall i | 0 <= i < |h.servers|
        ensures var t := Next(h, step).servers[i];
          t.id == h.servers[i].id && t.enabled == h.servers[i].enabled && t.down == h.servers[i].down
      {
        CycleOnServer(h, step.cycle, i);
      }
    }
  }

  lemma {:induction false} NobodyAnswers(h: Host, k: Host, c: Cycle, i: nat)
    requires SameRows(h, k) && !Answering(h.servers, c.answering) && i < |h.servers| && h.servers[i].InService()
    ensures !HostUp(k, c)
  {
    assert k.servers[i].enabled;
    forall j | 0 <= j < |k.servers| ensures !(k.servers[j].InService() && k.servers[j].id in c.answering) {
      assert h.servers[j].enabled == k.servers[j].enabled;
    }
  }

  /** The host while nothing answers: not announced yet, or announced down once. */
  ghost predicate HostStands(h: Host, k: Host) {
    if k.status == Down then exists at :: k.notes == h.notes + [HostDown(at)]
    else k.notes == h.notes
  }

  lemma {:induction false} FailingCycleOnHost(h: Host, k: Host, c: Cycle)
    requires HostStands(h, k) && !HostUp(k, c)
    ensures HostStands(h, RunCycle(k, c))
  {
    if GoesDown(k, c) { assert RunCycle(k, c).notes == h.notes + [HostDown(c.checked)]; }
  }

  // ---------------------------------------------------------------------------
  // One server
  // ---------------------------------------------------------------------------

  /** A failing cycle, for a server that the manual check did not reach. */
  lemma {:induction false} CycleOnUnreached(s: Server, k: Host, c: Cycle, i: nat, told: bool)
    requires i < |k.servers| && k.servers[i].InService() && k.servers[i].id !in c.answering && !HostUp(k, c)
    requires Stands(s, k.servers[i], k, false, told)
    ensures Stands(s, RunCycle(k, c).servers[i], RunCycle(k, c), false, told || (NewStatus(k, c) != Down && WindowOpen(s, c)))
  {
    CycleOnServer(k, c, i);
    var t, n := k.servers[i], RunCycle(k, c).servers[i];
    if !told && k.status != Down {
      if NewStatus(k, c) == Down {
        assert n.log == s.log + [Note(c.now, WentDown, Grouped)];
      } else if WindowOpen(s, c) {
        assert n.log == s.log + [Note(c.now, WentDown, Sent)];
      }
    }
  }

  /** A failing cycle, for a server that it did reach. */
  lemma {:induction false} CycleOnReached(s: Server, k: Host, c: Cycle, i: nat, told: bool)
    requires i < |k.servers| && k.servers[i].InService() && k.servers[i].id !in c.answering && !HostUp(k, c)
    requires Stands(s, k.servers[i], k, true, told)
    ensures Stands(s, RunCycle(k, c).servers[i], RunCycle(k, c), true, told)
  {
    CycleOnServer(k, c, i);
    var t, n := k.servers[i], RunCycle(k, c).servers[i];
    if t.lastStatus == Up && n.lastStatus == Down {
      assert n.log == s.log + [Note(c.now, WentDown, Grouped)];
    }
  }

  lemma {:induction false} FirstStands(h: Host, reached: set<string>, i: nat)
    requires h.status != Down && i < |h.servers| && h.servers[i].InService() && h.servers[i].alertStatus == SaidUp
    ensures var k := Next(h, CheckNow(reached));
      Stands(h.servers[i], k.servers[i], k, h.servers[i].id in reached, false)
  {
    var s, k := h.servers[i], Next(h, CheckNow(reached));
    assert k.servers[i] == ProbeServer(s, reached, false);
  }

  lemma {:induction false} OneMoreStep(h: Host, reached: set<string>, steps: seq<Step>, s: Server)
    requires steps != []
    ensures var n := |steps| - 1;
      SomeEarly(h, reached, steps, s) <==> SomeEarly(h, reached, steps[..n], s) || Early(h, reached, steps, s, n)
  {
    var n := |steps| - 1;
    forall j | 0 <= j < n ensures Early(h, reached, steps[..n], s, j) <==> Early(h, reached, steps, s, j) {
      assert steps[..n][..j + 1] == steps[..j + 1];
    }
  }

  // ---------------------------------------------------------------------------
  // The whole outage
  // ---------------------------------------------------------------------------

  /** Everything there is to know about the host and one of its servers while nothing answers. */
  lemma {:induction false} StandsThroughout(h: Host, reached: set<string>, steps: seq<Step>, i: nat)
    requires h.status != Down && AllFail(h, steps)
    requires i < |h.servers| && h.servers[i].InService() && h.servers[i].alertStatus == SaidUp
    ensures var k := Since(h, reached, steps);
      && SameRows(h, k) && HostStands(h, k)
      && Stands(h.servers[i], k.servers[i], k, h.servers[i].id in reached, SomeEarly(h, reached, steps, h.servers[i]))
  {
    if steps == [] {
      FirstStands(h, reached, i);
      StepKeepsRows(h, CheckNow(reached));
    } else {
      var n := |steps| - 1;
      var s, k := h.servers[i], Since(h, reached, steps[..n]);
      assert forall j | 0 <= j < n :: steps[..n][j] == steps[j];
      StandsThroughout(h, reached, steps[..n], i);
      assert steps[n].Restart? || steps[n].SetAutoDown? || steps[n].Check?;
      StepKeepsRows(k, steps[n]);
      OneMoreStep(h, reached, steps, s);
      assert steps[..n + 1] == steps;
      StepStands(h, k, s, steps[n], i, s.id in reached, SomeEarly(h, reached, steps[..n], s));
    }
  }

  lemma {:induction false} StepStands(h: Host, k: Host, s: Server, step: Step, i: nat, reached: bool, told: bool)
    requires SameRows(h, k) && HostStands(h, k) && i < |h.servers| && h.servers[i].InService() && s.id == h.servers[i].id
    requires step.Restart? || step.SetAutoDown? || (step.Check? && !Answering(h.servers, step.cycle.answering))
    requires Stands(s, k.servers[i], k, reached, told)
    ensures var n := Next(k, step);
      && HostStands(h, n)
      && Stands(s, n.servers[i], n, reached, told || (step.Check? && WindowOpen(s, step.cycle) && n.status != Down))
  {
    if step.Check? {
      NobodyAnswers(h, k, step.cycle, i);
      FailingCycleOnHost(h, k, step.cycle);
      assert k.servers[i].InService() && k.servers[i].id !in step.cycle.answering;
      if reached {
        CycleOnReached(s, k, step.cycle, i, told);
      } else {
        CycleOnUnreached(s, k, step.cycle, i, told);
      }
    }
  }

  /** However long the outage goes on and whenever the process restarts: the host is announced down at most once;
      a server in service that was announced up is announced down at most once, on its own exactly when the manual
      check did not reach it and a cycle before the confirming one found its flap window open, and otherwise
      grouped with the host once both are confirmed down. */
  lemma {:induction false} OutageAfterManualCheck(h: Host, reached: set<string>, steps: seq<Step>, i: nat)
    requires h.status != Down && AllFail(h, steps)
    requires i < |h.servers| && h.servers[i].InService() && h.servers[i].alertStatus == SaidUp
    ensures HostStands(h, Since(h, reached, steps)) && i < |Since(h, reached, steps).servers|
    ensures var s, t := h.servers[i], Since(h, reached, steps).servers[i];
      if s.id !in reached && SomeEarly(h, reached, steps, s) then exists at :: t.log == s.log + [Note(at, WentDown, Sent)]
      else if Since(h, reached, steps).status == Down && t.lastStatus == Down then
        exists at :: t.log == s.log + [Note(at, WentDown, Grouped)]
      else t.log == s.log
  {
    StandsThroughout(h, reached, steps, i);
  }

  /** A manual check splits the outage for a server, at any time during it, exactly then. */
  lemma {:induction false} ManualCheckSplitsExactly(h: Host, reached: set<string>, steps: seq<Step>, i: nat)
    requires h.status != Down && AllFail(h, steps)
    requires i < |h.servers| && h.servers[i].InService() && h.servers[i].alertStatus == SaidUp
    ensures i < |Since(h, reached, steps).servers|
    ensures var s, t := h.servers[i], Since(h, reached, steps).servers[i];
      (exists at :: t.log == s.log + [Note(at, WentDown, Sent)]) <==> s.id !in reached && SomeEarly(h, reached, steps, s)
  {
    OutageAfterManualCheck(h, reached, steps, i);
    var s, t := h.servers[i], Since(h, reached, steps).servers[i];
    if !(s.id !in reached && SomeEarly(h, reached, steps, s)) {
      if at :| t.log == s.log + [Note(at, WentDown, Grouped)] {
        assert t.log[|s.log|] == Note(at, WentDown, Grouped);
        assert forall b :: (s.log + [Note(b, WentDown, Sent)])[|s.log|] == Note(b, WentDown, Sent);
      }
    }
  }

  /** In the next failing cycle already exactly when, besides, no failing cycle of this process came before the
      check. */
  lemma {:induction false} NextCycleSplitsExactly(h: Host, reached: set<string>, c: Cycle, i: nat)
    requires h.status != Down && !Answering(h.servers, c.answering)
    requires i < |h.servers| && h.servers[i].InService() && h.servers[i].alertStatus == SaidUp
    ensures i < |RunCycle(Next(h, CheckNow(reached)), c).servers|
    ensures var s, t := h.servers[i], RunCycle(Next(h, CheckNow(reached)), c).servers[i];
      (exists at :: t.log == s.log + [Note(at, WentDown, Sent)]) <==>
        s.id !in reached && WindowOpen(s, c) && h.failures == 0
  {
    var steps, k := [Check(c)], Next(h, CheckNow(reached));
    assert steps[..0] == [] && steps[..1] == steps;
    assert Run(k, steps[..|steps| - 1]) == k;
    assert Since(h, reached, steps) == Next(k, Check(c));
    ManualCheckSplitsExactly(h, reached, steps, i);
    StepKeepsRows(h, CheckNow(reached));
    NobodyAnswers(h, k, c, i);
    assert RunCycle(k, c).status == NewStatus(k, c);
    OneMoreStep(h, reached, steps, h.servers[i]);
  }

  function Example(): Host {
    Host(Up, Some(0), 0, false,
      [Server("a", Address("a", 80), true, false, false, Up, SaidUp, None, 0, [SeenUp])], [])
  }

  /** It does happen: an outage seen first by a manual check is announced for the server and again for the host. */
  lemma {:induction false} ManualCheckSplitsTheOutage()
    ensures var miss := Cycle(60, 60, 300, {}, false);
      var after := RunCycle(RunCycle(Next(Example(), CheckNow({})), miss), miss);
      && after.servers[0].log == [SeenUp, Note(60, WentDown, Sent)]
      && after.notes == [HostDown(60)]
  {
    var miss := Cycle(60, 60, 300, {}, false);
    var h := Next(Example(), CheckNow({}));
    assert h.servers[0].lastStatus == Down && h.servers[0].failures == 1;
    assert !HostUp(h, miss) by { assert h.servers[0].enabled; }
    var h1 := RunCycle(h, miss);
    assert h1.status == Up && h1.failures == 1;
    assert h1.servers[0].log == [SeenUp, Note(60, WentDown, Sent)];
    assert !HostUp(h1, miss) by { assert h1.servers[0].enabled; }
  }
}
