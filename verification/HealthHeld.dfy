/** Held alerts: what flap protection records when it sends nothing. */
module HealthHeld {
  import opened Wrappers
  import opened HealthModel
  import opened HealthOutages

  /** The latest event of a history. */
  function LastNote(log: seq<Entry>): (last: Option<Entry>)
    ensures last.Some? ==> last.value.Note?
  {
    if log == [] then None
    else
      var e := log[|log| - 1];
      if e.Note? then Some(e) else LastNote(log[..|log| - 1])
  }

  /** No drop is on record since the latest recovery. */
  predicate Closed(log: seq<Entry>) {
    LastNote(log) == None || LastNote(log).value.event == Recovered
  }

  /** The latest event is a held drop. */
  predicate Holding(log: seq<Entry>) {
    LastNote(log).Some? && LastNote(log).value.IsNote(WentDown, Held)
  }

  /** A held drop is recorded once, when the drop is seen; a held recovery closes a held drop. */
  predicate HeldPairUp(log: seq<Entry>) {
    && (forall j | 0 <= j < |log| && log[j].IsNote(WentDown, Held) :: Closed(log[..j]))
    && (forall j | 0 <= j < |log| && log[j].IsNote(Recovered, Held) :: Holding(log[..j]))
  }

  /** How a server in service stands between two cycles. */
  predicate Standing(s: Server) {
    && (s.lastStatus == Unknown ==> s.alertStatus == Never)
    && (s.alertStatus == Never ==> s.log == [] && s.lastStatus != Up)
    && (s.lastStatus == Up ==> Closed(s.log))
    && (s.lastStatus == Down && s.alertStatus == SaidUp ==> Holding(s.log))
    && (s.alertStatus == SaidDown || s.alertStatus == ByHost ==> s.lastStatus == Down)
    && HeldPairUp(s.log)
  }

  lemma {:induction false} NoteAppended(log: seq<Entry>, e: Entry)
    requires HeldPairUp(log)
    requires e.IsNote(WentDown, Held) ==> Closed(log)
    requires e.IsNote(Recovered, Held) ==> Holding(log)
    ensures HeldPairUp(log + [e])
    ensures LastNote(log + [e]) == if e.Note? then Some(e) else LastNote(log)
  {
    var longer := log + [e];
    assert longer[..|log|] == log;
    forall j | 0 <= j < |longer|
      ensures longer[j].IsNote(WentDown, Held) ==> Closed(longer[..j])
      ensures longer[j].IsNote(Recovered, Held) ==> Holding(longer[..j])
    {
      if j < |log| { assert longer[..j] == log[..j] && longer[j] == log[j]; }
    }
  }

  lemma {:induction false} DropKeepsStanding(s: Server, p: Server, c: Context)
    requires Standing(s) && p.lastStatus == Down && p.log == s.log && p.alertStatus == s.alertStatus
    ensures Standing(PlanDown(p, Some(s.lastStatus), c))
  {
    var t := PlanDown(p, Some(s.lastStatus), c);
    if t.log != s.log { NoteAppended(s.log, t.log[|s.log|]); }
  }

  lemma {:induction false} ReturnKeepsStanding(s: Server, p: Server, c: Context)
    requires Standing(s) && p.lastStatus == Up && p.log == s.log && p.alertStatus == s.alertStatus
    ensures Standing(PlanUp(p, Some(s.lastStatus), c))
  {
    var t := PlanUp(p, Some(s.lastStatus), c);
    if s.alertStatus == Never {
      FirstSighting(t.log);
    } else if t.log != s.log {
      NoteAppended(s.log, t.log[|s.log|]);
    }
  }

  lemma {:induction false} FirstSighting(log: seq<Entry>)
    requires log == [SeenUp]
    ensures HeldPairUp(log) && LastNote(log) == None
  {
  }

  lemma {:induction false} PlanKeepsStanding(s: Server, p: Server, c: Context)
    requires Standing(s) && p.InService() && p.lastStatus != Unknown
    requires p.log == s.log && p.alertStatus == s.alertStatus
    ensures Standing(PlanServer(p, Some(s.lastStatus), c))
  {
    if p.lastStatus == Down { DropKeepsStanding(s, p, c); } else { ReturnKeepsStanding(s, p, c); }
  }

  /** In every run without manual checks and edits, the held events of a server in service pair up. */
  lemma {:induction false} HeldAlertsPairUp(h: Host, steps: seq<Step>, k: nat)
    requires Fresh(h) && Undisturbed(steps) && k < |Run(h, steps).servers| && Run(h, steps).servers[k].InService()
    ensures Standing(Run(h, steps).servers[k])
  {
    if steps != [] {
      var n := |steps| - 1;
      var before := Run(h, steps[..n]);
      if steps[n].Check? { CycleOnServer(before, steps[n].cycle, k); }
      HeldAlertsPairUp(h, steps[..n], k);
      if steps[n].Check? {
        PlanKeepsStanding(before.servers[k], CheckHost(before, steps[n].cycle).servers[k], ContextOf(before, steps[n].cycle));
      }
    }
  }
}
