/** Serving each occurrence of a cron schedule once, from a loop that wakes up now and then. */
module CronSlots {
  import opened Wrappers

  // Times are seconds.
  const RECENT: int := 600

  /** What a schedule's latest occurrence is at a given time; None when the expression is invalid. */
  type Schedule = int -> Option<int>

  /** One round of the loop: its clock reading and the settings it read. */
  datatype Tick = Tick(now: int, enabled: bool, schedule: Schedule)

  datatype Firing = Firing(slot: int, at: int)

  /** The slot a tick fires, given the slot fired last. */
  function Due(last: Option<int>, tick: Tick): Option<int> {
    if !tick.enabled then None
    else
      var slot := tick.schedule(tick.now);
      if slot.Some? && 0 <= tick.now - slot.value < RECENT && slot != last then slot else None
  }

  function LastSlot(fired: seq<Firing>): Option<int> {
    if fired == [] then None else Some(fired[|fired| - 1].slot)
  }

  /** Everything a process fires over its ticks. */
  function Fired(ticks: seq<Tick>): seq<Firing> {
    if ticks == [] then []
    else
      var n := |ticks| - 1;
      var before := Fired(ticks[..n]);
      var due := Due(LastSlot(before), ticks[n]);
      if due.Some? then before + [Firing(due.value, ticks[n].now)] else before
  }

  class Scheduler {
    var lastFiredSlot: Option<int>

    constructor ()
      ensures lastFiredSlot == None
    {
      lastFiredSlot := None;
    }

    /** The loop over a finite number of rounds. */
    method Loop(ticks: seq<Tick>) returns (fired: seq<Firing>)
      requires lastFiredSlot == None
      modifies this
      ensures fired == Fired(ticks)
      ensures lastFiredSlot == LastSlot(fired)
    {
      fired := [];
      var i := 0;
      while i < |ticks|
        invariant 0 <= i <= |ticks|
        invariant fired == Fired(ticks[..i])
        invariant lastFiredSlot == LastSlot(fired)
      {
        var tick := ticks[i];
        i := i + 1;
        assert ticks[..i][..i - 1] == ticks[..i - 1];
        if !tick.enabled {
          continue;
        }
        var slot := tick.schedule(tick.now);
        if slot == None {
          continue;
        }
        var age := tick.now - slot.value;
        if 0 <= age < RECENT && slot != lastFiredSlot {
          lastFiredSlot := slot;
          fired := fired + [Firing(slot.value, tick.now)];
        }
      }
      assert ticks[..i] == ticks;
    }
  }

  // ---------------------------------------------------------------------------
  // Safety
  // ---------------------------------------------------------------------------

  /** `schedule` names the latest of `slots` before a time; a slot at the very instant may count or not. */
  ghost predicate Latest(schedule: Schedule, slots: iset<int>) {
    && (forall now :: schedule(now).Some? ==> schedule(now).value in slots && schedule(now).value <= now)
    && (forall now, s | s in slots && s < now :: schedule(now).Some? && s <= schedule(now).value)
  }

  /** The clock never runs backwards and the cron expression stays the same. */
  ghost predicate Steady(ticks: seq<Tick>, schedule: Schedule) {
    && (forall i | 0 <= i < |ticks| :: ticks[i].schedule == schedule)
    && (forall i, j | 0 <= i < j < |ticks| :: ticks[i].now <= ticks[j].now)
  }

  /** Each slot fires at most once and in order, never before it arrives and never 600 seconds or more late. */
  ghost predicate InOrder(fired: seq<Firing>, slots: iset<int>) {
    && (forall i | 0 <= i < |fired| :: fired[i].slot in slots && 0 <= fired[i].at - fired[i].slot < 600)
    && (forall i, j | 0 <= i < j < |fired| :: fired[i].slot < fired[j].slot)
  }

  lemma {:induction false} LaterTickLaterSlot(schedule: Schedule, slots: iset<int>, now: int, later: int)
    requires Latest(schedule, slots) && now <= later && schedule(now).Some?
    ensures schedule(later).Some? && schedule(now).value <= schedule(later).value
  {
  }

  lemma {:induction false} SteadyPrefix(ticks: seq<Tick>, schedule: Schedule)
    requires ticks != [] && Steady(ticks, schedule)
    ensures Steady(ticks[..|ticks| - 1], schedule)
  {
  }

  /** Every firing is for the slot its own tick read, and no later than `now`. */
  predicate ReadBy(fired: seq<Firing>, schedule: Schedule, now: int) {
    forall i | 0 <= i < |fired| :: schedule(fired[i].at) == Some(fired[i].slot) && fired[i].at <= now
  }

  lemma {:induction false} OneMoreInOrder(before: seq<Firing>, schedule: Schedule, slots: iset<int>, tick: Tick)
    requires Latest(schedule, slots) && InOrder(before, slots) && ReadBy(before, schedule, tick.now)
    requires tick.schedule == schedule && Due(LastSlot(before), tick).Some?
    ensures var fired := before + [Firing(Due(LastSlot(before), tick).value, tick.now)];
      InOrder(fired, slots) && ReadBy(fired, schedule, tick.now)
  {
    if before != [] {
      LaterTickLaterSlot(schedule, slots, before[|before| - 1].at, tick.now);
    }
  }

  lemma {:induction false} SlotsFireInOrder(ticks: seq<Tick>, schedule: Schedule, slots: iset<int>)
    requires Latest(schedule, slots) && Steady(ticks, schedule)
    ensures InOrder(Fired(ticks), slots)
    ensures ticks != [] ==> ReadBy(Fired(ticks), schedule, ticks[|ticks| - 1].now)
  {
    if ticks != [] {
      var n := |ticks| - 1;
      var before := Fired(ticks[..n]);
      SteadyPrefix(ticks, schedule);
      SlotsFireInOrder(ticks[..n], schedule, slots);
      if n > 0 { assert ticks[..n][n - 1] == ticks[n - 1] && ticks[n - 1].now <= ticks[n].now; }
      assert ReadBy(before, schedule, ticks[n].now);
      if Due(LastSlot(before), ticks[n]).Some? {
        OneMoreInOrder(before, schedule, slots, ticks[n]);
      }
    }
  }

  // ---------------------------------------------------------------------------
  // Liveness
  // ---------------------------------------------------------------------------

  ghost predicate FiresSlot(fired: seq<Firing>, slot: int) {
    exists i :: 0 <= i < |fired| && fired[i].slot == slot
  }

  /** An enabled tick that finds the slot to be the latest one, and recent. */
  predicate Sees(tick: Tick, slot: int) {
    tick.enabled && tick.schedule(tick.now) == Some(slot) && 0 <= tick.now - slot < 600
  }

  /** A slot fires exactly when some enabled tick sees it in time. This holds for every run of ticks, even when
      the settings or the clock change in between. */
  lemma {:induction false} FiresExactlyWhenSeen(ticks: seq<Tick>, slot: int)
    ensures FiresSlot(Fired(ticks), slot) <==> exists i :: 0 <= i < |ticks| && Sees(ticks[i], slot)
  {
    if ticks != [] {
      var n := |ticks| - 1;
      var before, all := Fired(ticks[..n]), Fired(ticks);
      FiresExactlyWhenSeen(ticks[..n], slot);
      if Sees(ticks[n], slot) {
        assert all[|all| - 1].slot == slot;
      } else if FiresSlot(before, slot) {
        var i :| 0 <= i < |before| && before[i].slot == slot;
        assert all[i].slot == slot;
        var k :| 0 <= k < n && Sees(ticks[..n][k], slot);
        assert Sees(ticks[k], slot);
      } else {
        forall k | 0 <= k < |ticks| ensures !Sees(ticks[k], slot) {
          if k < n { assert !Sees(ticks[..n][k], slot); }
        }
      }
    }
  }

  /** When the loop wakes up at most `gap` apart, the slots are further apart than that, and the job stays
      enabled, every slot that passes while the loop runs fires, once. */
  lemma {:induction false} EverySlotFiresOnce(ticks: seq<Tick>, schedule: Schedule, slots: iset<int>, gap: int,
                                              slot: int)
    requires Latest(schedule, slots) && Steady(ticks, schedule) && gap < 600
    requires forall i | 0 <= i < |ticks| :: ticks[i].enabled
    requires forall i | 0 <= i < |ticks| - 1 :: ticks[i + 1].now - ticks[i].now <= gap
    requires forall s, t | s in slots && t in slots && s < t :: t - s > gap
    requires slot in slots && |ticks| > 0 && ticks[0].now <= slot < ticks[|ticks| - 1].now
    ensures FiresSlot(Fired(ticks), slot)
    ensures forall i, j | 0 <= i < |Fired(ticks)| && 0 <= j < |Fired(ticks)| && Fired(ticks)[i].slot == Fired(ticks)[j].slot :: i == j
  {
    var k := FirstAfter(ticks, slot);
    var seen := schedule(ticks[k].now);
    assert ticks[k].now <= ticks[k - 1].now + gap;
    assert seen.Some? && slot <= seen.value;
    assert Sees(ticks[k], slot);
    FiresExactlyWhenSeen(ticks, slot);
    SlotsFireInOrder(ticks, schedule, slots);
  }

  lemma {:induction false} FirstAfter(ticks: seq<Tick>, slot: int) returns (k: nat)
    requires |ticks| > 0 && ticks[0].now <= slot < ticks[|ticks| - 1].now
    ensures 0 < k < |ticks| && ticks[k - 1].now <= slot < ticks[k].now
  {
    k := |ticks| - 1;
    if ticks[k - 1].now > slot {
      assert ticks[..k][k - 1] == ticks[k - 1];
      k := FirstAfter(ticks[..k], slot);
    }
  }

  /** A wake-up 600 seconds after the one before it can miss a slot. */
  lemma {:induction false} SlowLoopMissesSlot(slot: int)
    ensures var once := (now: int) => if slot <= now then Some(slot) else None;
      && Latest(once, iset{slot})
      && !FiresSlot(Fired([Tick(slot - 1, true, once), Tick(slot + 600, true, once)]), slot)
  {
    var once := (now: int) => if slot <= now then Some(slot) else None;
    var ticks := [Tick(slot - 1, true, once), Tick(slot + 600, true, once)];
    FiresExactlyWhenSeen(ticks, slot);
  }

  // ---------------------------------------------------------------------------
  // When a slot fires twice
  // ---------------------------------------------------------------------------

  function Firings(fired: seq<Firing>, slot: int): nat {
    if fired == [] then 0
    else Firings(fired[..|fired| - 1], slot) + if fired[|fired| - 1].slot == slot then 1 else 0
  }

  /** The slot a tick sees, if any. */
  function Seen(tick: Tick): (slot: Option<int>)
    ensures forall s :: slot == Some(s) <==> Sees(tick, s)
  {
    if tick.schedule(tick.now).Some? && Sees(tick, tick.schedule(tick.now).value) then tick.schedule(tick.now) else None
  }

  function LastSeen(ticks: seq<Tick>): Option<int> {
    if ticks == [] then None
    else
      var n := |ticks| - 1;
      if Seen(ticks[n]).Some? then Seen(ticks[n]) else LastSeen(ticks[..n])
  }

  /** The slot fired last is the slot seen last. */
  lemma {:induction false} LastFiredIsLastSeen(ticks: seq<Tick>)
    ensures LastSlot(Fired(ticks)) == LastSeen(ticks)
  {
    if ticks != [] { LastFiredIsLastSeen(ticks[..|ticks| - 1]); }
  }

  lemma {:induction false} OneMoreTick(ticks: seq<Tick>, slot: int)
    requires ticks != []
    ensures var n := |ticks| - 1;
      Firings(Fired(ticks), slot) == Firings(Fired(ticks[..n]), slot)
        + if Sees(ticks[n], slot) && LastSeen(ticks[..n]) != Some(slot) then 1 else 0
  {
    var n := |ticks| - 1;
    var before := Fired(ticks[..n]);
    LastFiredIsLastSeen(ticks[..n]);
    var due := Due(LastSlot(before), ticks[n]);
    if due.Some? {
      assert (before + [Firing(due.value, ticks[n].now)])[..|before|] == before;
    }
  }

  predicate SeesOther(tick: Tick, slot: int) { Seen(tick).Some? && !Sees(tick, slot) }

  /** The slot is seen, then another one, and then the slot again: how far the ticks get. */
  function Stage(ticks: seq<Tick>, slot: int): (stage: nat)
    ensures stage <= 3
  {
    if ticks == [] then 0
    else
      var n := |ticks| - 1;
      var stage := Stage(ticks[..n], slot);
      if stage == 1 then (if SeesOther(ticks[n], slot) then 2 else 1)
      else if stage < 3 && Sees(ticks[n], slot) then stage + 1
      else stage
  }

  lemma {:induction false} FiringsFollowStage(ticks: seq<Tick>, slot: int)
    ensures var stage, count := Stage(ticks, slot), Firings(Fired(ticks), slot);
      && (stage == 0 ==> count == 0 && LastSeen(ticks) != Some(slot))
      && (stage == 1 ==> count == 1 && LastSeen(ticks) == Some(slot))
      && (stage == 2 ==> count == 1 && LastSeen(ticks) != Some(slot))
      && (stage == 3 ==> count >= 2)
  {
    if ticks != [] {
      FiringsFollowStage(ticks[..|ticks| - 1], slot);
      OneMoreTick(ticks, slot);
    }
  }

  /** The slot is seen, another one after it, and the slot again after that. */
  ghost predicate SeenAgain(ticks: seq<Tick>, slot: int) {
    exists i, j, k :: 0 <= i < j < k < |ticks| && Sees(ticks[i], slot) && SeesOther(ticks[j], slot) && Sees(ticks[k], slot)
  }

  ghost predicate SeenThenOther(ticks: seq<Tick>, slot: int) {
    exists i, j :: 0 <= i < j < |ticks| && Sees(ticks[i], slot) && SeesOther(ticks[j], slot)
  }

  ghost predicate SeenAtAll(ticks: seq<Tick>, slot: int) {
    exists i :: 0 <= i < |ticks| && Sees(ticks[i], slot)
  }

  lemma {:induction false} SeenGrows(ticks: seq<Tick>, slot: int)
    requires ticks != []
    ensures var n := |ticks| - 1;
      && (SeenAtAll(ticks, slot) <==> SeenAtAll(ticks[..n], slot) || Sees(ticks[n], slot))
      && (SeenThenOther(ticks, slot) <==>
            SeenThenOther(ticks[..n], slot) || (SeenAtAll(ticks[..n], slot) && SeesOther(ticks[n], slot)))
      && (SeenAgain(ticks, slot) <==>
            SeenAgain(ticks[..n], slot) || (SeenThenOther(ticks[..n], slot) && Sees(ticks[n], slot)))
  {
    assert forall i | 0 <= i < |ticks| - 1 :: ticks[..|ticks| - 1][i] == ticks[i];
  }

  lemma {:induction false} StageIsSeen(ticks: seq<Tick>, slot: int)
    ensures Stage(ticks, slot) >= 1 <==> SeenAtAll(ticks, slot)
    ensures Stage(ticks, slot) >= 2 <==> SeenThenOther(ticks, slot)
    ensures Stage(ticks, slot) >= 3 <==> SeenAgain(ticks, slot)
  {
    if ticks != [] {
      StageIsSeen(ticks[..|ticks| - 1], slot);
      SeenGrows(ticks, slot);
    }
  }

  /** In any run of ticks, settings and clock changes included, a slot fires more than once exactly when enabled
      ticks see it, then another slot, and then it again, each within its ten minutes. */
  lemma {:induction false} FiresTwiceExactly(ticks: seq<Tick>, slot: int)
    ensures Firings(Fired(ticks), slot) >= 2 <==> SeenAgain(ticks, slot)
  {
    FiringsFollowStage(ticks, slot);
    StageIsSeen(ticks, slot);
  }

  /** It does happen: the cron expression is changed and changed back within ten minutes. */
  lemma {:induction false} ChangingTheScheduleRepeatsSlot(slot: int)
    ensures var two := (now: int) => Some(slot);
      var other := (now: int) => Some(slot + 60);
      var fired := Fired([Tick(slot + 30, true, two), Tick(slot + 90, true, other), Tick(slot + 150, true, two)]);
      fired == [Firing(slot, slot + 30), Firing(slot + 60, slot + 90), Firing(slot, slot + 150)]
  {
    var two := (now: int) => Some(slot);
    var other := (now: int) => Some(slot + 60);
    var ticks := [Tick(slot + 30, true, two), Tick(slot + 90, true, other), Tick(slot + 150, true, two)];
    assert ticks[..2][..1] == [Tick(slot + 30, true, two)] && ticks[..2] == [Tick(slot + 30, true, two), Tick(slot + 90, true, other)];
    assert Fired(ticks[..2][..1]) == [Firing(slot, slot + 30)];
    assert Fired(ticks[..2]) == [Firing(slot, slot + 30), Firing(slot + 60, slot + 90)];
  }
}
