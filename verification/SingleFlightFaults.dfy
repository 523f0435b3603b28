/** Which faults break single flight: exactly those after the first look at the cache. */
module SingleFlightFaults {
  import opened Wrappers
  import opened SingleFlight

  /** What has gone wrong for a key over a whole run. */
  function FaultsOf(actions: seq<Action>, k: Key): set<Fault> {
    if actions == [] then {}
    else
      var n := |actions| - 1;
      var fault := FaultOf(Run(INITIAL, actions[..n]), actions[n], k);
      FaultsOf(actions[..n], k) + if fault.Some? then {fault.value} else {}
  }

  predicate IsBusy(s: State, t: Task, k: Key) {
    t in s.calls && s.calls[t].key == k && (s.calls[t].pc.Producing? || s.calls[t].pc.Storing?)
  }

  predicate TwoBusy(s: State, k: Key) {
    exists t, u | t in s.calls && u in s.calls :: t != u && IsBusy(s, t, k) && IsBusy(s, u, k)
  }

  /** In all runs in which nothing but `permitted` goes wrong for a key, no two of its calls are busy producing at
      a time. */
  ghost predicate NeverTwoBusy(permitted: set<Fault>) {
    forall actions: seq<Action>, k: Key | FaultsOf(actions, k) <= permitted :: !TwoBusy(Run(INITIAL, actions), k)
  }

  /** In all such runs its producer is started at most once. */
  ghost predicate StartsOnce(permitted: set<Fault>) {
    forall actions: seq<Action>, k: Key | FaultsOf(actions, k) <= permitted :: Run(INITIAL, actions).started[k] <= 1
  }

  // ---------------------------------------------------------------------------
  // A failed first look is harmless
  // ---------------------------------------------------------------------------

  lemma {:induction false} FewFaultsAreSmooth(actions: seq<Action>, k: Key)
    requires FaultsOf(actions, k) <= {FailedLook}
    ensures SmoothRun(INITIAL, actions, k)
  {
    if actions != [] {
      var n := |actions| - 1;
      var fault := FaultOf(Run(INITIAL, actions[..n]), actions[n], k);
      assert FaultsOf(actions[..n], k) <= FaultsOf(actions, k);
      assert fault.Some? ==> fault.value in FaultsOf(actions, k);
      FewFaultsAreSmooth(actions[..n], k);
    }
  }

  lemma {:induction false} SettledIsNotBusy(s: State, k: Key, v: Json, t: Task)
    requires Settled(s, k, v)
    ensures !IsBusy(s, t, k)
  {
  }

  lemma {:induction false} OneFlightHasOneBusy(s: State, k: Key)
    requires Consistent(s) && OneFlight(s, k)
    ensures !TwoBusy(s, k)
  {
    if Pending(s, k) {
      forall t, u | t in s.calls && u in s.calls && IsBusy(s, t, k) && IsBusy(s, u, k) ensures t == u {
        OneHolder(s, k, t, u);
      }
    } else {
      var v :| Settled(s, k, v);
      forall t ensures !IsBusy(s, t, k) { SettledIsNotBusy(s, k, v, t); }
    }
  }

  lemma {:induction false} FewFaultsKeepOneBusy(actions: seq<Action>, k: Key)
    requires FaultsOf(actions, k) <= {FailedLook}
    ensures !TwoBusy(Run(INITIAL, actions), k) && Run(INITIAL, actions).started[k] <= 1
  {
    FewFaultsAreSmooth(actions, k);
    assert !Busy(INITIAL, k);
    assert Pending(INITIAL, k);
    RunKeepsOneFlight(INITIAL, actions, k);
    OneFlightHasOneBusy(Run(INITIAL, actions), k);
    SingleFlightPerKey(actions, k);
  }

  // ---------------------------------------------------------------------------
  // Every other fault breaks it
  // ---------------------------------------------------------------------------

  /** A run that leads to `s`, with the given faults for `k` and number of drops. */
  ghost predicate Reaches(actions: seq<Action>, s: State, k: Key, faults: set<Fault>, drops: nat) {
    Run(INITIAL, actions) == s && FaultsOf(actions, k) == faults && Drops(actions) == drops
  }

  function Drops(actions: seq<Action>): nat {
    if actions == [] then 0 else Drops(actions[..|actions| - 1]) + if actions[|actions| - 1].Drop? then 1 else 0
  }

  lemma {:induction false} Then(actions: seq<Action>, s: State, k: Key, faults: set<Fault>, drops: nat, a: Action)
    returns (longer: seq<Action>)
    requires Reaches(actions, s, k, faults, drops)
    ensures var fault := FaultOf(s, a, k);
      Reaches(longer, Next(s, a), k, if fault.Some? then faults + {fault.value} else faults,
              drops + if a.Drop? then 1 else 0)
  {
    longer := actions + [a];
    assert longer[..|actions|] == actions;
  }

  lemma {:induction false} Quietly(actions: seq<Action>, s: State, k: Key, faults: set<Fault>, drops: nat, a: Action,
                                   t: State)
    returns (longer: seq<Action>)
    requires Reaches(actions, s, k, faults, drops)
    requires Next(s, a) == t && FaultOf(s, a, k) == None && !a.Drop?
    ensures Reaches(longer, t, k, faults, drops)
  {
    longer := Then(actions, s, k, faults, drops, a);
  }

  lemma {:induction false} ThreeCalls(a: Call, b: Call, c: Call, d: Call)
    ensures map[1 := a, 2 := b, 3 := c][1 := d] == map[1 := d, 2 := b, 3 := c]
    ensures map[1 := a, 2 := b, 3 := c][2 := d] == map[1 := a, 2 := d, 3 := c]
    ensures map[1 := a, 2 := b, 3 := c][3 := d] == map[1 := a, 2 := b, 3 := d]
  {
  }

  /** Calls 1, 2 and 3 of a key. */
  function Calls(k: Key, a: Pc, b: Pc, c: Pc): map<Task, Call> {
    map[1 := Call(k, a), 2 := Call(k, b), 3 := Call(k, c)]
  }

  lemma {:induction false} Moves(k: Key, a: Pc, b: Pc, c: Pc, d: Pc)
    ensures Calls(k, a, b, c)[1 := Call(k, d)] == Calls(k, d, b, c)
    ensures Calls(k, a, b, c)[2 := Call(k, d)] == Calls(k, a, d, c)
    ensures Calls(k, a, b, c)[3 := Call(k, d)] == Calls(k, a, b, d)
  {
    ThreeCalls(Call(k, a), Call(k, b), Call(k, c), Call(k, d));
  }

  /** One call has the lock and is at `first`; a second waits; a third has had its first look. */
  function Three(k: Key, store: map<Key, Json>, first: Pc, started: multiset<Key>): State {
    State(store, map[k := 0], [Lock(k, Some(1), [2])], Calls(k, first, Queued(0), Looked(Null)), started)
  }

  /** The first call is gone, and with it its lock from the map. */
  function Orphaned(k: Key, store: map<Key, Json>, last: Pc, started: multiset<Key>): State {
    State(store, map[], [Lock(k, None, [2])], Calls(k, last, Queued(0), Looked(Null)), started)
  }

  /** The first call holds the lock, alone. */
  function One(k: Key): State {
    State(map[], map[k := 0], [Lock(k, Some(1), [])], map[1 := Call(k, Rechecking(0))], multiset{})
  }

  function Two(k: Key): State {
    State(map[], map[k := 0], [Lock(k, Some(1), [2])], map[1 := Call(k, Rechecking(0)), 2 := Call(k, Queued(0))], multiset{})
  }

  lemma {:induction false} FirstCallArrives(k: Key) returns (actions: seq<Action>)
    ensures Reaches(actions, One(k), k, {}, 0)
  {
    var s1 := State(map[], map[], [], map[1 := Call(k, Looking)], multiset{});
    var s2 := State(map[], map[], [], map[1 := Call(k, Looked(Null))], multiset{});
    assert Next(s2, Proceed(1)) == TakeNewLock(s2, 1) == One(k);
    actions := Quietly([], INITIAL, k, {}, 0, Enter(1, k), s1);
    actions := Quietly(actions, s1, k, {}, 0, Read(1, true), s2);
    actions := Quietly(actions, s2, k, {}, 0, Proceed(1), One(k));
  }

  lemma {:induction false} SecondCallQueues(k: Key)
    ensures Next(One(k).(calls := One(k).calls[2 := Call(k, Looked(Null))]), Proceed(2)) == Two(k)
  {
    var s := One(k).(calls := One(k).calls[2 := Call(k, Looked(Null))]);
    assert s.locks[0].waiters + [2] == [2];
    assert s.locks[0 := s.locks[0].(waiters := [2])] == Two(k).locks;
    assert s.calls[2 := Call(k, Queued(0))] == Two(k).calls;
  }

  lemma {:induction false} SecondCallWaits(k: Key) returns (actions: seq<Action>)
    ensures Reaches(actions, Two(k), k, {}, 0)
  {
    var s := One(k);
    var s1, s2 := s.(calls := s.calls[2 := Call(k, Looking)]), s.(calls := s.calls[2 := Call(k, Looked(Null))]);
    SecondCallQueues(k);
    assert s1.calls[2 := Call(k, Looked(Null))] == s2.calls;
    actions := FirstCallArrives(k);
    actions := Quietly(actions, s, k, {}, 0, Enter(2, k), s1);
    actions := Quietly(actions, s1, k, {}, 0, Read(2, true), s2);
    actions := Quietly(actions, s2, k, {}, 0, Proceed(2), Two(k));
  }

  lemma {:induction false} ThirdCallLooks(k: Key) returns (actions: seq<Action>)
    ensures Reaches(actions, Three(k, map[], Rechecking(0), multiset{}), k, {}, 0)
  {
    var s, t := Two(k), Three(k, map[], Rechecking(0), multiset{});
    var s1 := s.(calls := s.calls[3 := Call(k, Looking)]);
    assert s1.calls[3 := Call(k, Looked(Null))] == t.calls;
    actions := SecondCallWaits(k);
    actions := Quietly(actions, s, k, {}, 0, Enter(3, k), s1);
    actions := Quietly(actions, s1, k, {}, 0, Read(3, true), t);
  }

  /** A call that looks again finds, or believes it finds, nothing, and starts the producer. */
  lemma {:induction false} LooksAgain(s: State, t: Task, l: LockId, k: Key, ok: bool)
    requires t in s.calls && s.calls[t] == Call(k, Rechecking(l)) && l < |s.locks|
    requires !ok || k !in s.store || s.store[k] == Null
    ensures Next(s, Reread(t, ok)) == At(s, t, Rechecked(l, Null))
    ensures FaultOf(s, Reread(t, ok), k) == if !ok && k in s.store && s.store[k] != Null then Some(FailedRecheck) else None
    ensures var n := At(s, t, Rechecked(l, Null));
      Next(n, Decide(t)) == At(s, t, Producing(l)).(started := s.started + multiset{k}) && FaultOf(n, Decide(t), k) == None
  {
    var n := At(s, t, Rechecked(l, Null));
    assert n.calls[t := Call(k, Producing(l))] == s.calls[t := Call(k, Producing(l))];
  }

  lemma {:induction false} StartsProducing(before: seq<Action>, s: State, t: Task, l: LockId, k: Key,
                                           faults: set<Fault>, drops: nat, ok: bool)
    returns (actions: seq<Action>)
    requires Reaches(before, s, k, faults, drops)
    requires t in s.calls && s.calls[t] == Call(k, Rechecking(l)) && l < |s.locks|
    requires !ok || k !in s.store || s.store[k] == Null
    ensures var more := if !ok && k in s.store && s.store[k] != Null then {FailedRecheck} else {};
      Reaches(actions, At(s, t, Producing(l)).(started := s.started + multiset{k}), k, faults + more, drops)
  {
    var more: set<Fault> := if !ok && k in s.store && s.store[k] != Null then {FailedRecheck} else {};
    LooksAgain(s, t, l, k, ok);
    actions := Then(before, s, k, faults, drops, Reread(t, ok));
    assert faults + {} == faults;
    actions := Quietly(actions, At(s, t, Rechecked(l, Null)), k, faults + more, drops, Decide(t),
      At(s, t, Producing(l)).(started := s.started + multiset{k}));
  }

  lemma {:induction false} FirstCallProduces(k: Key) returns (actions: seq<Action>)
    ensures Reaches(actions, Three(k, map[], Producing(0), multiset{k}), k, {}, 0)
  {
    var s := Three(k, map[], Rechecking(0), multiset{});
    actions := ThirdCallLooks(k);
    actions := StartsProducing(actions, s, 1, 0, k, {}, 0, true);
    Moves(k, Rechecking(0), Queued(0), Looked(Null), Producing(0));
    assert multiset{} + multiset{k} == multiset{k};
    var none: set<Fault> := {};
    assert none + none == none;
  }

  lemma {:induction false} FirstCallHasValue(k: Key, v: Json) returns (actions: seq<Action>)
    ensures Reaches(actions, Three(k, map[], Storing(0, v), multiset{k}), k, if v == Null then {NullValue} else {}, 0)
  {
    var s, s1 := Three(k, map[], Producing(0), multiset{k}), Three(k, map[], Storing(0, v), multiset{k});
    Moves(k, Producing(0), Queued(0), Looked(Null), Storing(0, v));
    actions := FirstCallProduces(k);
    actions := Then(actions, s, k, {}, 0, Produce(1, v));
    assert Next(s, Produce(1, v)) == s1;
    assert {} + {NullValue} == {NullValue};
  }

  /** The first call's producer returns `v`, and the call tries to store it. */
  lemma {:induction false} FirstCallStores(k: Key, v: Json, ok: bool) returns (actions: seq<Action>)
    ensures var faults := (if v == Null then {NullValue} else {}) + if ok then {} else {FailedWrite};
      Reaches(actions, Three(k, if ok then map[k := v] else map[], Written(0, v), multiset{k}), k, faults, 0)
  {
    var produced: set<Fault> := if v == Null then {NullValue} else {};
    var s := Three(k, map[], Storing(0, v), multiset{k});
    Moves(k, Storing(0, v), Queued(0), Looked(Null), Written(0, v));
    actions := FirstCallHasValue(k, v);
    actions := Then(actions, s, k, produced, 0, Write(1, ok));
    assert Next(s, Write(1, ok)) == Three(k, if ok then map[k := v] else map[], Written(0, v), multiset{k});
    assert produced + {} == produced;
  }

  lemma {:induction false} FirstCallReturns(k: Key, v: Json, ok: bool) returns (actions: seq<Action>)
    ensures var faults := (if v == Null then {NullValue} else {}) + if ok then {} else {FailedWrite};
      Reaches(actions, Orphaned(k, if ok then map[k := v] else map[], Done(v), multiset{k}), k, faults, 0)
  {
    var store := if ok then map[k := v] else map[];
    var faults: set<Fault> := (if v == Null then {NullValue} else {}) + if ok then {} else {FailedWrite};
    FirstCallLeaves(k, store, Written(0, v), Done(v), multiset{k});
    actions := FirstCallStores(k, v, ok);
    actions := Quietly(actions, Three(k, store, Written(0, v), multiset{k}), k, faults, 0, Finish(1),
      Orphaned(k, store, Done(v), multiset{k}));
  }

  lemma {:induction false} FirstCallLeaves(k: Key, store: map<Key, Json>, first: Pc, last: Pc, started: multiset<Key>)
    ensures Leave(Three(k, store, first, started), 1, 0, last) == Orphaned(k, store, last, started)
  {
    var s := Three(k, store, first, started);
    Moves(k, first, Queued(0), Looked(Null), last);
    assert s.locks[0 := s.locks[0].(holder := None)] == [Lock(k, None, [2])];
    assert s.inflight - {k} == map[];
  }

  lemma {:induction false} FirstCallRaises(k: Key) returns (actions: seq<Action>)
    ensures Reaches(actions, Orphaned(k, map[], Failed, multiset{k}), k, {Raised}, 0)
  {
    var s := Three(k, map[], Producing(0), multiset{k});
    FirstCallLeaves(k, map[], Producing(0), Failed, multiset{k});
    actions := FirstCallProduces(k);
    actions := Then(actions, s, k, {}, 0, Raise(1));
    assert {} + {Raised} == {Raised};
  }

  lemma {:induction false} FirstCallIsCancelled(k: Key) returns (actions: seq<Action>)
    ensures Reaches(actions, Orphaned(k, map[], Failed, multiset{}), k, {HolderCancelled}, 0)
  {
    var s := Three(k, map[], Rechecking(0), multiset{});
    FirstCallLeaves(k, map[], Rechecking(0), Failed, multiset{});
    actions := ThirdCallLooks(k);
    actions := Then(actions, s, k, {}, 0, Cancel(1));
    assert {} + {HolderCancelled} == {HolderCancelled};
  }

  lemma {:induction false} EntryIsDropped(k: Key, v: Json) returns (actions: seq<Action>)
    requires v != Null
    ensures Reaches(actions, Orphaned(k, map[], Done(v), multiset{k}), k, {EntryDropped}, 1)
  {
    var s := Orphaned(k, map[k := v], Done(v), multiset{k});
    actions := FirstCallReturns(k, v, true);
    var none: set<Fault> := {};
    assert none + none == none;
    actions := Then(actions, s, k, {}, 0, Drop(k));
    assert s.store - {k} == map[];
    assert {} + {EntryDropped} == {EntryDropped};
  }

  /** After the third call took a lock of its own. */
  function Parted(k: Key, store: map<Key, Json>, last: Pc, second: Pc, third: Pc, free: bool, started: multiset<Key>): State {
    State(store, map[k := 1], [if free then Lock(k, None, [2]) else Lock(k, Some(2), []), Lock(k, Some(3), [])],
          Calls(k, last, second, third), started)
  }

  lemma {:induction false} ThirdCallTakesALock(k: Key, store: map<Key, Json>, last: Pc, started: multiset<Key>)
    ensures Next(Orphaned(k, store, last, started), Proceed(3))
         == Parted(k, store, last, Queued(0), Rechecking(1), true, started)
  {
    var s := Orphaned(k, store, last, started);
    assert Join(s, 3) == TakeNewLock(s, 3);
    Moves(k, last, Queued(0), Looked(Null), Rechecking(1));
  }

  lemma {:induction false} SecondCallWakes(k: Key, store: map<Key, Json>, last: Pc, started: multiset<Key>)
    ensures Next(Parted(k, store, last, Queued(0), Rechecking(1), true, started), Wake(2))
         == Parted(k, store, last, Rechecking(0), Rechecking(1), false, started)
  {
    var s := Parted(k, store, last, Queued(0), Rechecking(1), true, started);
    Moves(k, last, Queued(0), Rechecking(1), Rechecking(0));
    assert s.locks[0].waiters[1..] == [];
    assert s.locks[0 := Lock(k, Some(2), [])] == [Lock(k, Some(2), []), Lock(k, Some(3), [])];
  }

  /** The third call takes a lock of its own, and the second wakes up on the old one. */
  lemma {:induction false} CallsPart(k: Key, before: seq<Action>, store: map<Key, Json>, last: Pc,
                                     started: multiset<Key>, faults: set<Fault>, drops: nat)
    returns (actions: seq<Action>)
    requires Reaches(before, Orphaned(k, store, last, started), k, faults, drops)
    ensures Reaches(actions, Parted(k, store, last, Rechecking(0), Rechecking(1), false, started), k, faults, drops)
  {
    ThirdCallTakesALock(k, store, last, started);
    SecondCallWakes(k, store, last, started);
    actions := Quietly(before, Orphaned(k, store, last, started), k, faults, drops, Proceed(3),
      Parted(k, store, last, Queued(0), Rechecking(1), true, started));
    actions := Quietly(actions, Parted(k, store, last, Queued(0), Rechecking(1), true, started), k, faults, drops, Wake(2),
      Parted(k, store, last, Rechecking(0), Rechecking(1), false, started));
  }

  function Both(k: Key, store: map<Key, Json>, last: Pc, started: multiset<Key>): State {
    Parted(k, store, last, Producing(0), Producing(1), false, started)
  }

  /** Then both look again and find, or believe they find, nothing, and both produce. */
  lemma {:induction false} BothProduce(k: Key, before: seq<Action>, store: map<Key, Json>, last: Pc,
                                       started: multiset<Key>, faults: set<Fault>, drops: nat, ok: bool)
    returns (actions: seq<Action>)
    requires Reaches(before, Orphaned(k, store, last, started), k, faults, drops)
    requires !ok || k !in store || store[k] == Null
    ensures var more := if !ok && k in store && store[k] != Null then {FailedRecheck} else {};
      Reaches(actions, Both(k, store, last, started + multiset{k} + multiset{k}), k, faults + more, drops)
  {
    var more: set<Fault> := if !ok && k in store && store[k] != Null then {FailedRecheck} else {};
    var s := Parted(k, store, last, Rechecking(0), Rechecking(1), false, started);
    var t := Parted(k, store, last, Producing(0), Rechecking(1), false, started + multiset{k});
    Moves(k, last, Rechecking(0), Rechecking(1), Producing(0));
    Moves(k, last, Producing(0), Rechecking(1), Producing(1));
    actions := CallsPart(k, before, store, last, started, faults, drops);
    actions := StartsProducing(actions, s, 2, 0, k, faults, drops, ok);
    assert Reaches(actions, t, k, faults + more, drops);
    actions := StartsProducing(actions, t, 3, 1, k, faults + more, drops, ok);
    assert faults + more + more == faults + more;
  }

  /** Every fault but a failed first look can, all alone, make two calls of one key produce at a time. */
  lemma {:induction false} FaultBreaksSingleFlight(fault: Fault, k: Key) returns (actions: seq<Action>)
    requires fault != FailedLook
    ensures FaultsOf(actions, k) == {fault}
    ensures TwoBusy(Run(INITIAL, actions), k) && Run(INITIAL, actions).started[k] >= 2
  {
    var v := Doc("");
    var store, last, started := map[], Failed, multiset{k};
    var drops: nat := 0;
    var ok := true;
    match fault {
      case HolderCancelled => actions := FirstCallIsCancelled(k); started := multiset{};
      case Raised => actions := FirstCallRaises(k);
      case NullValue => actions := FirstCallReturns(k, Null, true); store, last := map[k := Null], Done(Null);
      case FailedWrite => actions := FirstCallReturns(k, v, false); last := Done(v);
      case EntryDropped => actions := EntryIsDropped(k, v); last, drops := Done(v), 1;
      case FailedRecheck => actions := FirstCallReturns(k, v, true); store, last, ok := map[k := v], Done(v), false;
    }
    var faults: set<Fault> := if fault == FailedRecheck then {} else {fault};
    assert Reaches(actions, Orphaned(k, store, last, started), k, faults, drops);
    actions := BothProduce(k, actions, store, last, started, faults, drops, ok);
    TwoAreBusy(actions, k, store, last, started + multiset{k} + multiset{k});
  }

  lemma {:induction false} TwoAreBusy(actions: seq<Action>, k: Key, store: map<Key, Json>, last: Pc,
                                      started: multiset<Key>)
    requires Run(INITIAL, actions) == Both(k, store, last, started)
    ensures TwoBusy(Run(INITIAL, actions), k)
  {
    var s := Run(INITIAL, actions);
    assert 2 in s.calls && 3 in s.calls && IsBusy(s, 2, k) && IsBusy(s, 3, k);
  }

  /** Single flight holds of all runs exactly when nothing is permitted to go wrong but first looks. */
  lemma {:induction false} SingleFlightExactly(permitted: set<Fault>, k: Key)
    ensures NeverTwoBusy(permitted) <==> permitted <= {FailedLook}
    ensures StartsOnce(permitted) <==> permitted <= {FailedLook}
  {
    if permitted <= {FailedLook} {
      forall actions: seq<Action>, k: Key | FaultsOf(actions, k) <= permitted
        ensures !TwoBusy(Run(INITIAL, actions), k) && Run(INITIAL, actions).started[k] <= 1
      {
        FewFaultsKeepOneBusy(actions, k);
      }
    } else {
      var fault :| fault in permitted && fault != FailedLook;
      var actions := FaultBreaksSingleFlight(fault, k);
    }
  }

  /** One drop is enough for three starts. */
  lemma {:induction false} DroppedEntryAllowsTwoProducers(k: Key, v: Json) returns (actions: seq<Action>)
    requires v != Null
    ensures TwoBusy(Run(INITIAL, actions), k) && Drops(actions) == 1 && Run(INITIAL, actions).started[k] == 3
  {
    actions := EntryIsDropped(k, v);
    actions := BothProduce(k, actions, map[], Done(v), multiset{k}, {EntryDropped}, 1, true);
    TwoAreBusy(actions, k, map[], Done(v), multiset{k} + multiset{k} + multiset{k});
  }
}
