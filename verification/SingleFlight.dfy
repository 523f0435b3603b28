/** `cached_json` as a protocol: any number of calls, for any keys, interleaved at every await. */
module SingleFlight {
  import opened Wrappers
  import opened Sequences

  /** A cache key; only compared. */
  type Key(==, !new)
  type Task = nat
  type LockId = nat

  /** A decoded cache value; `Null` is also what a miss or a failed read looks like. */
  datatype Json = Null | Doc(text: string)

  /** Where a call stands. From `Queued` to `Written` it is between its `setdefault` and its
      `finally`; from `Rechecking` to `Written` it also holds the lock. */
  datatype Pc =
    | Looking
    | Looked(hit: Json)
    | Queued(lock: LockId)
    | Rechecking(lock: LockId)
    | Rechecked(lock: LockId, hit: Json)
    | Producing(lock: LockId)
    | Storing(lock: LockId, value: Json)
    | Written(lock: LockId, value: Json)
    | Done(result: Json)
    | Failed
  {
    predicate Holds() { Rechecking? || Rechecked? || Producing? || Storing? || Written? }
    predicate Inside() { Queued? || Holds() }
  }

  datatype Call = Call(key: Key, pc: Pc)

  /** An asyncio lock: a released lock goes to its first waiter, and nobody overtakes waiters. */
  datatype Lock = Lock(key: Key, holder: Option<Task>, waiters: seq<Task>)

  datatype State = State(
    store: map<Key, Json>,
    inflight: map<Key, LockId>,
    locks: seq<Lock>,
    calls: map<Task, Call>,
    started: multiset<Key>)

  const INITIAL := State(map[], map[], [], map[], multiset{})

  datatype Action =
    | Enter(t: Task, key: Key)        // a request calls cached_json
    | Read(t: Task, ok: bool)         // the first cache_get reads (or fails)
    | Proceed(t: Task)                // ... and the call resumes
    | Wake(t: Task)                   // a waiter gets the lock
    | Reread(t: Task, ok: bool)       // the second cache_get reads (or fails)
    | Decide(t: Task)                 // ... and the holder resumes
    | Produce(t: Task, value: Json)   // the producer returns
    | Raise(t: Task)                  // the producer fails
    | Write(t: Task, ok: bool)        // cache_set writes (or fails)
    | Finish(t: Task)                 // ... and the holder resumes
    | Cancel(t: Task)                 // the call is cancelled where it waits
    | Drop(k: Key)                    // the stored entry expires or is deleted

  function At(s: State, t: Task, pc: Pc): State
    requires t in s.calls
  {
    s.(calls := s.calls[t := s.calls[t].(pc := pc)])
  }

  function Fetch(s: State, k: Key, ok: bool): Json {
    if ok && k in s.store then s.store[k] else Null
  }

  /** `finally`: a lock nobody holds leaves the map if it is still the key's entry. */
  function Cleanup(s: State, k: Key, l: LockId): State {
    if l < |s.locks| && s.locks[l].holder.None? && k in s.inflight && s.inflight[k] == l
    then s.(inflight := s.inflight - {k}) else s
  }

  /** Releases the lock, runs `finally` and ends the call. */
  function Leave(s: State, t: Task, l: LockId, last: Pc): State
    requires t in s.calls && l < |s.locks|
  {
    Cleanup(At(s.(locks := s.locks[l := s.locks[l].(holder := None)]), t, last), s.calls[t].key, l)
  }

  /** `setdefault` and the start of `async with lock`. */
  function Join(s: State, t: Task): State
    requires t in s.calls
  {
    var k := s.calls[t].key;
    var s1 := if k in s.inflight then s
              else s.(inflight := s.inflight[k := |s.locks|], locks := s.locks + [Lock(k, None, [])]);
    var l := s1.inflight[k];
    if l >= |s1.locks| then s
    else if s1.locks[l].holder.None? && s1.locks[l].waiters == [] then
      At(s1.(locks := s1.locks[l := s1.locks[l].(holder := Some(t))]), t, Rechecking(l))
    else
      At(s1.(locks := s1.locks[l := s1.locks[l].(waiters := s1.locks[l].waiters + [t])]), t, Queued(l))
  }

  predicate Can(s: State, a: Action) {
    match a
    case Enter(t, _) => t !in s.calls
    case Drop(_) => true
    case Read(t, _) => t in s.calls && s.calls[t].pc.Looking?
    case Proceed(t) => t in s.calls && s.calls[t].pc.Looked?
    case Wake(t) =>
      && t in s.calls && s.calls[t].pc.Queued? && s.calls[t].pc.lock < |s.locks|
      && s.locks[s.calls[t].pc.lock].holder.None? && [t] <= s.locks[s.calls[t].pc.lock].waiters
    case Reread(t, _) => t in s.calls && s.calls[t].pc.Rechecking?
    case Decide(t) => t in s.calls && s.calls[t].pc.Rechecked? && s.calls[t].pc.lock < |s.locks|
    case Produce(t, _) => t in s.calls && s.calls[t].pc.Producing?
    case Raise(t) => t in s.calls && s.calls[t].pc.Producing? && s.calls[t].pc.lock < |s.locks|
    case Write(t, _) => t in s.calls && s.calls[t].pc.Storing?
    case Finish(t) => t in s.calls && s.calls[t].pc.Written? && s.calls[t].pc.lock < |s.locks|
    case Cancel(t) =>
      && t in s.calls && !s.calls[t].pc.Done? && !s.calls[t].pc.Failed?
      && (s.calls[t].pc.Inside() ==> s.calls[t].pc.lock < |s.locks|)
  }

  /** One atomic step; an action that cannot happen leaves the state alone. */
  function Next(s: State, a: Action): State {
    if !Can(s, a) then s
    else
      match a
      case Enter(t, k) => s.(calls := s.calls[t := Call(k, Looking)])
      case Drop(k) => s.(store := s.store - {k})
      case Read(t, ok) => At(s, t, Looked(Fetch(s, s.calls[t].key, ok)))
      case Proceed(t) =>
        var hit := s.calls[t].pc.hit;
        if hit != Null then At(s, t, Done(hit)) else Join(s, t)
      case Wake(t) =>
        var l := s.calls[t].pc.lock;
        At(s.(locks := s.locks[l := s.locks[l].(holder := Some(t), waiters := s.locks[l].waiters[1..])]), t, Rechecking(l))
      case Reread(t, ok) => At(s, t, Rechecked(s.calls[t].pc.lock, Fetch(s, s.calls[t].key, ok)))
      case Decide(t) =>
        var pc := s.calls[t].pc;
        if pc.hit != Null then Leave(s, t, pc.lock, Done(pc.hit))
        else At(s, t, Producing(pc.lock)).(started := s.started + multiset{s.calls[t].key})
      case Produce(t, value) => At(s, t, Storing(s.calls[t].pc.lock, value))
      case Raise(t) => Leave(s, t, s.calls[t].pc.lock, Failed)
      case Write(t, ok) =>
        var pc := s.calls[t].pc;
        At(if ok then s.(store := s.store[s.calls[t].key := pc.value]) else s, t, Written(pc.lock, pc.value))
      case Finish(t) => Leave(s, t, s.calls[t].pc.lock, Done(s.calls[t].pc.value))
      case Cancel(t) =>
        var pc := s.calls[t].pc;
        if pc.Holds() then Leave(s, t, pc.lock, Failed)
        else if pc.Queued? then
          var lock := s.locks[pc.lock];
          Cleanup(At(s.(locks := s.locks[pc.lock := lock.(waiters := WithoutFirst(lock.waiters, t))]), t, Failed),
                  s.calls[t].key, pc.lock)
        else At(s, t, Failed)
  }

  function Run(s: State, actions: seq<Action>): State {
    if actions == [] then s else Next(Run(s, actions[..|actions| - 1]), actions[|actions| - 1])
  }

  // ---------------------------------------------------------------------------
  // Locks and the map agree with the calls
  // ---------------------------------------------------------------------------

  /** The lock's holder is exactly the call inside its critical section, and an entry of the map is a
      lock that is held. */
  predicate Consistent(s: State) {
    && (forall t | t in s.calls && s.calls[t].pc.Inside() ::
          s.calls[t].pc.lock < |s.locks| && s.locks[s.calls[t].pc.lock].key == s.calls[t].key)
    && (forall t | t in s.calls && s.calls[t].pc.Holds() :: s.locks[s.calls[t].pc.lock].holder == Some(t))
    && (forall l | 0 <= l < |s.locks| && s.locks[l].holder.Some? ::
          var t := s.locks[l].holder.value; t in s.calls && s.calls[t].pc.Holds() && s.calls[t].pc.lock == l)
    && EntriesHeld(s)
  }

  predicate EntriesHeld(s: State) {
    forall k | k in s.inflight ::
      s.inflight[k] < |s.locks| && s.locks[s.inflight[k]].key == k && s.locks[s.inflight[k]].holder.Some?
  }

  lemma {:induction false} AtKeepsConsistent(s: State, t: Task, pc: Pc)
    requires Consistent(s) && t in s.calls
    requires var was := s.calls[t].pc;
             pc.Holds() == was.Holds() && pc.Inside() == was.Inside() && (pc.Inside() ==> pc.lock == was.lock)
    ensures Consistent(At(s, t, pc))
  {
  }

  lemma {:induction false} LeaveKeepsEntries(s: State, t: Task, last: Pc)
    requires Consistent(s) && t in s.calls && s.calls[t].pc.Holds() && !last.Inside()
    ensures EntriesHeld(Leave(s, t, s.calls[t].pc.lock, last))
  {
  }

  lemma {:induction false} LeaveKeepsConsistent(s: State, t: Task, last: Pc)
    requires Consistent(s) && t in s.calls && s.calls[t].pc.Holds() && !last.Inside()
    ensures Consistent(Leave(s, t, s.calls[t].pc.lock, last))
  {
    LeaveKeepsEntries(s, t, last);
  }

  /** Joining takes a new lock at once, or queues on the held lock of the key's entry. */
  function TakeNewLock(s: State, t: Task): State
    requires t in s.calls
  {
    var k := s.calls[t].key;
    At(s.(inflight := s.inflight[k := |s.locks|], locks := s.locks + [Lock(k, Some(t), [])]), t, Rechecking(|s.locks|))
  }

  function QueueOn(s: State, t: Task, l: LockId): State
    requires t in s.calls && l < |s.locks|
  {
    At(s.(locks := s.locks[l := s.locks[l].(waiters := s.locks[l].waiters + [t])]), t, Queued(l))
  }

  lemma {:induction false} JoinCases(s: State, t: Task)
    requires Consistent(s) && t in s.calls
    ensures s.calls[t].key in s.inflight ==>
      s.inflight[s.calls[t].key] < |s.locks| && Join(s, t) == QueueOn(s, t, s.inflight[s.calls[t].key])
    ensures s.calls[t].key !in s.inflight ==> Join(s, t) == TakeNewLock(s, t)
  {
  }

  lemma {:induction false} NewLockKeepsConsistent(s: State, t: Task)
    requires Consistent(s) && t in s.calls && !s.calls[t].pc.Inside()
    ensures Consistent(TakeNewLock(s, t))
  {
  }

  lemma {:induction false} QueueOnKeepsConsistent(s: State, t: Task, l: LockId)
    requires Consistent(s) && t in s.calls && !s.calls[t].pc.Inside()
    requires l < |s.locks| && s.locks[l].key == s.calls[t].key
    ensures Consistent(QueueOn(s, t, l))
  {
  }

  lemma {:induction false} JoinKeepsConsistent(s: State, t: Task)
    requires Consistent(s) && t in s.calls && !s.calls[t].pc.Inside()
    ensures Consistent(Join(s, t))
  {
    var k := s.calls[t].key;
    JoinCases(s, t);
    if k in s.inflight { QueueOnKeepsConsistent(s, t, s.inflight[k]); } else { NewLockKeepsConsistent(s, t); }
  }

  lemma {:induction false} WakeKeepsConsistent(s: State, t: Task)
    requires Consistent(s) && Can(s, Wake(t))
    ensures Consistent(Next(s, Wake(t)))
  {
  }

  lemma {:induction false} CancelKeepsConsistent(s: State, t: Task)
    requires Consistent(s) && Can(s, Cancel(t)) && s.calls[t].pc.Queued?
    ensures Consistent(Next(s, Cancel(t)))
  {
  }

  lemma {:induction false} EnteringKeepsConsistent(s: State, a: Action)
    requires Consistent(s) && Can(s, a)
    requires a.Enter? || a.Drop? || a.Read? || a.Proceed? || a.Wake?
    ensures Consistent(Next(s, a))
  {
    match a {
      case Read(t, ok) => AtKeepsConsistent(s, t, Looked(Fetch(s, s.calls[t].key, ok)));
      case Proceed(t) => if s.calls[t].pc.hit == Null { JoinKeepsConsistent(s, t); }
      case Wake(t) => WakeKeepsConsistent(s, t);
      case _ =>
    }
  }

  lemma {:induction false} HoldingKeepsConsistent(s: State, a: Action)
    requires Consistent(s) && Can(s, a)
    requires a.Reread? || a.Decide? || a.Produce? || a.Write?
    ensures Consistent(Next(s, a))
  {
    var pc := s.calls[a.t].pc;
    match a {
      case Reread(t, ok) => AtKeepsConsistent(s, t, Rechecked(pc.lock, Fetch(s, s.calls[t].key, ok)));
      case Decide(t) =>
        if pc.hit != Null { LeaveKeepsConsistent(s, t, Done(pc.hit)); } else { AtKeepsConsistent(s, t, Producing(pc.lock)); }
      case Produce(t, value) => AtKeepsConsistent(s, t, Storing(pc.lock, value));
      case Write(t, ok) => AtKeepsConsistent(s, t, Written(pc.lock, pc.value));
      case _ =>
    }
  }

  lemma {:induction false} LeavingKeepsConsistent(s: State, a: Action)
    requires Consistent(s) && Can(s, a)
    requires a.Raise? || a.Finish? || a.Cancel?
    ensures Consistent(Next(s, a))
  {
    var pc := s.calls[a.t].pc;
    if pc.Holds() { LeaveKeepsConsistent(s, a.t, if a.Finish? then Done(pc.value) else Failed); }
    else if pc.Queued? { CancelKeepsConsistent(s, a.t); }
    else { AtKeepsConsistent(s, a.t, Failed); }
  }

  lemma {:induction false} StepKeepsConsistent(s: State, a: Action)
    requires Consistent(s)
    ensures Consistent(Next(s, a))
  {
    if Can(s, a) {
      if a.Enter? || a.Drop? || a.Read? || a.Proceed? || a.Wake? { EnteringKeepsConsistent(s, a); }
      else if a.Reread? || a.Decide? || a.Produce? || a.Write? { HoldingKeepsConsistent(s, a); }
      else { LeavingKeepsConsistent(s, a); }
    }
  }

  lemma {:induction false} RunKeepsConsistent(s: State, actions: seq<Action>)
    requires Consistent(s)
    ensures Consistent(Run(s, actions))
  {
    if actions != [] {
      RunKeepsConsistent(s, actions[..|actions| - 1]);
      StepKeepsConsistent(Run(s, actions[..|actions| - 1]), actions[|actions| - 1]);
    }
  }

  // ---------------------------------------------------------------------------
  // The map never leaks
  // ---------------------------------------------------------------------------

  /** The calls between their `setdefault` and their `finally`. */
  function Live(s: State): set<Task> {
    set t | t in s.calls && s.calls[t].pc.Inside()
  }

  lemma {:induction false} InjectionSize(ks: set<Key>, g: map<Key, Task>, ts: set<Task>, back: map<Task, Key>)
    requires forall k | k in ks :: k in g && g[k] in ts && g[k] in back && back[g[k]] == k
    ensures |ks| <= |ts|
  {
    if ks != {} {
      var k :| k in ks;
      InjectionSize(ks - {k}, g, ts - {g[k]}, back);
    }
  }

  lemma {:induction false} EntryHasHolder(s: State, k: Key)
    requires Consistent(s) && k in s.inflight
    ensures var t := s.locks[s.inflight[k]].holder.value;
      t in Live(s) && s.calls[t].key == k && s.calls[t].pc.Holds() && s.calls[t].pc.lock == s.inflight[k]
  {
  }

  /** In every reachable state, whatever fails, is cancelled or expires, each entry of the map is a lock
      held by a call of that key that has not reached its `finally`. So the map is no larger than the
      number of such calls, and empty once every call has ended. */
  lemma {:induction false} InflightNeverLeaks(actions: seq<Action>)
    ensures var s := Run(INITIAL, actions);
      && (forall k | k in s.inflight :: exists t | t in Live(s) ::
            s.calls[t].key == k && s.calls[t].pc.Holds() && s.calls[t].pc.lock == s.inflight[k])
      && |s.inflight| <= |Live(s)|
      && (Live(s) == {} ==> s.inflight == map[])
  {
    RunKeepsConsistent(INITIAL, actions);
    var s := Run(INITIAL, actions);
    forall k | k in s.inflight
      ensures exists t | t in Live(s) ::
        s.calls[t].key == k && s.calls[t].pc.Holds() && s.calls[t].pc.lock == s.inflight[k]
    {
      EntryHasHolder(s, k);
    }
    LiveHolders(s);
    if s.inflight != map[] {
      var k :| k in s.inflight;
      EntryHasHolder(s, k);
    }
  }

  lemma {:induction false} LiveHolders(s: State)
    requires Consistent(s)
    ensures |s.inflight| <= |Live(s)|
  {
    forall k | k in s.inflight { EntryHasHolder(s, k); }
    var g := map k | k in s.inflight :: s.locks[s.inflight[k]].holder.value;
    var back := map t | t in s.calls :: s.calls[t].key;
    InjectionSize(s.inflight.Keys, g, Live(s), back);
    assert |s.inflight| == |s.inflight.Keys|;
  }

  // ---------------------------------------------------------------------------
  // Single flight
  // ---------------------------------------------------------------------------

  /** What can go wrong for a key: its first or second look at the cache, or its write, fails; its producer returns
      null or raises; a call that holds its lock and has not stored a value is cancelled; its entry is dropped. */
  datatype Fault = FailedLook | FailedRecheck | FailedWrite | NullValue | Raised | HolderCancelled | EntryDropped

  /** What goes wrong for `k` in this step. A second look that finds nothing anyway and the drop of an entry that
      is not there count as no fault, nor does the cancellation of a call that only waits. */
  function FaultOf(s: State, a: Action, k: Key): Option<Fault> {
    if a.Drop? then (if a.k == k && k in s.store then Some(EntryDropped) else None)
    else if !Can(s, a) || a.t !in s.calls || s.calls[a.t].key != k then None
    else if a.Read? && !a.ok then Some(FailedLook)
    else if a.Reread? && !a.ok && Fetch(s, k, true) != Null then Some(FailedRecheck)
    else if a.Write? && !a.ok then Some(FailedWrite)
    else if a.Produce? && a.value == Null then Some(NullValue)
    else if a.Raise? then Some(Raised)
    else if a.Cancel? && s.calls[a.t].pc.Holds() && !s.calls[a.t].pc.Written? then Some(HolderCancelled)
    else None
  }

  /** Nothing goes wrong for the key in this step but for a failed first look. */
  predicate Smooth(s: State, a: Action, k: Key) {
    FaultOf(s, a, k) == None || FaultOf(s, a, k) == Some(FailedLook)
  }

  predicate SmoothRun(s: State, actions: seq<Action>, k: Key) {
    actions == [] ||
    (var n := |actions| - 1; SmoothRun(s, actions[..n], k) && Smooth(Run(s, actions[..n]), actions[n], k))
  }

  /** What a step does besides moving the calls: which values it stores, which producers it starts. */
  lemma {:induction false} StepEffectsOnData(s: State, a: Action)
    requires Can(s, a)
    ensures Next(s, a).store ==
            if a.Drop? then s.store - {a.k}
            else if a.Write? && a.ok then s.store[s.calls[a.t].key := s.calls[a.t].pc.value] else s.store
    ensures Next(s, a).started ==
            if a.Decide? && s.calls[a.t].pc.hit == Null then s.started + multiset{s.calls[a.t].key} else s.started
  {
  }

  lemma {:induction false} StepEffectsOnCalls(s: State, a: Action)
    requires Can(s, a)
    ensures a.Drop? ==> Next(s, a).calls == s.calls
    ensures !a.Drop? ==> a.t in Next(s, a).calls && Next(s, a).calls == s.calls[a.t := Next(s, a).calls[a.t]]
    ensures !a.Drop? && !a.Enter? ==> Next(s, a).calls[a.t].key == s.calls[a.t].key
  {
  }

  lemma {:induction false} StepEffects(s: State, a: Action)
    requires Can(s, a)
    ensures Next(s, a).store ==
            if a.Drop? then s.store - {a.k}
            else if a.Write? && a.ok then s.store[s.calls[a.t].key := s.calls[a.t].pc.value] else s.store
    ensures Next(s, a).started ==
            if a.Decide? && s.calls[a.t].pc.hit == Null then s.started + multiset{s.calls[a.t].key} else s.started
    ensures a.Drop? ==> Next(s, a).calls == s.calls
    ensures !a.Drop? ==> a.t in Next(s, a).calls && Next(s, a).calls == s.calls[a.t := Next(s, a).calls[a.t]]
    ensures !a.Drop? && !a.Enter? ==> Next(s, a).calls[a.t].key == s.calls[a.t].key
  {
    StepEffectsOnData(s, a);
    StepEffectsOnCalls(s, a);
  }

  // -- the key is settled: its value is stored

  predicate CallSettled(pc: Pc, v: Json) {
    && !pc.Producing? && !pc.Storing?
    && (pc.Looked? ==> pc.hit == Null || pc.hit == v)
    && (pc.Rechecked? ==> pc.hit == v)
    && (pc.Written? ==> pc.value == v)
    && (pc.Done? ==> pc.result == v)
  }

  /** Once the value is stored: nobody produces any more and every answer is that value. */
  predicate Settled(s: State, k: Key, v: Json) {
    && v != Null && k in s.store && s.store[k] == v && s.started[k] <= 1
    && forall t | t in s.calls && s.calls[t].key == k :: CallSettled(s.calls[t].pc, v)
  }

  lemma {:induction false} CallStaysSettled(s: State, a: Action, k: Key, v: Json)
    requires Settled(s, k, v) && Smooth(s, a, k) && Can(s, a)
    requires !a.Drop? && !a.Enter? && s.calls[a.t].key == k
    ensures CallSettled(Next(s, a).calls[a.t].pc, v)
    ensures !a.Write? && (a.Decide? ==> s.calls[a.t].pc.hit != Null)
  {
    assert CallSettled(s.calls[a.t].pc, v);
  }

  lemma {:induction false} SettledStays(s: State, a: Action, k: Key, v: Json)
    requires Settled(s, k, v) && Smooth(s, a, k)
    ensures Settled(Next(s, a), k, v)
  {
    if Can(s, a) {
      StepEffects(s, a);
      if !a.Drop? && !a.Enter? && s.calls[a.t].key == k { CallStaysSettled(s, a, k, v); }
    }
  }

  // -- the key is not settled yet

  predicate CallPending(s: State, k: Key, pc: Pc) {
    && !pc.Done? && !pc.Written?
    && (pc.Looked? || pc.Rechecked? ==> pc.hit == Null)
    && (pc.Storing? ==> pc.value != Null)
    && (pc.Inside() ==> k in s.inflight && s.inflight[k] == pc.lock)
    && (pc.Producing? || pc.Storing? ==> s.started[k] == 1)
  }

  /** The call that holds the key's lock is past its second look at the cache. */
  predicate Busy(s: State, k: Key) {
    exists t | t in s.calls :: s.calls[t].key == k && (s.calls[t].pc.Producing? || s.calls[t].pc.Storing?)
  }

  /** Before the value is stored: one lock serves every call of the key, and the producer has been
      started once if some call is busy with it, and not at all otherwise. */
  predicate Pending(s: State, k: Key) {
    && k !in s.store
    && (forall t | t in s.calls && s.calls[t].key == k :: CallPending(s, k, s.calls[t].pc))
    && s.started[k] == if Busy(s, k) then 1 else 0
  }

  /** A step of a call for another key leaves everything about this key alone. */
  lemma {:induction false} OtherKeyUntouched(s: State, a: Action, k: Key)
    requires Can(s, a) && !a.Drop? && (if a.Enter? then a.key else s.calls[a.t].key) != k
    ensures var n := Next(s, a);
      && (k in n.inflight <==> k in s.inflight) && (k in s.inflight ==> n.inflight[k] == s.inflight[k])
      && n.started[k] == s.started[k] && (k in n.store <==> k in s.store)
      && n.calls[a.t].key != k
      && forall t | t != a.t :: (t in n.calls <==> t in s.calls) && (t in s.calls ==> n.calls[t] == s.calls[t])
  {
    StepEffects(s, a);
  }

  /** Calls inside for a pending key all wait for the same held lock, so at most one of them holds it. */
  lemma {:induction false} OneHolder(s: State, k: Key, t: Task, u: Task)
    requires Consistent(s) && Pending(s, k)
    requires t in s.calls && s.calls[t].key == k && s.calls[t].pc.Holds()
    requires u in s.calls && s.calls[u].key == k && s.calls[u].pc.Holds()
    ensures t == u
  {
    assert CallPending(s, k, s.calls[t].pc) && CallPending(s, k, s.calls[u].pc);
  }

  /** Steps of a call of the pending key that neither start nor finish its producer. */
  lemma {:induction false} QuietStepOfPending(s: State, a: Action, k: Key)
    requires Consistent(s) && Pending(s, k) && Smooth(s, a, k) && Can(s, a)
    requires !a.Drop? && (if a.Enter? then a.key else s.calls[a.t].key) == k
    requires !a.Decide? && !a.Write?
    ensures var n := Next(s, a);
      && k !in n.store && n.started[k] == s.started[k]
      && CallPending(n, k, n.calls[a.t].pc) && n.calls[a.t].key == k
      && (a.t in s.calls ==> ((n.calls[a.t].pc.Producing? || n.calls[a.t].pc.Storing?) <==>
                              (s.calls[a.t].pc.Producing? || s.calls[a.t].pc.Storing?)))
      && (a.Enter? ==> n.calls[a.t].pc == Looking)
      && (k in s.inflight ==> k in n.inflight && n.inflight[k] == s.inflight[k])
  {
    StepEffects(s, a);
    if !a.Enter? { assert CallPending(s, k, s.calls[a.t].pc); }
  }

  /** A step of one call that leaves it as busy as it was leaves the key as busy as it was. */
  lemma {:induction false} BusyKept(s: State, n: State, t: Task, k: Key)
    requires t in n.calls && n.calls == s.calls[t := n.calls[t]] && n.calls[t].key == k
    requires if t in s.calls then s.calls[t].key == k && ((n.calls[t].pc.Producing? || n.calls[t].pc.Storing?) <==>
                                                       (s.calls[t].pc.Producing? || s.calls[t].pc.Storing?))
             else n.calls[t].pc == Looking
    ensures Busy(n, k) <==> Busy(s, k)
  {
    if Busy(s, k) {
      var u :| u in s.calls && s.calls[u].key == k && (s.calls[u].pc.Producing? || s.calls[u].pc.Storing?);
      assert u in n.calls && n.calls[u].key == k && (n.calls[u].pc.Producing? || n.calls[u].pc.Storing?);
    }
    if Busy(n, k) {
      var u :| u in n.calls && n.calls[u].key == k && (n.calls[u].pc.Producing? || n.calls[u].pc.Storing?);
      assert u in s.calls && s.calls[u].key == k && (s.calls[u].pc.Producing? || s.calls[u].pc.Storing?);
    }
  }

  lemma {:induction false} PendingStays(s: State, a: Action, k: Key)
    requires Consistent(s) && Pending(s, k) && Smooth(s, a, k) && !(a.Write? && Can(s, a) && s.calls[a.t].key == k)
    ensures Pending(Next(s, a), k)
  {
    if Can(s, a) {
      if a.Drop? {
        DropKeepsPending(s, a, k);
      } else if (if a.Enter? then a.key else s.calls[a.t].key) != k {
        OtherKeyKeepsPending(s, a, k);
      } else if a.Decide? {
        ProducerStartsOnce(s, a, k);
      } else {
        QuietKeepsPending(s, a, k);
      }
    }
  }

  lemma {:induction false} DropKeepsPending(s: State, a: Action, k: Key)
    requires Pending(s, k) && a.Drop?
    ensures Pending(Next(s, a), k)
  {
    assert Busy(Next(s, a), k) <==> Busy(s, k);
  }

  lemma {:induction false} OtherKeyKeepsPending(s: State, a: Action, k: Key)
    requires Pending(s, k) && Can(s, a) && !a.Drop? && (if a.Enter? then a.key else s.calls[a.t].key) != k
    ensures Pending(Next(s, a), k)
  {
    OtherKeyUntouched(s, a, k);
    assert Busy(Next(s, a), k) <==> Busy(s, k);
  }

  lemma {:induction false} QuietKeepsPending(s: State, a: Action, k: Key)
    requires Consistent(s) && Pending(s, k) && Smooth(s, a, k) && Can(s, a)
    requires !a.Drop? && (if a.Enter? then a.key else s.calls[a.t].key) == k && !a.Decide? && !a.Write?
    ensures Pending(Next(s, a), k)
  {
    StepEffects(s, a);
    QuietStepOfPending(s, a, k);
    BusyKept(s, Next(s, a), a.t, k);
  }

  lemma {:induction false} ProducerStartsOnce(s: State, a: Action, k: Key)
    requires Consistent(s) && Pending(s, k) && a.Decide? && Can(s, a) && s.calls[a.t].key == k
    ensures Pending(Next(s, a), k)
  {
    StepEffects(s, a);
    var n := Next(s, a);
    assert CallPending(s, k, s.calls[a.t].pc);
    if Busy(s, k) {
      var u :| u in s.calls && s.calls[u].key == k && (s.calls[u].pc.Producing? || s.calls[u].pc.Storing?);
      OneHolder(s, k, a.t, u);
      assert false;
    }
    assert n.calls[a.t].pc.Producing?;
    assert Busy(n, k);
  }

  /** The write that ends the pending phase. */
  lemma {:induction false} WriteSettles(s: State, a: Action, k: Key)
    requires Consistent(s) && Pending(s, k) && Smooth(s, a, k) && a.Write? && Can(s, a) && s.calls[a.t].key == k
    ensures Settled(Next(s, a), k, s.calls[a.t].pc.value)
  {
    StepEffects(s, a);
    var n := Next(s, a);
    var v := s.calls[a.t].pc.value;
    assert CallPending(s, k, s.calls[a.t].pc);
    forall t | t in n.calls && n.calls[t].key == k ensures CallSettled(n.calls[t].pc, v) {
      if t != a.t {
        assert CallPending(s, k, s.calls[t].pc);
        if s.calls[t].pc.Holds() { OneHolder(s, k, t, a.t); }
      }
    }
  }

  /** Either the value of the key is still pending or it is settled. */
  ghost predicate OneFlight(s: State, k: Key) {
    Pending(s, k) || exists v :: Settled(s, k, v)
  }

  lemma {:induction false} RunKeepsOneFlight(s: State, actions: seq<Action>, k: Key)
    requires Consistent(s) && OneFlight(s, k) && SmoothRun(s, actions, k)
    ensures Consistent(Run(s, actions)) && OneFlight(Run(s, actions), k)
  {
    if actions != [] {
      var n := |actions| - 1;
      RunKeepsOneFlight(s, actions[..n], k);
      var before, a := Run(s, actions[..n]), actions[n];
      StepKeepsConsistent(before, a);
      if Pending(before, k) {
        if a.Write? && Can(before, a) && before.calls[a.t].key == k { WriteSettles(before, a, k); }
        else { PendingStays(before, a, k); }
      } else {
        var v :| Settled(before, k, v);
        SettledStays(before, a, k, v);
      }
    }
  }

  /** Single flight: over every interleaving of calls in which nothing goes wrong for the key but failed first
      looks, its producer is started at most once, and all calls that return, return the same value. */
  lemma {:induction false} SingleFlightPerKey(actions: seq<Action>, k: Key)
    requires SmoothRun(INITIAL, actions, k)
    ensures var s := Run(INITIAL, actions);
      && s.started[k] <= 1
      && forall t, u | t in s.calls && u in s.calls && s.calls[t].key == s.calls[u].key == k
                       && s.calls[t].pc.Done? && s.calls[u].pc.Done? ::
           s.calls[t].pc.result == s.calls[u].pc.result && s.calls[t].pc.result != Null
  {
    assert !Busy(INITIAL, k);
    assert Pending(INITIAL, k);
    RunKeepsOneFlight(INITIAL, actions, k);
    var s := Run(INITIAL, actions);
    if Pending(s, k) {
      assert forall t | t in s.calls && s.calls[t].key == k :: CallPending(s, k, s.calls[t].pc);
    } else {
      var v :| Settled(s, k, v);
      assert forall t | t in s.calls && s.calls[t].key == k :: CallSettled(s.calls[t].pc, v);
    }
  }

  // ---------------------------------------------------------------------------
  // No waiter is forgotten
  // ---------------------------------------------------------------------------

  /** The waiters of a lock are the calls queued on it, each once. */
  predicate Queues(s: State) {
    && (forall l, i | 0 <= l < |s.locks| && 0 <= i < |s.locks[l].waiters| ::
          var t := s.locks[l].waiters[i]; t in s.calls && s.calls[t].pc == Queued(l))
    && (forall l, i, j | 0 <= l < |s.locks| && 0 <= i < j < |s.locks[l].waiters| ::
          s.locks[l].waiters[i] != s.locks[l].waiters[j])
    && (forall t | t in s.calls && s.calls[t].pc.Queued? ::
          s.calls[t].pc.lock < |s.locks| && t in s.locks[s.calls[t].pc.lock].waiters)
  }

  lemma {:induction false} WaitersStay(s: State, a: Action)
    requires Consistent(s) && Can(s, a)
    requires !a.Wake? && !(a.Proceed? && s.calls[a.t].pc.hit == Null) && !(a.Cancel? && s.calls[a.t].pc.Queued?)
    ensures |Next(s, a).locks| == |s.locks|
    ensures forall l | 0 <= l < |s.locks| :: Next(s, a).locks[l].waiters == s.locks[l].waiters
  {
  }

  lemma {:induction false} QueueStep(s: State, a: Action)
    requires Consistent(s) && Queues(s) && Can(s, a)
    requires !a.Wake? && !(a.Proceed? && s.calls[a.t].pc.hit == Null) && !(a.Cancel? && s.calls[a.t].pc.Queued?)
    ensures Queues(Next(s, a))
  {
    var n := Next(s, a);
    StepEffects(s, a);
    WaitersStay(s, a);
    if !a.Drop? { assert a.t !in s.calls || !s.calls[a.t].pc.Queued?; assert !n.calls[a.t].pc.Queued?; }
  }

  lemma {:induction false} NewLockKeepsQueues(s: State, t: Task)
    requires Queues(s) && t in s.calls && !s.calls[t].pc.Inside()
    ensures Queues(TakeNewLock(s, t))
  {
  }

  lemma {:induction false} QueueOnKeepsQueues(s: State, t: Task, l: LockId)
    requires Queues(s) && t in s.calls && !s.calls[t].pc.Inside() && l < |s.locks|
    ensures Queues(QueueOn(s, t, l))
  {
    var n := QueueOn(s, t, l);
    assert t !in s.locks[l].waiters;
    assert forall m | 0 <= m < |s.locks| && m != l :: n.locks[m] == s.locks[m];
    assert n.locks[l].waiters == s.locks[l].waiters + [t];
  }

  lemma {:induction false} QueueJoin(s: State, t: Task)
    requires Consistent(s) && Queues(s) && t in s.calls && !s.calls[t].pc.Inside()
    ensures Queues(Join(s, t))
  {
    var k := s.calls[t].key;
    JoinCases(s, t);
    if k in s.inflight { QueueOnKeepsQueues(s, t, s.inflight[k]); } else { NewLockKeepsQueues(s, t); }
  }

  lemma {:induction false} QueueWake(s: State, t: Task)
    requires Queues(s) && Can(s, Wake(t))
    ensures Queues(Next(s, Wake(t)))
  {
    var n := Next(s, Wake(t));
    var l := s.calls[t].pc.lock;
    var was := s.locks[l].waiters;
    assert n.locks[l].waiters == was[1..] && was[0] == t;
    assert forall u | u in was && u != t :: u in was[1..];
    assert forall u | u in n.calls && u != t :: n.calls[u] == s.calls[u];
  }

  lemma {:induction false} QueueCancel(s: State, t: Task)
    requires Queues(s) && Can(s, Cancel(t)) && s.calls[t].pc.Queued?
    ensures Queues(Next(s, Cancel(t)))
  {
    var n := Next(s, Cancel(t));
    var l := s.calls[t].pc.lock;
    WithoutOnly(s.locks[l].waiters, t);
    assert n.locks[l].waiters == WithoutFirst(s.locks[l].waiters, t);
    assert forall m | 0 <= m < |s.locks| && m != l :: n.locks[m] == s.locks[m];
    assert forall u | u in n.calls && u != t :: n.calls[u] == s.calls[u];
    forall m, i | 0 <= m < |n.locks| && 0 <= i < |n.locks[m].waiters|
      ensures n.locks[m].waiters[i] in n.calls && n.calls[n.locks[m].waiters[i]].pc == Queued(m)
    {
      assert n.locks[m].waiters[i] in n.locks[m].waiters;
      assert n.locks[m].waiters[i] in s.locks[m].waiters;
    }
  }

  lemma {:induction false} RunKeepsQueues(s: State, actions: seq<Action>)
    requires Consistent(s) && Queues(s)
    ensures Consistent(Run(s, actions)) && Queues(Run(s, actions))
  {
    if actions != [] {
      var n := |actions| - 1;
      RunKeepsQueues(s, actions[..n]);
      var before, a := Run(s, actions[..n]), actions[n];
      StepKeepsConsistent(before, a);
      if Can(before, a) {
        if a.Proceed? && before.calls[a.t].pc.hit == Null { QueueJoin(before, a.t); }
        else if a.Wake? { QueueWake(before, a.t); }
        else if a.Cancel? && before.calls[a.t].pc.Queued? { QueueCancel(before, a.t); }
        else { QueueStep(before, a); }
      }
    }
  }

  /** In every reachable state a queued call waits for a lock that a live call holds, or the lock is free
      and its first waiter can take it at once: no wake-up is ever lost, even for a lock that has left the
      map and even when waiters are cancelled. */
  lemma {:induction false} NoWaiterIsForgotten(actions: seq<Action>, t: Task)
    requires t in Run(INITIAL, actions).calls && Run(INITIAL, actions).calls[t].pc.Queued?
    ensures var s := Run(INITIAL, actions); var l := s.calls[t].pc.lock;
      && l < |s.locks|
      && if s.locks[l].holder.Some? then
           s.locks[l].holder.value in Live(s)
         else
           s.locks[l].waiters != [] && Can(s, Wake(s.locks[l].waiters[0]))
  {
    RunKeepsQueues(INITIAL, actions);
  }

  // ---------------------------------------------------------------------------
  // Where the values come from
  // ---------------------------------------------------------------------------

  /** What the producers of a key have returned over a run. */
  function Produced(actions: seq<Action>, k: Key): set<Json> {
    if actions == [] then {}
    else
      var n := |actions| - 1;
      var s, a := Run(INITIAL, actions[..n]), actions[n];
      Produced(actions[..n], k) + if a.Produce? && Can(s, a) && s.calls[a.t].key == k then {a.value} else {}
  }

  predicate CallHas(pc: Pc, values: set<Json>) {
    && (pc.Looked? || pc.Rechecked? ==> pc.hit == Null || pc.hit in values)
    && (pc.Storing? || pc.Written? ==> pc.value in values)
    && (pc.Done? ==> pc.result in values)
  }

  /** Whatever is stored under a key, or has been seen or is about to be returned by its calls, is one of the values. */
  predicate KeyHas(s: State, k: Key, values: set<Json>) {
    && (k in s.store ==> s.store[k] in values)
    && forall t | t in s.calls && s.calls[t].key == k :: CallHas(s.calls[t].pc, values)
  }

  lemma {:induction false} CallStillHas(s: State, a: Action, k: Key, values: set<Json>)
    requires Can(s, a) && !a.Drop? && !a.Enter? && s.calls[a.t].key == k && KeyHas(s, k, values)
    ensures CallHas(Next(s, a).calls[a.t].pc, if a.Produce? then values + {a.value} else values)
  {
    assert CallHas(s.calls[a.t].pc, values);
  }

  lemma {:induction false} StepStillHas(s: State, a: Action, k: Key, values: set<Json>)
    requires KeyHas(s, k, values)
    ensures KeyHas(Next(s, a), k, if a.Produce? && Can(s, a) && s.calls[a.t].key == k then values + {a.value} else values)
  {
    if Can(s, a) {
      StepEffects(s, a);
      if !a.Drop? && !a.Enter? && s.calls[a.t].key == k { CallStillHas(s, a, k, values); }
    }
  }

  lemma {:induction false} RunStillHas(actions: seq<Action>, k: Key)
    ensures KeyHas(Run(INITIAL, actions), k, Produced(actions, k))
  {
    if actions != [] {
      var n := |actions| - 1;
      RunStillHas(actions[..n], k);
      StepStillHas(Run(INITIAL, actions[..n]), actions[n], k, Produced(actions[..n], k));
    }
  }

  /** In every run, whatever goes wrong in it: a call only ever returns what a producer of its own key has
      returned. */
  lemma {:induction false} ReturnedValuesWereProduced(actions: seq<Action>, t: Task)
    requires t in Run(INITIAL, actions).calls && Run(INITIAL, actions).calls[t].pc.Done?
    ensures var call := Run(INITIAL, actions).calls[t]; call.pc.result in Produced(actions, call.key)
  {
    RunStillHas(actions, Run(INITIAL, actions).calls[t].key);
  }

  /** From `s` to `t` the entry of `k` stays exactly if its lock is still held, and a new one is a new lock. */
  predicate EntryFollowsLock(s: State, t: State, k: Key) {
    && |s.locks| <= |t.locks|
    && (k in s.inflight ==>
          && s.inflight[k] < |s.locks|
          && (k in t.inflight && t.inflight[k] == s.inflight[k] <==> t.locks[s.inflight[k]].holder.Some?))
    && (k in t.inflight && !(k in s.inflight && t.inflight[k] == s.inflight[k]) ==>
          k !in s.inflight && t.inflight[k] == |s.locks|)
  }

  lemma {:induction false} EntryAfterLeave(s: State, t: Task, last: Pc, k: Key)
    requires Consistent(s) && t in s.calls && s.calls[t].pc.Holds()
    ensures EntryFollowsLock(s, Leave(s, t, s.calls[t].pc.lock, last), k)
  {
  }

  lemma {:induction false} EntryAfterJoin(s: State, t: Task, k: Key)
    requires Consistent(s) && t in s.calls && !s.calls[t].pc.Inside()
    ensures EntryFollowsLock(s, Join(s, t), k)
  {
    JoinCases(s, t);
  }

  lemma {:induction false} EntryAfterGivingUp(s: State, t: Task, k: Key)
    requires Consistent(s) && Can(s, Cancel(t)) && s.calls[t].pc.Queued?
    ensures EntryFollowsLock(s, Next(s, Cancel(t)), k)
  {
  }

  /** Whatever happens, an entry of the map stays exactly as long as its lock is held, and a new one is a new lock:
      no call removes the entry of a lock that is not its own. */
  lemma {:induction false} EntryStaysExactly(s: State, a: Action, k: Key)
    requires Consistent(s)
    ensures EntryFollowsLock(s, Next(s, a), k)
  {
    if Can(s, a) && !a.Drop? && a.t in s.calls {
      var pc := s.calls[a.t].pc;
      if a.Proceed? && pc.hit == Null { EntryAfterJoin(s, a.t, k); }
      if a.Raise? || (a.Cancel? && pc.Holds()) { EntryAfterLeave(s, a.t, Failed, k); }
      if a.Finish? { EntryAfterLeave(s, a.t, Done(pc.value), k); }
      if a.Decide? && pc.hit != Null { EntryAfterLeave(s, a.t, Done(pc.hit), k); }
      if a.Cancel? && pc.Queued? { EntryAfterGivingUp(s, a.t, k); }
    }
  }

  /** A call that finds a value at its first look returns it at once, without lock or producer. */
  lemma {:induction false} HitIsReturned(s: State, t: Task)
    requires Can(s, Proceed(t)) && s.calls[t].pc.hit != Null
    ensures Next(s, Proceed(t)) == s.(calls := s.calls[t := Call(s.calls[t].key, Done(s.calls[t].pc.hit))])
  {
  }
}
