/** What one step does to a host and its servers, in the terms of what anyone can see before and after it. */
module HealthExact {
  import opened Wrappers
  import opened HealthModel
  import opened HealthOutages

  // ---------------------------------------------------------------------------
  // The host
  // ---------------------------------------------------------------------------

  /** Somebody answers for the host: a server that is enabled and not in maintenance or, when no server is
      enabled, the host's own backend. */
  predicate SomebodyAnswers(h: Host, c: Cycle) {
    || (exists i | 0 <= i < |h.servers| :: h.servers[i].enabled && !h.servers[i].down && h.servers[i].id in c.answering)
    || ((forall i | 0 <= i < |h.servers| :: !h.servers[i].enabled) && c.hostAnswers)
  }

  /** A host is up after a cycle exactly when somebody answered. Otherwise it is down exactly when it was, or when
      the cycle before failed too. */
  lemma {:induction false} HostStatusExactly(h: Host, c: Cycle)
    ensures var k := RunCycle(h, c);
      && (SomebodyAnswers(h, c) ==> k.status == Up && k.failures == 0)
      && (!SomebodyAnswers(h, c) ==>
            k.failures == h.failures + 1 && k.status == if h.failures >= 1 then Down else h.status)
  {
    assert SomebodyAnswers(h, c) <==> HostUp(h, c) by {
      if j :| 0 <= j < |h.servers| && h.servers[j].enabled { assert HasServers(h.servers); }
    }
  }

  /** What a cycle announces of the host, and what time it remembers. */
  lemma {:induction false} HostNewsExactly(h: Host, c: Cycle)
    ensures var k := RunCycle(h, c);
      && k.autoDownOn == h.autoDownOn
      && (k.status == Down && h.status != Down ==> k.notes == h.notes + [HostDown(c.checked)])
      && (k.status == Up && h.status == Down ==>
            k.notes == h.notes + [HostBack(c.checked, if h.checkedAt == None then None else Some(c.checked - h.checkedAt.value))])
      && (k.status == h.status || (h.status == Unknown && k.status == Up) ==> k.notes == h.notes)
      && k.checkedAt == if k.status == Up && h.status == Down then h.checkedAt else Some(c.checked)
  {
  }

  // ---------------------------------------------------------------------------
  // Probe results
  // ---------------------------------------------------------------------------

  /** A cycle leaves an enabled server up exactly when it answered; one that did not is down exactly when it was,
      was not known yet, or failed the probe before too. Other servers keep their status and counter. */
  lemma {:induction false} ServerStatusExactly(h: Host, c: Cycle, i: nat)
    requires i < |h.servers|
    ensures var s, t := h.servers[i], RunCycle(h, c).servers[i];
      && t.id == s.id && t.address == s.address && t.enabled == s.enabled && t.down == s.down
      && (!s.enabled ==> t.lastStatus == s.lastStatus && t.failures == s.failures)
      && (s.enabled && s.id in c.answering ==> t.lastStatus == Up && t.failures == 0)
      && (s.enabled && s.id !in c.answering ==>
            && t.failures == s.failures + 1
            && t.lastStatus == if s.lastStatus == Unknown || s.failures >= 1 then Down else s.lastStatus)
  {
    CycleOnServer(h, c, i);
    CycleKeepsAddress(h, c, i);
  }

  lemma {:induction false} CycleKeepsAddress(h: Host, c: Cycle, i: nat)
    requires i < |h.servers|
    ensures RunCycle(h, c).servers[i].address == h.servers[i].address
  {
    assert CheckHost(h, c).servers[i].address == h.servers[i].address;
  }

  /** A manual check writes the raw result into the enabled servers and touches nothing else of host and servers. */
  lemma {:induction false} ManualCheckExactly(h: Host, answering: set<string>, i: nat)
    requires i < |h.servers|
    ensures var k := Next(h, CheckNow(answering)); |k.servers| == |h.servers| && k == h.(servers := k.servers)
    ensures var s, t := h.servers[i], Next(h, CheckNow(answering)).servers[i];
      && t == s.(lastStatus := t.lastStatus, failures := t.failures)
      && (!s.enabled ==> t == s)
      && (s.enabled && s.id in answering ==> t.lastStatus == Up && t.failures == 0)
      && (s.enabled && s.id !in answering ==> t.lastStatus == Down && t.failures == s.failures + 1)
  {
  }

  /** A restart empties both counters and touches nothing else. */
  lemma {:induction false} RestartExactly(h: Host, i: nat)
    requires i < |h.servers|
    ensures var k := Next(h, Restart);
      k == h.(failures := 0, servers := k.servers) && |k.servers| == |h.servers|
      && k.servers[i] == h.servers[i].(failures := 0)
  {
  }

  // ---------------------------------------------------------------------------
  // Saving the servers
  // ---------------------------------------------------------------------------

  /** The saved row is the row of `pool` with the item's id: it keeps its health and what was announced of it, but
      forgets its status and automatic flag when it moves. */
  predicate KeptRow(s: Server, u: Upsert, t: Server) {
    && u.id == Some(s.id) && t.id == s.id
    && t.address == u.address && t.enabled == u.enabled && t.down == u.down
    && t.alertStatus == s.alertStatus && t.alertDownAt == s.alertDownAt && t.log == s.log && t.failures == s.failures
    && (if s.address == u.address then t.lastStatus == s.lastStatus && t.autoDown == s.autoDown
        else t.lastStatus == Unknown && !t.autoDown)
  }

  predicate NewRow(u: Upsert, t: Server) {
    && t.id == u.newId && t.address == u.address && t.enabled == u.enabled && t.down == u.down
    && t.lastStatus == Unknown && !t.autoDown && t.alertStatus == Never && t.alertDownAt == None && t.log == []
  }

  predicate IdsDiffer(pool: seq<Server>) {
    forall i, j | 0 <= i < j < |pool| :: pool[i].id != pool[j].id
  }

  /** No earlier item asks for the same row. */
  predicate FirstToAsk(items: seq<Upsert>, j: nat)
    requires j < |items|
  {
    forall k | 0 <= k < j :: items[k].id != items[j].id
  }

  lemma {:induction false} IndexOfExactly(pool: seq<Server>, id: string)
    ensures IndexOf(pool, id) == |pool| ==> forall i | 0 <= i < |pool| :: pool[i].id != id
  {
    if pool != [] && pool[0].id != id { IndexOfExactly(pool[1..], id); }
  }

  lemma {:induction false} FirstToAskUnfolds(items: seq<Upsert>, j: nat)
    requires 0 < j < |items|
    ensures FirstToAsk(items, j) <==> items[0].id != items[j].id && FirstToAsk(items[1..], j - 1)
  {
    if FirstToAsk(items[1..], j - 1) && items[0].id != items[j].id {
      forall k | 0 <= k < j ensures items[k].id != items[j].id {
        if k > 0 { assert items[1..][k - 1].id != items[1..][j - 1].id; }
      }
    }
  }

  predicate Named(pool: seq<Server>, u: Upsert) {
    exists i | 0 <= i < |pool| :: u.id == Some(pool[i].id)
  }

  /** What a save does with an item: it keeps the row the item names, if the item is the first to ask for it, and
      makes a new row otherwise. */
  predicate SavedAs(pool: seq<Server>, u: Upsert, first: bool, t: Server) {
    if first && Named(pool, u) then exists i | 0 <= i < |pool| :: KeptRow(pool[i], u, t) else NewRow(u, t)
  }

  /** Rows that an earlier item did not take are still there. */
  lemma {:induction false} RestOfPool(pool: seq<Server>, taken: Upsert, u: Upsert, first: bool, i0: nat, t: Server)
    requires IdsDiffer(pool) && i0 < |pool| && taken.id == Some(pool[i0].id)
    requires SavedAs(pool[..i0] + pool[i0 + 1..], u, first, t)
    ensures SavedAs(pool, u, first && taken.id != u.id, t)
  {
    var rest := pool[..i0] + pool[i0 + 1..];
    assert forall s :: s in rest <==> s in pool && s != pool[i0] by { InRest(pool, i0); }
    assert Named(pool, u) <==> exists s | s in pool :: u.id == Some(s.id);
    assert Named(rest, u) <==> exists s | s in rest :: u.id == Some(s.id);
    if i :| 0 <= i < |rest| && KeptRow(rest[i], u, t) {
      assert rest[i] in pool;
    }
  }

  lemma {:induction false} InRest(pool: seq<Server>, i0: nat)
    requires IdsDiffer(pool) && i0 < |pool|
    ensures forall s :: s in pool[..i0] + pool[i0 + 1..] <==> s in pool && s != pool[i0]
  {
    forall s ensures s in pool[..i0] + pool[i0 + 1..] <==> s in pool && s != pool[i0] {
      if s in pool {
        var i :| 0 <= i < |pool| && pool[i] == s;
        if i < i0 { assert pool[..i0][i] == s; } else if i > i0 { assert pool[i0 + 1..][i - i0 - 1] == s; }
      }
    }
  }

  /** Saving makes one row of each item, in order: the saved row it names, or a new one when it names none (or one
      that an earlier item took). */
  lemma {:induction false} SaveExactly(pool: seq<Server>, items: seq<Upsert>, j: nat)
    requires IdsDiffer(pool) && j < |items|
    ensures |SaveServers(pool, items)| == |items|
    ensures SavedAs(pool, items[j], FirstToAsk(items, j), SaveServers(pool, items)[j])
    decreases items
  {
    var u := items[0];
    var i0 := if u.id.Some? then IndexOf(pool, u.id.value) else |pool|;
    if u.id.Some? { IndexOfExactly(pool, u.id.value); }
    SaveLength(pool, items);
    if j == 0 {
      FirstSaved(pool, items, i0);
    } else if i0 < |pool| {
      var rest := pool[..i0] + pool[i0 + 1..];
      RestDiffers(pool, i0);
      SaveExactly(rest, items[1..], j - 1);
      LaterSaved(pool, items, j, i0);
    } else {
      FirstToAskUnfolds(items, j);
      SaveExactly(pool, items[1..], j - 1);
      assert u.id == items[j].id ==> !Named(pool, items[j]);
    }
  }

  lemma {:induction false} LaterSaved(pool: seq<Server>, items: seq<Upsert>, j: nat, i0: nat)
    requires IdsDiffer(pool) && 0 < j < |items| && i0 < |pool| && items[0].id == Some(pool[i0].id)
    requires i0 == IndexOf(pool, pool[i0].id)
    requires var later := SaveServers(pool[..i0] + pool[i0 + 1..], items[1..]);
      j - 1 < |later| && SavedAs(pool[..i0] + pool[i0 + 1..], items[j], FirstToAsk(items[1..], j - 1), later[j - 1])
    ensures j < |SaveServers(pool, items)| && SavedAs(pool, items[j], FirstToAsk(items, j), SaveServers(pool, items)[j])
  {
    var rest := pool[..i0] + pool[i0 + 1..];
    FirstToAskUnfolds(items, j);
    RestOfPool(pool, items[0], items[j], FirstToAsk(items[1..], j - 1), i0, SaveServers(rest, items[1..])[j - 1]);
    assert SaveServers(pool, items)[j] == SaveServers(rest, items[1..])[j - 1];
  }

  lemma {:induction false} RestDiffers(pool: seq<Server>, i0: nat)
    requires IdsDiffer(pool) && i0 < |pool|
    ensures IdsDiffer(pool[..i0] + pool[i0 + 1..])
  {
  }

  lemma {:induction false} SaveLength(pool: seq<Server>, items: seq<Upsert>)
    ensures |SaveServers(pool, items)| == |items|
    decreases items
  {
    if items != [] {
      var i := if items[0].id.Some? then IndexOf(pool, items[0].id.value) else |pool|;
      SaveLength(if i < |pool| then pool[..i] + pool[i + 1..] else pool, items[1..]);
    }
  }

  lemma {:induction false} FirstSaved(pool: seq<Server>, items: seq<Upsert>, i0: nat)
    requires IdsDiffer(pool) && items != []
    requires i0 == if items[0].id.Some? then IndexOf(pool, items[0].id.value) else |pool|
    requires i0 == |pool| ==> forall i | 0 <= i < |pool| :: items[0].id != Some(pool[i].id)
    ensures SaveServers(pool, items) != [] && SavedAs(pool, items[0], true, SaveServers(pool, items)[0])
  {
    if i0 < |pool| {
      assert SaveServers(pool, items)[0] == Edited(pool[i0], items[0]);
      assert KeptRow(pool[i0], items[0], Edited(pool[i0], items[0]));
    } else {
      assert SaveServers(pool, items)[0] == NewServer(items[0]);
    }
  }
}
