/** A whole pass of the health loop: every host is checked, then every host's alerts are planned. */
module HealthLoop {
  import opened HealthModel
  import opened HealthOutages
  import opened HealthMonitor

  // ---------------------------------------------------------------------------
  // The hosts of a pass
  // ---------------------------------------------------------------------------

  /** `lists` are the row lists of the hosts. */
  predicate Listed(hosts: seq<ProxyHost>, lists: seq<seq<UpstreamServer>>)
    reads hosts`upstreamServers
  {
    |lists| == |hosts| && forall j | 0 <= j < |hosts| :: (assert hosts[j] in hosts; lists[j] == hosts[j].upstreamServers)
  }

  /** Hosts are distinct objects with distinct keys, and no two share the key of an upstream row. */
  predicate Apart(hosts: seq<ProxyHost>, lists: seq<seq<UpstreamServer>>) {
    && |lists| == |hosts|
    && (forall j | 0 <= j < |hosts| :: Distinct(lists[j]))
    && (forall i, j | 0 <= i < |hosts| && 0 <= j < |hosts| && i != j ::
          hosts[i] != hosts[j] && hosts[i].id != hosts[j].id && Ids(lists[i]) !! Ids(lists[j]))
  }

  ghost function Views(m: Monitor, hosts: seq<ProxyHost>): (views: seq<Host>)
    reads *
    ensures |views| == |hosts| && forall j | 0 <= j < |hosts| :: views[j] == m.HostView(hosts[j])
  {
    seq(|hosts|, j requires 0 <= j < |hosts| reads * => m.HostView(hosts[j]))
  }

  lemma {:induction false} RowsApart(hosts: seq<ProxyHost>, lists: seq<seq<UpstreamServer>>, i: nat, j: nat)
    requires Apart(hosts, lists) && i < |hosts| && j < |hosts| && i != j
    ensures forall k | 0 <= k < |lists[j]| :: lists[j][k] !in lists[i] && lists[j][k].id !in Ids(lists[i])
  {
    forall k | 0 <= k < |lists[j]| ensures lists[j][k] !in lists[i] && lists[j][k].id !in Ids(lists[i]) {
      assert lists[j][k].id in Ids(lists[j]);
    }
  }

  // ---------------------------------------------------------------------------
  // Checking them all
  // ---------------------------------------------------------------------------

  /** A host between its check and its planning. */
  ghost predicate CheckedOne(view: Host, list: seq<UpstreamServer>, previous: map<string, Status>,
                             c: Cycle, before: Host, o: Outcome, idx: seq<nat>) {
    && view == CheckHost(before, c)
    && Picked(list, o.servers, idx, before.servers)
    && o.transition == TransitionOf(before, c)
    && PreviousKnown(previous, o.servers, idx, before)
  }

  /** The first `n` hosts are checked, the others are as they were. */
  ghost predicate CheckedUpTo(views: seq<Host>, lists: seq<seq<UpstreamServer>>, previous: map<string, Status>, n: nat,
                              cs: seq<Cycle>, before: seq<Host>, outcomes: seq<Outcome>, idxs: seq<seq<nat>>) {
    && n == |outcomes| == |idxs| <= |views| == |lists| == |cs| == |before|
    && (forall j | 0 <= j < n :: CheckedOne(views[j], lists[j], previous, cs[j], before[j], outcomes[j], idxs[j]))
    && (forall j | n <= j < |views| :: views[j] == before[j])
  }

  lemma {:induction false} PreviousStays(previous: map<string, Status>, previous': map<string, Status>,
                                         list: seq<UpstreamServer>, some: seq<UpstreamServer>, idx: seq<nat>,
                                         before: Host, ids: set<string>)
    requires Picked(list, some, idx, before.servers) && PreviousKnown(previous, some, idx, before)
    requires PreviousKept(ids, previous, previous') && ids !! Ids(list)
    ensures PreviousKnown(previous', some, idx, before)
  {
    forall k | 0 <= k < |some|
      ensures some[k].id in previous' && previous'[some[k].id] == before.servers[idx[k]].lastStatus
    {
      assert list[idx[k]] in list;
      assert some[k].id in Ids(list) && some[k].id !in ids;
    }
  }

  lemma {:induction false} CheckedStep(hosts: seq<ProxyHost>, was: seq<Host>, now: seq<Host>,
                                       lists: seq<seq<UpstreamServer>>, previous: map<string, Status>,
                                       previous': map<string, Status>, i: nat, cs: seq<Cycle>, before: seq<Host>,
                                       outcomes: seq<Outcome>, idxs: seq<seq<nat>>, o: Outcome, idx: seq<nat>)
    requires Apart(hosts, lists) && CheckedUpTo(was, lists, previous, i, cs, before, outcomes, idxs)
    requires i < |was| == |now| == |hosts| && forall j | 0 <= j < |was| && j != i :: now[j] == was[j]
    requires PreviousKept(Ids(lists[i]), previous, previous')
    requires CheckedOne(now[i], lists[i], previous', cs[i], before[i], o, idx)
    ensures CheckedUpTo(now, lists, previous', i + 1, cs, before, outcomes + [o], idxs + [idx])
  {
    forall j | 0 <= j < i ensures CheckedOne(now[j], lists[j], previous', cs[j], before[j], outcomes[j], idxs[j]) {
      PreviousStays(previous, previous', lists[j], outcomes[j].servers, idxs[j], before[j], Ids(lists[i]));
    }
  }

  /** The rows differ by nothing but their counters, which `m` and `m'` hold. */
  predicate Recounted(rows: seq<Server>, rows': seq<Server>, m: map<string, nat>, m': map<string, nat>) {
    && |rows| == |rows'|
    && forall k | 0 <= k < |rows| ::
         rows[k].failures == Count(m, rows[k].id) && rows'[k] == rows[k].(failures := Count(m', rows[k].id))
  }

  lemma {:induction false} SameCountsSameRows(rows: seq<Server>, rows': seq<Server>, m: map<string, nat>,
                                              m': map<string, nat>, ids: set<string>)
    requires CountsKept(ids, m, m') && Recounted(rows, rows', m, m')
    requires forall k | 0 <= k < |rows| :: rows[k].id !in ids
    ensures rows' == rows
  {
  }

  method CheckNext(m: Monitor, hosts: seq<ProxyHost>, i: nat, host: ProxyHost, c: Cycle,
                   ghost lists: seq<seq<UpstreamServer>>, ghost before: Host)
    returns (outcome: Outcome, changed: bool, ghost idx: seq<nat>)
    requires Apart(hosts, lists) && Listed(hosts, lists) && i < |hosts| && host == hosts[i] && before == m.HostView(host)
    modifies m, host`healthStatus, host`healthCheckedAt, host`notes
    modifies host.upstreamServers`lastStatus, host.upstreamServers`autoDown
    ensures CheckedOne(m.HostView(host), host.upstreamServers, m.previousStatus, c, before, outcome, idx)
    ensures changed == ConfigChanged(before.autoDownOn, Probe(before.servers, c.answering, true))
    ensures PreviousKept(Ids(host.upstreamServers), old(m.previousStatus), m.previousStatus)
    ensures forall j | 0 <= j < |hosts| && j != i :: Views(m, hosts)[j] == old(Views(m, hosts))[j]
  {
    var servers, transition;
    servers, transition, changed, idx := m.CheckOne(host, c, before);
    outcome := Outcome(servers, transition);
    forall j | 0 <= j < |hosts| && j != i ensures m.HostView(hosts[j]) == old(m.HostView(hosts[j])) {
      RowsApart(hosts, lists, i, j);
      ghost var was := old(m.HostView(hosts[j]));
      assert hosts[j].upstreamServers == lists[j];
      SameCountsSameRows(was.servers, m.HostView(hosts[j]).servers, old(m.serverFailures), m.serverFailures, Ids(lists[i]));
    }
  }

  method CheckAll(m: Monitor, hosts: seq<ProxyHost>, cs: seq<Cycle>, ghost lists: seq<seq<UpstreamServer>>, ghost before: seq<Host>)
    returns (outcomes: seq<Outcome>, changed: bool, ghost idxs: seq<seq<nat>>)
    requires Apart(hosts, lists) && Listed(hosts, lists) && |cs| == |hosts| && before == Views(m, hosts)
    modifies m, hosts`healthStatus, hosts`healthCheckedAt, hosts`notes
    modifies Rowset(lists)`lastStatus, Rowset(lists)`autoDown
    ensures CheckedUpTo(Views(m, hosts), lists, m.previousStatus, |hosts|, cs, before, outcomes, idxs)
    ensures changed <==> SomeConfigChanged(before, cs, |hosts|)
  {
    outcomes, idxs, changed := [], [], false;
    for i := 0 to |hosts|
      invariant Listed(hosts, lists)
      invariant CheckedUpTo(Views(m, hosts), lists, m.previousStatus, i, cs, before, outcomes, idxs)
      invariant changed <==> SomeConfigChanged(before, cs, i)
    {
      ghost var was, previous := Views(m, hosts), m.previousStatus;
      InRowset(lists, i);
      var outcome, one;
      ghost var idx;
      outcome, one, idx := CheckNext(m, hosts, i, hosts[i], cs[i], lists, before[i]);
      changed := changed || one;
      CheckedStep(hosts, was, Views(m, hosts), lists, previous, m.previousStatus, i, cs, before, outcomes, idxs, outcome, idx);
      outcomes, idxs := outcomes + [outcome], idxs + [idx];
    }
  }

  function Rowset(lists: seq<seq<UpstreamServer>>): set<UpstreamServer> {
    set j, k | 0 <= j < |lists| && 0 <= k < |lists[j]| :: lists[j][k]
  }

  lemma {:induction false} InRowset(lists: seq<seq<UpstreamServer>>, i: nat)
    requires i < |lists|
    ensures forall s | s in lists[i] :: s in Rowset(lists)
  {
  }

  predicate SomeConfigChanged(before: seq<Host>, cs: seq<Cycle>, n: nat)
    requires n <= |before| && n <= |cs|
  {
    n > 0 && (SomeConfigChanged(before, cs, n - 1)
              || ConfigChanged(before[n - 1].autoDownOn, Probe(before[n - 1].servers, cs[n - 1].answering, true)))
  }

  // ---------------------------------------------------------------------------
  // Planning them all
  // ---------------------------------------------------------------------------

  /** The events of each host. */
  function PassNews(before: seq<Host>, cs: seq<Cycle>): (news: seq<seq<Item>>)
    requires |before| == |cs|
    ensures ArePassNews(news, before, cs)
  {
    seq(|before|, j requires 0 <= j < |before| =>
      NewItems(CheckHost(before[j], cs[j]).servers, RunCycle(before[j], cs[j]).servers))
  }

  predicate ArePassNews(news: seq<seq<Item>>, before: seq<Host>, cs: seq<Cycle>) {
    && |news| == |before| == |cs|
    && forall j {:trigger RunCycle(before[j], cs[j])} | 0 <= j < |before| ::
         news[j] == NewItems(CheckHost(before[j], cs[j]).servers, RunCycle(before[j], cs[j]).servers)
  }

  /** The events of a pass, in host order. */
  function PassItems(before: seq<Host>, cs: seq<Cycle>): seq<Item>
    requires |before| == |cs|
  {
    Joined(PassNews(before, cs), |before|)
  }

  /** The first `n` hosts have had their cycle, the others are checked. */
  ghost predicate PlannedUpTo(views: seq<Host>, lists: seq<seq<UpstreamServer>>, previous: map<string, Status>, n: nat,
                              cs: seq<Cycle>, before: seq<Host>, outcomes: seq<Outcome>, idxs: seq<seq<nat>>) {
    && n <= |outcomes| == |idxs| == |views| == |lists| == |cs| == |before|
    && (forall j {:trigger RunCycle(before[j], cs[j])} | 0 <= j < n :: views[j] == RunCycle(before[j], cs[j]))
    && (forall j {:trigger CheckedOne(views[j], lists[j], previous, cs[j], before[j], outcomes[j], idxs[j])}
          | n <= j < |views| :: CheckedOne(views[j], lists[j], previous, cs[j], before[j], outcomes[j], idxs[j]))
  }

  lemma {:induction false} PlannedStep(was: seq<Host>, now: seq<Host>, lists: seq<seq<UpstreamServer>>,
                                       previous: map<string, Status>, i: nat, cs: seq<Cycle>, before: seq<Host>,
                                       outcomes: seq<Outcome>, idxs: seq<seq<nat>>)
    requires i < |was| == |now| && PlannedUpTo(was, lists, previous, i, cs, before, outcomes, idxs)
    requires forall j | 0 <= j < |was| && j != i :: now[j] == was[j]
    requires now[i] == RunCycle(before[i], cs[i])
    ensures PlannedUpTo(now, lists, previous, i + 1, cs, before, outcomes, idxs)
  {
  }

  method PlanNext(m: Monitor, hosts: seq<ProxyHost>, i: nat, host: ProxyHost, outcome: Outcome, c: Cycle,
                  ghost lists: seq<seq<UpstreamServer>>, ghost before: Host, ghost idx: seq<nat>)
    returns (items: seq<Item>)
    requires Apart(hosts, lists) && Listed(hosts, lists) && i < |hosts| && host == hosts[i]
    requires CheckedOne(m.HostView(host), host.upstreamServers, m.previousStatus, c, before, outcome, idx)
    modifies host.upstreamServers`alertStatus, host.upstreamServers`alertDownAt, host.upstreamServers`log
    ensures m.HostView(host) == RunCycle(before, c)
    ensures items == NewItems(CheckHost(before, c).servers, RunCycle(before, c).servers)
    ensures forall j | 0 <= j < |hosts| && j != i :: Views(m, hosts)[j] == old(Views(m, hosts))[j]
  {
    items := m.PlanHost(host, outcome, c, before, idx);
    forall j | 0 <= j < |hosts| && j != i ensures m.HostView(hosts[j]) == old(m.HostView(hosts[j])) {
      RowsApart(hosts, lists, i, j);
      assert Rows(hosts[j].upstreamServers, m.serverFailures) == old(Rows(hosts[j].upstreamServers, m.serverFailures));
    }
  }

  method PlanAll(m: Monitor, hosts: seq<ProxyHost>, outcomes: seq<Outcome>, cs: seq<Cycle>,
                 ghost lists: seq<seq<UpstreamServer>>, ghost before: seq<Host>, ghost idxs: seq<seq<nat>>,
                 ghost news: seq<seq<Item>>)
    returns (items: seq<Item>)
    requires Apart(hosts, lists) && Listed(hosts, lists) && ArePassNews(news, before, cs)
    requires PlannedUpTo(Views(m, hosts), lists, m.previousStatus, 0, cs, before, outcomes, idxs)
    modifies Rowset(lists)`alertStatus, Rowset(lists)`alertDownAt, Rowset(lists)`log
    ensures PlannedUpTo(Views(m, hosts), lists, m.previousStatus, |hosts|, cs, before, outcomes, idxs)
    ensures items == Joined(news, |hosts|)
  {
    items := [];
    for i := 0 to |hosts|
      invariant PlannedUpTo(Views(m, hosts), lists, m.previousStatus, i, cs, before, outcomes, idxs)
      invariant items == Joined(news, i)
    {
      InRowset(lists, i);
      var more := PlanOneMore(m, hosts, i, hosts[i], outcomes, cs, lists, before, idxs, news);
      items := items + more;
    }
  }

  method PlanOneMore(m: Monitor, hosts: seq<ProxyHost>, i: nat, host: ProxyHost, outcomes: seq<Outcome>, cs: seq<Cycle>,
                     ghost lists: seq<seq<UpstreamServer>>, ghost before: seq<Host>, ghost idxs: seq<seq<nat>>,
                     ghost news: seq<seq<Item>>)
    returns (items: seq<Item>)
    requires Apart(hosts, lists) && Listed(hosts, lists) && i < |hosts| && host == hosts[i]
    requires ArePassNews(news, before, cs)
    requires PlannedUpTo(Views(m, hosts), lists, m.previousStatus, i, cs, before, outcomes, idxs)
    modifies host.upstreamServers`alertStatus, host.upstreamServers`alertDownAt, host.upstreamServers`log
    ensures PlannedUpTo(Views(m, hosts), lists, m.previousStatus, i + 1, cs, before, outcomes, idxs)
    ensures items == news[i]
  {
    ghost var was := Views(m, hosts);
    assert CheckedOne(was[i], lists[i], m.previousStatus, cs[i], before[i], outcomes[i], idxs[i]);
    items := PlanNext(m, hosts, i, host, outcomes[i], cs[i], lists, before[i], idxs[i]);
    PlannedStep(was, Views(m, hosts), lists, m.previousStatus, i, cs, before, outcomes, idxs);
  }

  /** A whole pass: all hosts are checked, all alerts planned, the statuses before the probe forgotten. Every
      host goes through exactly its own cycle, and the events come out host by host. */
  method RunHealthChecks(m: Monitor, hosts: seq<ProxyHost>, cs: seq<Cycle>, ghost lists: seq<seq<UpstreamServer>>,
                         ghost before: seq<Host>)
    returns (changed: bool, items: seq<Item>)
    requires Apart(hosts, lists) && Listed(hosts, lists) && |cs| == |hosts| && before == Views(m, hosts)
    modifies m, hosts`healthStatus, hosts`healthCheckedAt, hosts`notes, Rowset(lists)
    ensures forall j | 0 <= j < |hosts| :: Views(m, hosts)[j] == RunCycle(before[j], cs[j])
    ensures items == PassItems(before, cs)
    ensures changed <==> SomeConfigChanged(before, cs, |hosts|)
    ensures m.previousStatus == map[]
  {
    var outcomes;
    ghost var idxs;
    outcomes, changed, idxs := CheckAll(m, hosts, cs, lists, before);
    items := PlanAll(m, hosts, outcomes, cs, lists, before, idxs, PassNews(before, cs));
    ForgetStatuses(m, hosts);
  }

  method ForgetStatuses(m: Monitor, ghost hosts: seq<ProxyHost>)
    modifies m`previousStatus
    ensures m.previousStatus == map[] && Views(m, hosts) == old(Views(m, hosts))
  {
    m.previousStatus := map[];
    forall j | 0 <= j < |hosts| ensures m.HostView(hosts[j]) == old(m.HostView(hosts[j])) {
    }
  }

  // ---------------------------------------------------------------------------
  // What a pass reports
  // ---------------------------------------------------------------------------

  /** The cycle moves a server of the host in or out of rotation automatically. */
  ghost predicate MovesSome(h: Host, c: Cycle) {
    h.autoDownOn && exists i: nat :: i < |h.servers| && RunCycle(h, c).servers[i].autoDown != h.servers[i].autoDown
  }

  lemma {:induction false} MovesExactly(h: Host, c: Cycle)
    ensures MovesSome(h, c) <==> ConfigChanged(h.autoDownOn, Probe(h.servers, c.answering, true))
  {
    var probed, after := Probe(h.servers, c.answering, true), RunCycle(h, c);
    forall i | 0 <= i < |h.servers|
      ensures probed[i].autoDown == h.servers[i].autoDown
      ensures after.servers[i].autoDown == AutoDown(h.autoDownOn, probed)[i].autoDown
    {
      CycleOnServer(h, c, i);
    }
  }

  /** A config change is reported exactly when some host's rotation changed while its option is on. */
  lemma {:induction false} ConfigChangeExactly(before: seq<Host>, cs: seq<Cycle>, n: nat)
    requires n <= |before| && n <= |cs|
    ensures SomeConfigChanged(before, cs, n) <==> exists j :: 0 <= j < n && MovesSome(before[j], cs[j])
  {
    if n > 0 {
      ConfigChangeExactly(before, cs, n - 1);
      MovesExactly(before[n - 1], cs[n - 1]);
    }
  }

  /** The item of a row is the event that its cycle put on record, under the row's own id; none if there was none. */
  lemma {:induction false} ItemExactly(h: Host, c: Cycle, i: nat)
    requires i < |h.servers|
    ensures var s, t := h.servers[i], RunCycle(h, c).servers[i];
      var item := NewItem(CheckHost(h, c).servers[i], t);
      && (forall at, event, alert :: t.log == s.log + [Note(at, event, alert)] ==> item == [Item(s.id, event, alert)])
      && (t.log == s.log || t.log == s.log + [SeenUp] || t.log == s.log + [Maintained] ==> item == [])
  {
    CycleOnServer(h, c, i);
    var s, t := h.servers[i], RunCycle(h, c).servers[i];
    forall at, event, alert | t.log == s.log + [Note(at, event, alert)]
      ensures NewItem(CheckHost(h, c).servers[i], t) == [Item(s.id, event, alert)]
    {
      assert t.log[|s.log|] == Note(at, event, alert);
    }
  }

  /** The event of row `i` of host `j`, if its cycle put one on record. */
  function ItemOf(before: seq<Host>, cs: seq<Cycle>, j: nat, i: nat): seq<Item>
    requires j < |before| == |cs| && i < |before[j].servers|
  {
    NewItem(CheckHost(before[j], cs[j]).servers[i], RunCycle(before[j], cs[j]).servers[i])
  }

  /** The items of a pass are exactly those of the rows of its hosts. */
  lemma {:induction false} PassItemsExactly(before: seq<Host>, cs: seq<Cycle>, item: Item)
    requires |before| == |cs|
    ensures item in PassItems(before, cs) <==>
      exists j: nat, i: nat :: j < |before| && i < |before[j].servers| && item in ItemOf(before, cs, j, i)
  {
    var news := PassNews(before, cs);
    JoinedExactly(news, |before|, item);
    forall j: nat | j < |before|
      ensures item in news[j] <==> exists i: nat :: i < |before[j].servers| && item in ItemOf(before, cs, j, i)
    {
      HostItemsExactly(before, cs, j, item);
    }
  }

  lemma {:induction false} HostItemsExactly(before: seq<Host>, cs: seq<Cycle>, j: nat, item: Item)
    requires j < |before| == |cs|
    ensures item in PassNews(before, cs)[j] <==>
      exists i: nat :: i < |before[j].servers| && item in ItemOf(before, cs, j, i)
  {
    var checked, after := CheckHost(before[j], cs[j]).servers, RunCycle(before[j], cs[j]).servers;
    var news := News(checked, after);
    assert PassNews(before, cs)[j] == NewItems(checked, after);
    JoinedExactly(news, |checked|, item);
    forall i: nat | i < |checked| ensures news[i] == ItemOf(before, cs, j, i) {
    }
  }

  /** The items of the first `k` rows of a host. */
  function RowItems(h: Host, c: Cycle, k: nat): seq<Item>
    requires k <= |h.servers|
  {
    Joined(News(CheckHost(h, c).servers, RunCycle(h, c).servers), k)
  }

  /** And they come host by host, and of each host row by row. */
  lemma {:induction false} PassItemsInOrder(before: seq<Host>, cs: seq<Cycle>, j: nat, k: nat)
    returns (more: seq<Item>, others: seq<Item>)
    requires j < |before| == |cs| && k < |before[j].servers|
    ensures PassItems(before, cs) ==
      PassItems(before[..j], cs[..j]) + (RowItems(before[j], cs[j], k) + ItemOf(before, cs, j, k) + more) + others
  {
    others := JoinedSplits(PassNews(before, cs), |before|, j);
    JoinedPrefix(PassNews(before, cs), PassNews(before[..j], cs[..j]), j);
    more := HostItemsInOrder(before, cs, j, k);
  }

  lemma {:induction false} HostItemsInOrder(before: seq<Host>, cs: seq<Cycle>, j: nat, k: nat) returns (more: seq<Item>)
    requires j < |before| == |cs| && k < |before[j].servers|
    ensures PassNews(before, cs)[j] == RowItems(before[j], cs[j], k) + ItemOf(before, cs, j, k) + more
  {
    var news := News(CheckHost(before[j], cs[j]).servers, RunCycle(before[j], cs[j]).servers);
    assert PassNews(before, cs)[j] == Joined(news, |before[j].servers|);
    more := JoinedSplits(news, |before[j].servers|, k);
    assert news[k] == ItemOf(before, cs, j, k);
  }

  lemma {:induction false} JoinedExactly(news: seq<seq<Item>>, n: nat, item: Item)
    requires n <= |news|
    ensures item in Joined(news, n) <==> exists k: nat :: k < n && item in news[k]
  {
    if n > 0 { JoinedExactly(news, n - 1, item); }
  }

  lemma {:induction false} JoinedSplits(news: seq<seq<Item>>, n: nat, k: nat) returns (rest: seq<Item>)
    requires k < n <= |news|
    ensures Joined(news, n) == Joined(news, k) + news[k] + rest
  {
    if k == n - 1 {
      rest := [];
    } else {
      rest := JoinedSplits(news, n - 1, k);
      rest := rest + news[n - 1];
    }
  }

  lemma {:induction false} JoinedPrefix(news: seq<seq<Item>>, fewer: seq<seq<Item>>, n: nat)
    requires n <= |fewer| <= |news| && forall k | 0 <= k < n :: fewer[k] == news[k]
    ensures Joined(news, n) == Joined(fewer, n)
  {
    if n > 0 { JoinedPrefix(news, fewer, n - 1); }
  }
}
