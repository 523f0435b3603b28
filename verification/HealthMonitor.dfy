/** The health loop in its own form: rows updated in place, three module-level maps, loops over
    the rows. Every method is proved against the value model of HealthModel. */
module HealthMonitor {
  import opened Wrappers
  import opened HealthModel

  class UpstreamServer {
    const id: string
    var address: Address
    var enabled: bool
    var down: bool
    var autoDown: bool
    var lastStatus: Status
    var alertStatus: Announced
    var alertDownAt: Option<int>
    ghost var log: seq<Entry>

    ghost function View(failures: map<string, nat>): (r: Server)
      reads this
      ensures r.id == id && r.enabled == enabled && r.down == down
    {
      Server(id, address, enabled, down, autoDown, lastStatus, alertStatus, alertDownAt, Count(failures, id), log)
    }
  }

  class ProxyHost {
    const id: string
    var lbAutoDown: bool
    var healthStatus: Status
    var healthCheckedAt: Option<int>
    var upstreamServers: seq<UpstreamServer>
    ghost var notes: seq<HostNote>
  }

  /** A counter map: an absent key counts as zero. */
  function Count(m: map<string, nat>, id: string): nat {
    if id in m then m[id] else 0
  }

  ghost function Rows(servers: seq<UpstreamServer>, failures: map<string, nat>): (r: seq<Server>)
    reads servers
    ensures |r| == |servers|
    ensures forall i | 0 <= i < |r| :: r[i] == servers[i].View(failures)
  {
    seq(|servers|, i requires 0 <= i < |servers| reads servers => servers[i].View(failures))
  }

  /** Rows are distinct objects with distinct primary keys. */
  predicate Distinct(servers: seq<UpstreamServer>) {
    forall i, j | 0 <= i < j < |servers| :: servers[i] != servers[j] && servers[i].id != servers[j].id
  }

  /** One history event of a planning pass. */
  datatype Item = Item(server: string, event: Event, alert: Alert)

  /** The event planning added to one history, if any. */
  function NewItem(before: Server, after: Server): seq<Item> {
    if |after.log| > |before.log| && after.log[|before.log|].Note? then
      var e := after.log[|before.log|];
      [Item(after.id, e.event, e.alert)]
    else []
  }

  /** The events of each row. */
  function News(before: seq<Server>, after: seq<Server>): (news: seq<seq<Item>>)
    requires |before| == |after|
    ensures AreNews(news, before, after)
  {
    seq(|before|, k requires 0 <= k < |before| => NewItem(before[k], after[k]))
  }

  predicate AreNews(news: seq<seq<Item>>, before: seq<Server>, after: seq<Server>) {
    && |news| == |before| == |after|
    && forall k | 0 <= k < |before| :: news[k] == NewItem(before[k], after[k])
  }

  function Joined(news: seq<seq<Item>>, n: nat): seq<Item>
    requires n <= |news|
  {
    if n == 0 then [] else Joined(news, n - 1) + news[n - 1]
  }

  /** The events a planning pass added to the histories, in row order. */
  function NewItems(before: seq<Server>, after: seq<Server>): seq<Item>
    requires |before| == |after|
  {
    Joined(News(before, after), |before|)
  }

  function Lookup(m: map<string, Status>, id: string): Option<Status> {
    if id in m then Some(m[id]) else None
  }

  function PlanContext(status: Status, transition: Option<Event>, now: int, window: int): Context {
    Context(transition == Some(WentDown) || (status == Down && transition != Some(Recovered)),
            transition == Some(Recovered), now, window)
  }

  /** While rows are taken out in list order, "some other row is still in rotation" is relief. */
  lemma {:induction false} OthersAreRelief(restored: seq<Server>, current: seq<Server>, i: nat)
    requires |current| == |restored| && i < |restored| && Failing(restored[i])
    requires forall k | 0 <= k < i :: current[k] == TakeOut(restored)[k]
    requires forall k | i <= k < |restored| :: current[k] == restored[k]
    ensures (exists j | 0 <= j < |current| :: j != i && current[j].InRotation()) <==> HasRelief(restored, i)
  {
    forall j | 0 <= j < i && current[j].InRotation()
      ensures restored[j].InRotation() && restored[j].lastStatus != Down
    {
      if restored[j].lastStatus == Down {
        assert restored[i].InRotation();
        assert HasRelief(restored, j);
      }
    }
    if HasRelief(restored, i) {
      var j :| 0 <= j < |restored| && j != i && restored[j].InRotation() && (restored[j].lastStatus != Down || i < j);
      assert current[j].InRotation();
    }
  }

  /** The first `i` rows are done, the others are as they were. */
  function Spliced(before: seq<Server>, after: seq<Server>, i: nat): (r: seq<Server>)
    requires i <= |before| == |after|
    ensures |r| == |before|
  {
    after[..i] + before[i..]
  }

  lemma {:induction false} SplicedStep(before: seq<Server>, after: seq<Server>, i: nat, current: seq<Server>,
                                       next: seq<Server>)
    requires i < |before| == |after| == |current| == |next| && current == Spliced(before, after, i)
    requires forall k | 0 <= k < |current| && k != i :: next[k] == current[k]
    requires next[i] == after[i]
    ensures next == Spliced(before, after, i + 1)
  {
  }

  lemma {:induction false} SplicedAll(before: seq<Server>, after: seq<Server>)
    requires |before| == |after|
    ensures Spliced(before, after, |before|) == after && Spliced(before, after, 0) == before
  {
  }

  predicate IsPlan(planned: seq<Server>, rows: seq<Server>, previous: map<string, Status>, c: Context) {
    && |planned| == |rows|
    && forall k {:trigger PlanServer(rows[k], Lookup(previous, rows[k].id), c)} | 0 <= k < |rows| ::
         planned[k] == PlanServer(rows[k], Lookup(previous, rows[k].id), c)
  }

  /** Planning with the statuses remembered in a map. */
  function PlanLooked(rows: seq<Server>, previous: map<string, Status>, c: Context): (r: seq<Server>)
    ensures |r| == |rows|
  {
    seq(|rows|, i requires 0 <= i < |rows| => PlanServer(rows[i], Lookup(previous, rows[i].id), c))
  }

  class Monitor {
    var serverFailures: map<string, nat>
    var consecutiveFailures: map<string, nat>
    var previousStatus: map<string, Status>

    constructor ()
      ensures serverFailures == map[] && consecutiveFailures == map[] && previousStatus == map[]
    {
      serverFailures, consecutiveFailures, previousStatus := map[], map[], map[];
    }

    method ApplyServerResult(server: UpstreamServer, ok: bool, debounce: bool)
      modifies this`serverFailures, server`lastStatus
      ensures server.View(serverFailures) == ApplyResult(old(server.View(serverFailures)), ok, debounce)
      ensures forall id | id != server.id :: Count(serverFailures, id) == old(Count(serverFailures, id))
    {
      var previous := server.lastStatus;
      if ok {
        serverFailures := serverFailures - {server.id};
        server.lastStatus := Up;
      } else {
        var failures := Count(serverFailures, server.id) + 1;
        serverFailures := serverFailures[server.id := failures];
        if !debounce || failures >= FAILURES_BEFORE_DOWN || previous == Unknown {
          server.lastStatus := Down;
        }
      }
    }

    method UpdateAutoDown(host: ProxyHost, servers: seq<UpstreamServer>) returns (changed: bool)
      requires Distinct(servers) && forall k | 0 <= k < |servers| :: servers[k].enabled
      modifies servers`autoDown
      ensures Rows(servers, serverFailures) == AutoDown(host.lbAutoDown, old(Rows(servers, serverFailures)))
      ensures changed == ConfigChanged(host.lbAutoDown, old(Rows(servers, serverFailures)))
    {
      ghost var start := Rows(servers, serverFailures);
      changed := false;
      if !host.lbAutoDown {
        for i := 0 to |servers|
          invariant forall k | 0 <= k < i :: !servers[k].autoDown
        {
          if servers[i].autoDown {
            servers[i].autoDown := false;
          }
        }
        return;
      }
      changed := RestoreServers(servers);
      ghost var restored := Restore(start);
      assert Rows(servers, serverFailures) == restored;
      var took := TakeServersOut(servers);
      DifferUpToAll(start, restored, |start|);
      DifferUpToAll(restored, TakeOut(restored), |start|);
      FlagsChange(start);
      changed := changed || took;
    }

    /** First loop: servers that answer again go back into rotation. */
    method RestoreServers(servers: seq<UpstreamServer>) returns (changed: bool)
      requires Distinct(servers) && forall k | 0 <= k < |servers| :: servers[k].enabled
      modifies servers`autoDown
      ensures Rows(servers, serverFailures) == Restore(old(Rows(servers, serverFailures)))
      ensures changed == SomeFlagDiffers(old(Rows(servers, serverFailures)), Rows(servers, serverFailures))
    {
      ghost var start := Rows(servers, serverFailures);
      SplicedAll(start, Restore(start));
      changed := false;
      for i := 0 to |servers|
        invariant Rows(servers, serverFailures) == Spliced(start, Restore(start), i)
        invariant changed == DifferUpTo(start, Restore(start), i)
      {
        var restored := RestoreServerAt(servers, i, start);
        changed := changed || restored;
      }
    }

    method RestoreServerAt(servers: seq<UpstreamServer>, i: nat, ghost start: seq<Server>) returns (restored: bool)
      requires Distinct(servers) && forall k | 0 <= k < |servers| :: servers[k].enabled
      requires i < |servers| == |start| && Rows(servers, serverFailures) == Spliced(start, Restore(start), i)
      modifies servers`autoDown
      ensures Rows(servers, serverFailures) == Spliced(start, Restore(start), i + 1)
      ensures restored <==> start[i].autoDown != Restore(start)[i].autoDown
    {
      restored := false;
      ghost var current := Rows(servers, serverFailures);
      assert servers[i].View(serverFailures) == start[i];
      if servers[i].autoDown && servers[i].lastStatus == Up {
        servers[i].autoDown := false;
        restored := true;
      }
      SplicedStep(start, Restore(start), i, current, Rows(servers, serverFailures));
    }

    /** Second loop: confirmed-down servers leave the rotation while another one is in it. */
    method TakeServersOut(servers: seq<UpstreamServer>) returns (changed: bool)
      requires Distinct(servers) && forall k | 0 <= k < |servers| :: servers[k].enabled
      modifies servers`autoDown
      ensures Rows(servers, serverFailures) == TakeOut(old(Rows(servers, serverFailures)))
      ensures changed == SomeFlagDiffers(old(Rows(servers, serverFailures)), Rows(servers, serverFailures))
    {
      ghost var restored := Rows(servers, serverFailures);
      SplicedAll(restored, TakeOut(restored));
      changed := false;
      for i := 0 to |servers|
        invariant Rows(servers, serverFailures) == Spliced(restored, TakeOut(restored), i)
        invariant changed == DifferUpTo(restored, TakeOut(restored), i)
      {
        var took := TakeServerOut(servers, i, restored);
        changed := changed || took;
      }
    }

    method TakeServerOut(servers: seq<UpstreamServer>, i: nat, ghost restored: seq<Server>) returns (took: bool)
      requires Distinct(servers) && forall k | 0 <= k < |servers| :: servers[k].enabled
      requires i < |servers| == |restored| && Rows(servers, serverFailures) == Spliced(restored, TakeOut(restored), i)
      modifies servers`autoDown
      ensures Rows(servers, serverFailures) == Spliced(restored, TakeOut(restored), i + 1)
      ensures took <==> restored[i].autoDown != TakeOut(restored)[i].autoDown
    {
      took := false;
      ghost var current := Rows(servers, serverFailures);
      assert servers[i].View(serverFailures) == restored[i];
      if servers[i].lastStatus == Down && !servers[i].autoDown && !servers[i].down {
        var others := SomeOtherInRotation(servers, i, restored);
        if others {
          servers[i].autoDown := true;
          took := true;
        }
      }
      SplicedStep(restored, TakeOut(restored), i, current, Rows(servers, serverFailures));
    }

    method SomeOtherInRotation(servers: seq<UpstreamServer>, i: nat, ghost restored: seq<Server>) returns (others: bool)
      requires i < |servers| == |restored| && Rows(servers, serverFailures) == Spliced(restored, TakeOut(restored), i)
      requires Failing(restored[i]) && forall k | 0 <= k < |servers| :: servers[k].enabled
      ensures others <==> HasRelief(restored, i)
    {
      ghost var current := Rows(servers, serverFailures);
      OthersAreRelief(restored, current, i);
      others := exists j | 0 <= j < |servers| :: j != i && !servers[j].down && !servers[j].autoDown;
      assert forall j | 0 <= j < |current| :: current[j].InRotation() <==> !servers[j].down && !servers[j].autoDown;
    }

    /** Applies the probe results of a host's enabled servers and remembers the statuses they had. */
    method CheckServers(servers: seq<UpstreamServer>, answering: set<string>) returns (up: bool)
      requires Distinct(servers)
      modifies this`serverFailures, this`previousStatus, servers`lastStatus
      ensures ResultsApplied(servers, |servers|, answering, old(Rows(servers, serverFailures)))
      ensures up <==> Answered(servers, answering)
      ensures OthersKept(Ids(servers), old(serverFailures), serverFailures, old(previousStatus), previousStatus)
    {
      ghost var start := Rows(servers, serverFailures);
      var answered: nat := 0;
      for i := 0 to |servers|
        invariant ResultsApplied(servers, i, answering, start)
        invariant answered > 0 <==> Answered(servers[..i], answering)
        invariant OthersKept(Ids(servers), old(serverFailures), serverFailures, old(previousStatus), previousStatus)
      {
        label before:
        var n := CheckServer(servers, i, answering, start);
        answered := answered + n;
        OneMoreKept(servers, i, old(serverFailures), old@before(serverFailures), serverFailures,
          old(previousStatus), old@before(previousStatus), previousStatus);
        AnsweredUnfolds(servers, i, answering);
      }
      assert servers[..|servers|] == servers;
      up := answered > 0;
    }

    /** The first `i` servers carry their probe result, and their statuses before it are remembered. */
    ghost predicate ResultsApplied(servers: seq<UpstreamServer>, i: nat, answering: set<string>, start: seq<Server>)
      reads this, servers
    {
      && i <= |servers| == |start|
      && (forall k | 0 <= k < i ::
            && servers[k].View(serverFailures) == ApplyResult(start[k], servers[k].id in answering, true)
            && servers[k].id in previousStatus && previousStatus[servers[k].id] == start[k].lastStatus)
      && (forall k | i <= k < |servers| :: servers[k].View(serverFailures) == start[k])
    }

    /** The body of the result loop; returns 1 when the server keeps the host up. */
    method CheckServer(servers: seq<UpstreamServer>, i: nat, answering: set<string>, ghost start: seq<Server>)
      returns (n: nat)
      requires Distinct(servers) && i < |servers| && ResultsApplied(servers, i, answering, start)
      modifies this`serverFailures, this`previousStatus, servers`lastStatus
      ensures ResultsApplied(servers, i + 1, answering, start)
      ensures OthersKept({servers[i].id}, old(serverFailures), serverFailures, old(previousStatus), previousStatus)
      ensures n == if servers[i].id in answering && !servers[i].down then 1 else 0
    {
      var server := servers[i];
      assert server.View(serverFailures) == start[i];
      previousStatus := previousStatus[server.id := server.lastStatus];
      ApplyServerResult(server, server.id in answering, true);
      n := if server.id in answering && !server.down then 1 else 0;
    }

    ghost function HostView(h: ProxyHost): Host
      reads this`serverFailures, this`consecutiveFailures, h, h.upstreamServers
    {
      Host(h.healthStatus, h.healthCheckedAt, Count(consecutiveFailures, h.id), h.lbAutoDown,
           Rows(h.upstreamServers, serverFailures), h.notes)
    }

    /** The enabled rows of a host, in list order. */
    method EnabledServers(host: ProxyHost) returns (servers: seq<UpstreamServer>, ghost idx: seq<nat>)
      ensures Picked(host.upstreamServers, servers, idx, Rows(host.upstreamServers, serverFailures))
    {
      servers, idx := [], [];
      ghost var all := host.upstreamServers;
      for i := 0 to |host.upstreamServers|
        invariant |idx| == |servers|
        invariant forall k | 0 <= k < |idx| :: idx[k] < i && all[idx[k]].enabled && servers[k] == all[idx[k]]
        invariant forall a, b | 0 <= a < b < |idx| :: idx[a] < idx[b]
        invariant forall k | 0 <= k < i && all[k].enabled :: k in idx
      {
        if host.upstreamServers[i].enabled {
          servers, idx := servers + [host.upstreamServers[i]], idx + [i];
        }
      }
    }

    /** The probing and rotating of the enabled servers `servers`, whose rows were `sub`. */
    method ProbeAndRotateEnabled(on: bool, host: ProxyHost, servers: seq<UpstreamServer>, answering: set<string>,
                                 ghost sub: seq<Server>)
      returns (up: bool, changed: bool)
      requires Distinct(servers) && forall k | 0 <= k < |servers| :: servers[k].enabled
      requires sub == Rows(servers, serverFailures) && on == host.lbAutoDown
      modifies this`serverFailures, this`previousStatus, servers`lastStatus, servers`autoDown
      ensures Rows(servers, serverFailures) == AutoDown(on, Probe(sub, answering, true))
      ensures up <==> exists k | 0 <= k < |sub| :: !sub[k].down && sub[k].id in answering
      ensures changed == ConfigChanged(on, Probe(sub, answering, true))
      ensures Remembers(servers, sub)
      ensures OthersKept(Ids(servers), old(serverFailures), serverFailures, old(previousStatus), previousStatus)
    {
      up := CheckServers(servers, answering);
      assert up <==> exists k | 0 <= k < |sub| :: !sub[k].down && sub[k].id in answering;
      assert Rows(servers, serverFailures) == Probe(sub, answering, true);
      changed := UpdateAutoDown(host, servers);
    }

    /** The server part of CheckOne for a host whose rows were `full`: apply the results, then rotate. */
    method ProbeAndRotate(host: ProxyHost, servers: seq<UpstreamServer>, answering: set<string>,
                          ghost idx: seq<nat>, ghost full: seq<Server>)
      returns (up: bool, changed: bool)
      requires Distinct(host.upstreamServers) && Picked(host.upstreamServers, servers, idx, full)
      requires full == Rows(host.upstreamServers, serverFailures)
      modifies this`serverFailures, this`previousStatus, servers`lastStatus, servers`autoDown
      ensures Rows(host.upstreamServers, serverFailures) == AutoDown(host.lbAutoDown, Probe(full, answering, true))
      ensures up <==> Answering(full, answering)
      ensures changed == ConfigChanged(host.lbAutoDown, Probe(full, answering, true))
      ensures Remembers(servers, old(Rows(servers, serverFailures)))
      ensures OthersKept(Ids(servers), old(serverFailures), serverFailures, old(previousStatus), previousStatus)
    {
      ghost var all := host.upstreamServers;
      ghost var sub := Rows(servers, serverFailures);
      PickedDistinct(all, servers, idx, full);
      RowsPicked(all, servers, idx, full, serverFailures);
      up, changed := ProbeAndRotateEnabled(host.lbAutoDown, host, servers, answering, sub);
      LiftRows(all, servers, idx, full, sub, host.lbAutoDown, answering,
        old(serverFailures), serverFailures, old(previousStatus), previousStatus);
    }

    /** The host part of CheckOne: counter, status, transition and timestamp. */
    method SettleHost(host: ProxyHost, c: Cycle, up: bool, ghost before: Host) returns (transition: Option<Event>)
      requires before.status == host.healthStatus && before.checkedAt == host.healthCheckedAt
      requires before.failures == Count(consecutiveFailures, host.id) && before.notes == host.notes
      requires up == HostUp(before, c)
      modifies this`consecutiveFailures, host`healthStatus, host`healthCheckedAt, host`notes
      ensures var after := CheckHost(before, c);
        && host.healthStatus == after.status && host.healthCheckedAt == after.checkedAt
        && Count(consecutiveFailures, host.id) == after.failures && host.notes == after.notes
      ensures transition == TransitionOf(before, c)
      ensures CountsKept({host.id}, old(consecutiveFailures), consecutiveFailures)
    {
      var previous := host.healthStatus;
      var newStatus: Status;
      if up {
        consecutiveFailures := consecutiveFailures - {host.id};
        newStatus := Up;
      } else {
        var failures := Count(consecutiveFailures, host.id) + 1;
        consecutiveFailures := consecutiveFailures[host.id := failures];
        newStatus := if failures >= FAILURES_BEFORE_DOWN then Down else previous;
      }
      transition := None;
      if newStatus != previous {
        if newStatus == Down {
          transition := Some(WentDown);
          host.notes := host.notes + [HostDown(c.checked)];
        } else if newStatus == Up && previous == Down {
          transition := Some(Recovered);
          var downtime := if host.healthCheckedAt.Some? then Some(c.checked - host.healthCheckedAt.value) else None;
          host.notes := host.notes + [HostBack(c.checked, downtime)];
        }
      }
      host.healthStatus := newStatus;
      if transition != Some(Recovered) {
        host.healthCheckedAt := Some(c.checked);
      }
    }

    /** Checks the servers of one host, whose state was `before`. */
    method CheckRows(host: ProxyHost, c: Cycle, ghost before: Host)
      returns (servers: seq<UpstreamServer>, up: bool, changed: bool, ghost idx: seq<nat>)
      requires Distinct(host.upstreamServers) && before.autoDownOn == host.lbAutoDown
      requires before.servers == Rows(host.upstreamServers, serverFailures)
      modifies this`serverFailures, this`previousStatus
      modifies host.upstreamServers`lastStatus, host.upstreamServers`autoDown
      ensures Rows(host.upstreamServers, serverFailures) == CheckHost(before, c).servers
      ensures up == HostUp(before, c)
      ensures changed == ConfigChanged(before.autoDownOn, Probe(before.servers, c.answering, true))
      ensures Picked(host.upstreamServers, servers, idx, before.servers)
      ensures PreviousKnown(previousStatus, servers, idx, before)
      ensures OthersKept(Ids(host.upstreamServers), old(serverFailures), serverFailures, old(previousStatus), previousStatus)
    {
      servers, idx := EnabledServers(host);
      IdsOfPicked(host.upstreamServers, servers, idx, before.servers);
      RowsPicked(host.upstreamServers, servers, idx, before.servers, serverFailures);
      EnabledLifts(before.servers, Rows(servers, serverFailures), idx);
      up := c.hostAnswers;
      changed := false;
      if servers != [] {
        up, changed := ProbeAndRotate(host, servers, c.answering, idx, before.servers);
      } else {
        NothingEnabled(before.servers, c.answering, before.autoDownOn);
      }
    }

    /** Checks one host, whose state was `before`. */
    method CheckOne(host: ProxyHost, c: Cycle, ghost before: Host)
      returns (servers: seq<UpstreamServer>, transition: Option<Event>, changed: bool, ghost idx: seq<nat>)
      requires Distinct(host.upstreamServers) && before == HostView(host)
      modifies this, host`healthStatus, host`healthCheckedAt, host`notes
      modifies host.upstreamServers`lastStatus, host.upstreamServers`autoDown
      ensures HostView(host) == CheckHost(before, c)
      ensures transition == TransitionOf(before, c)
      ensures changed == ConfigChanged(before.autoDownOn, Probe(before.servers, c.answering, true))
      ensures Picked(host.upstreamServers, servers, idx, before.servers)
      ensures PreviousKnown(previousStatus, servers, idx, before)
      ensures OthersKept(Ids(host.upstreamServers), old(serverFailures), serverFailures, old(previousStatus), previousStatus)
      ensures CountsKept({host.id}, old(consecutiveFailures), consecutiveFailures)
    {
      var up;
      servers, up, changed, idx := CheckRows(host, c, before);
      transition := SettleHost(host, c, up, before);
    }

    /** Plans the alert of one server; returns the history event, if any. */
    method PlanOne(server: UpstreamServer, observed: Option<Status>, c: Context, ghost before: Server)
      returns (item: Option<Item>)
      requires before == server.View(serverFailures)
      modifies server`alertStatus, server`alertDownAt, server`log
      ensures server.View(serverFailures) == PlanServer(before, observed, c)
      ensures (if item.Some? then [item.value] else []) == NewItem(before, server.View(serverFailures))
    {
      item := None;
      if !server.enabled {
        return;
      }
      if server.down {
        server.alertStatus := Never;
        server.log := server.log + [Maintained];
        return;
      }
      match server.lastStatus
      case Unknown =>
      case Down =>
        if server.alertStatus == Never || server.alertStatus == SaidDown {
          return;
        }
        if server.alertStatus == ByHost && c.hostDown {
          return;
        }
        if c.hostDown {
          server.alertStatus := ByHost;
          item := Record(server, c.now, WentDown, Grouped);
          return;
        }
        if server.alertDownAt.Some? && c.now - server.alertDownAt.value < c.window {
          if observed == Some(Up) {
            item := Record(server, c.now, WentDown, Held);
          }
          return;
        }
        server.alertStatus := SaidDown;
        server.alertDownAt := Some(c.now);
        item := Record(server, c.now, WentDown, Sent);
      case Up =>
        if server.alertStatus == Never {
          server.alertStatus := SaidUp;
          server.log := server.log + [SeenUp];
          return;
        }
        if server.alertStatus == SaidUp {
          if observed == Some(Down) {
            item := Record(server, c.now, Recovered, Held);
          }
          return;
        }
        var grouped := server.alertStatus == ByHost && c.recovered;
        server.alertStatus := SaidUp;
        item := Record(server, c.now, Recovered, if grouped then Grouped else Sent);
    }

    method Record(server: UpstreamServer, now: int, event: Event, alert: Alert) returns (item: Option<Item>)
      modifies server`log
      ensures server.log == old(server.log) + [Note(now, event, alert)]
      ensures item == Some(Item(server.id, event, alert))
    {
      server.log := server.log + [Note(now, event, alert)];
      item := Some(Item(server.id, event, alert));
    }

    /** Plans the alerts of a host's servers, whose rows were `before`. */
    method PlanServerAlerts(host: ProxyHost, servers: seq<UpstreamServer>, transition: Option<Event>, now: int, window: int,
                            ghost before: seq<Server>)
      returns (items: seq<Item>)
      requires Distinct(servers) && before == Rows(servers, serverFailures)
      modifies servers`alertStatus, servers`alertDownAt, servers`log
      ensures Rows(servers, serverFailures)
           == PlanLooked(before, previousStatus, PlanContext(host.healthStatus, transition, now, window))
      ensures items == NewItems(before, Rows(servers, serverFailures))
    {
      var c := PlanContext(host.healthStatus, transition, now, window);
      ghost var planned := PlanLooked(before, previousStatus, c);
      ghost var news := News(before, planned);
      SplicedAll(before, planned);
      items := PlanEach(servers, c, before, planned, news);
    }

    method PlanEach(servers: seq<UpstreamServer>, c: Context, ghost before: seq<Server>, ghost planned: seq<Server>,
                    ghost news: seq<seq<Item>>)
      returns (items: seq<Item>)
      requires Distinct(servers) && IsPlan(planned, before, previousStatus, c) && AreNews(news, before, planned)
      requires |before| == |servers| && Rows(servers, serverFailures) == Spliced(before, planned, 0)
      modifies servers`alertStatus, servers`alertDownAt, servers`log
      ensures Rows(servers, serverFailures) == Spliced(before, planned, |servers|) && items == Joined(news, |servers|)
    {
      items := [];
      for i := 0 to |servers|
        invariant Rows(servers, serverFailures) == Spliced(before, planned, i)
        invariant items == Joined(news, i)
      {
        var more := PlanRowAt(servers, i, c, before, planned, news[i]);
        items := items + more;
      }
    }

    method PlanRowAt(servers: seq<UpstreamServer>, i: nat, c: Context, ghost before: seq<Server>, ghost planned: seq<Server>,
                     ghost news: seq<Item>)
      returns (items: seq<Item>)
      requires Distinct(servers) && i < |servers| == |before| && IsPlan(planned, before, previousStatus, c)
      requires Rows(servers, serverFailures) == Spliced(before, planned, i) && news == NewItem(before[i], planned[i])
      modifies servers`alertStatus, servers`alertDownAt, servers`log
      ensures Rows(servers, serverFailures) == Spliced(before, planned, i + 1)
      ensures items == news
    {
      ghost var current := Rows(servers, serverFailures);
      assert servers[i].View(serverFailures) == before[i];
      var observed := Lookup(previousStatus, servers[i].id);
      var item := PlanOne(servers[i], observed, c, before[i]);
      items := if item.Some? then [item.value] else [];
      SplicedStep(before, planned, i, current, Rows(servers, serverFailures));
    }

    /** The planning of the servers of one host of a cycle, whose rows are `checked`. */
    method PlanRows(host: ProxyHost, outcome: Outcome, ghost c: Context, now: int, window: int,
                    ghost before: Host, ghost idx: seq<nat>, ghost checked: seq<Server>)
      returns (items: seq<Item>)
      requires Distinct(host.upstreamServers) && checked == Rows(host.upstreamServers, serverFailures)
      requires Picked(host.upstreamServers, outcome.servers, idx, before.servers)
      requires forall i | 0 <= i < |checked| :: checked[i].enabled == before.servers[i].enabled
      requires PreviousKnown(previousStatus, outcome.servers, idx, before)
      requires c == PlanContext(host.healthStatus, outcome.transition, now, window)
      modifies host.upstreamServers`alertStatus, host.upstreamServers`alertDownAt, host.upstreamServers`log
      ensures Rows(host.upstreamServers, serverFailures) == Plan(checked, Statuses(before.servers), c)
      ensures items == NewItems(checked, Plan(checked, Statuses(before.servers), c))
    {
      PickedDistinct(host.upstreamServers, outcome.servers, idx, before.servers);
      RowsPicked(host.upstreamServers, outcome.servers, idx, before.servers, serverFailures);
      DisabledNotPicked(host.upstreamServers, outcome.servers, idx, before.servers);
      ghost var sub := Rows(outcome.servers, serverFailures);
      items := PlanServerAlerts(host, outcome.servers, outcome.transition, now, window, sub);
      PlanLifts(host.upstreamServers, outcome.servers, idx, before, checked, sub, serverFailures, previousStatus, c);
      NewItemsLift(checked, Plan(checked, Statuses(before.servers), c), sub, Rows(outcome.servers, serverFailures), idx);
    }

    /** The planning of one host of a cycle, right after the host was checked. */
    method PlanHost(host: ProxyHost, outcome: Outcome, c: Cycle, ghost before: Host, ghost idx: seq<nat>)
      returns (items: seq<Item>)
      requires Distinct(host.upstreamServers) && HostView(host) == CheckHost(before, c)
      requires Picked(host.upstreamServers, outcome.servers, idx, before.servers)
      requires outcome.transition == TransitionOf(before, c) && PreviousKnown(previousStatus, outcome.servers, idx, before)
      modifies host.upstreamServers`alertStatus, host.upstreamServers`alertDownAt, host.upstreamServers`log
      ensures HostView(host) == RunCycle(before, c)
      ensures items == NewItems(CheckHost(before, c).servers, RunCycle(before, c).servers)
    {
      ghost var checked := CheckHost(before, c).servers;
      ghost var context := ContextOf(before, c);
      items := PlanRows(host, outcome, context, c.now, c.window, before, idx, checked);
    }

    /** The editor's "Check now": raw results, no debouncing, no alerts. */
    method CheckUpstreamServersNow(host: ProxyHost, answering: set<string>)
      requires Distinct(host.upstreamServers)
      modifies this`serverFailures, host.upstreamServers`lastStatus
      ensures HostView(host) == Next(old(HostView(host)), CheckNow(answering))
    {
      ghost var start := Rows(host.upstreamServers, serverFailures);
      for i := 0 to |host.upstreamServers|
        invariant forall k | 0 <= k < i ::
            host.upstreamServers[k].View(serverFailures) == ProbeServer(start[k], answering, false)
        invariant forall k | i <= k < |host.upstreamServers| ::
            host.upstreamServers[k].View(serverFailures) == start[k]
      {
        var server := host.upstreamServers[i];
        assert server.View(serverFailures) == start[i];
        if server.enabled {
          ApplyServerResult(server, server.id in answering, false);
        }
      }
      assert Rows(host.upstreamServers, serverFailures) == Probe(start, answering, false);
    }

    /** The statuses the servers had before the probe are remembered. */
    ghost predicate Remembers(servers: seq<UpstreamServer>, before: seq<Server>)
      requires |servers| == |before|
      reads this
    {
      forall k | 0 <= k < |servers| ::
        servers[k].id in previousStatus && previousStatus[servers[k].id] == before[k].lastStatus
    }
  }

  /** The statuses before the probe are remembered for the picked servers. */
  ghost predicate PreviousKnown(previous: map<string, Status>, servers: seq<UpstreamServer>, idx: seq<nat>, before: Host) {
    && |idx| == |servers|
    && forall k | 0 <= k < |servers| ::
         && idx[k] < |before.servers| && servers[k].id in previous
         && previous[servers[k].id] == before.servers[idx[k]].lastStatus
  }

  /** What checking a host hands to the planning pass. */
  datatype Outcome = Outcome(servers: seq<UpstreamServer>, transition: Option<Event>)

  /** `some` is the sublist of the enabled servers of `all`, whose rows are (or were) `rows`; `idx`
      gives their positions. */
  ghost predicate Picked(all: seq<UpstreamServer>, some: seq<UpstreamServer>, idx: seq<nat>, rows: seq<Server>) {
    && |rows| == |all| && |idx| == |some|
    && (forall k | 0 <= k < |idx| :: idx[k] < |all| && some[k] == all[idx[k]] && rows[idx[k]].enabled)
    && (forall a, b | 0 <= a < b < |idx| :: idx[a] < idx[b])
    && (forall i | 0 <= i < |rows| && rows[i].enabled :: i in idx)
  }

  /** The same for the values of the rows. */
  ghost predicate PickedRows(full: seq<Server>, sub: seq<Server>, idx: seq<nat>) {
    && |idx| == |sub|
    && (forall k | 0 <= k < |idx| :: idx[k] < |full| && sub[k] == full[idx[k]] && sub[k].enabled)
    && (forall a, b | 0 <= a < b < |idx| :: idx[a] < idx[b])
    && (forall i | 0 <= i < |full| && full[i].enabled :: i in idx)
  }

  lemma {:induction false} PickedDistinct(all: seq<UpstreamServer>, some: seq<UpstreamServer>, idx: seq<nat>,
                                          rows: seq<Server>)
    requires Distinct(all) && Picked(all, some, idx, rows)
    ensures Distinct(some)
  {
  }

  lemma {:induction false} UnpickedKept(all: seq<UpstreamServer>, some: seq<UpstreamServer>, idx: seq<nat>,
                                        rows: seq<Server>, c: map<string, nat>, c': map<string, nat>,
                                        p: map<string, Status>, p': map<string, Status>)
    requires Distinct(all) && Picked(all, some, idx, rows) && OthersKept(Ids(some), c, c', p, p')
    ensures forall i | 0 <= i < |all| && !rows[i].enabled :: Count(c', all[i].id) == Count(c, all[i].id)
  {
    forall i | 0 <= i < |all| && !rows[i].enabled
      ensures Count(c', all[i].id) == Count(c, all[i].id)
    {
      assert all[i].id !in Ids(some);
    }
  }

  /** Two lists that agree on the picked positions and on the disabled ones are equal. */
  lemma {:induction false} SameWhenPickedSame(a: seq<Server>, b: seq<Server>, full: seq<Server>, sub: seq<Server>,
                                              idx: seq<nat>)
    requires PickedRows(full, sub, idx) && |a| == |b| == |full|
    requires forall k | 0 <= k < |idx| :: a[idx[k]] == b[idx[k]]
    requires forall i | 0 <= i < |full| && !full[i].enabled :: a[i] == b[i]
    ensures a == b
  {
    forall i | 0 <= i < |full| ensures a[i] == b[i] {
      if full[i].enabled {
        var k :| 0 <= k < |idx| && idx[k] == i;
      }
    }
  }

  lemma {:induction false} RowsPicked(all: seq<UpstreamServer>, some: seq<UpstreamServer>, idx: seq<nat>,
                                      rows: seq<Server>, m: map<string, nat>)
    requires Picked(all, some, idx, rows) && forall i | 0 <= i < |all| :: all[i].enabled == rows[i].enabled
    ensures PickedRows(Rows(all, m), Rows(some, m), idx)
  {
  }

  /** What happened to the enabled rows `some` is what should happen to the whole list `all`, whose
      rows were `full`. */
  lemma {:induction false} LiftRows(all: seq<UpstreamServer>, some: seq<UpstreamServer>, idx: seq<nat>,
                                    full: seq<Server>, sub: seq<Server>, on: bool, answering: set<string>,
                                    c: map<string, nat>, c': map<string, nat>, p: map<string, Status>,
                                    p': map<string, Status>)
    requires Distinct(all) && Picked(all, some, idx, full) && OthersKept(Ids(some), c, c', p, p')
    requires PickedRows(full, sub, idx) && |full| == |all|
    requires forall i | 0 <= i < |all| && !all[i].enabled :: all[i].View(c) == full[i]
    requires forall i | 0 <= i < |all| :: all[i].enabled == full[i].enabled
    requires Rows(some, c') == AutoDown(on, Probe(sub, answering, true))
    ensures Rows(all, c') == AutoDown(on, Probe(full, answering, true))
    ensures ConfigChanged(on, Probe(full, answering, true)) <==> ConfigChanged(on, Probe(sub, answering, true))
    ensures Answering(full, answering) <==> exists k | 0 <= k < |sub| :: !sub[k].down && sub[k].id in answering
  {
    RowsPicked(all, some, idx, full, c');
    UnpickedKept(all, some, idx, full, c, c', p, p');
    ProbeAndRotateLifts(full, sub, Rows(all, c'), Rows(some, c'), idx, on, answering);
  }

  function TransitionOf(h: Host, c: Cycle): Option<Event> {
    if GoesDown(h, c) then Some(WentDown) else if ComesBack(h, c) then Some(Recovered) else None
  }

  /** With no server enabled, probing and rotating change nothing. */
  lemma {:induction false} NothingEnabled(rows: seq<Server>, answering: set<string>, on: bool)
    requires !HasServers(rows)
    ensures AutoDown(on, Probe(rows, answering, true)) == rows
    ensures !ConfigChanged(on, Probe(rows, answering, true))
  {
    assert forall i | 0 <= i < |rows| :: !rows[i].enabled;
    assert Probe(rows, answering, true) == rows;
    assert Restore(rows) == rows;
    assert TakeOut(rows) == rows;
  }

  /** Planning the enabled rows `some` is planning the whole list `all`. */
  lemma {:induction false} PlanLifts(all: seq<UpstreamServer>, some: seq<UpstreamServer>, idx: seq<nat>, before: Host,
                                     checked: seq<Server>, sub: seq<Server>, m: map<string, nat>,
                                     previous: map<string, Status>, c: Context)
    requires Picked(all, some, idx, before.servers) && PreviousKnown(previous, some, idx, before)
    requires PickedRows(checked, sub, idx) && |checked| == |all|
    requires forall i | 0 <= i < |all| :: checked[i].enabled == before.servers[i].enabled
    requires forall k | 0 <= k < |some| :: some[k].View(m) == PlanServer(sub[k], Lookup(previous, some[k].id), c)
    requires forall i | 0 <= i < |all| && !checked[i].enabled :: all[i].View(m) == checked[i]
    ensures Rows(all, m) == Plan(checked, Statuses(before.servers), c)
  {
    var planned := Plan(checked, Statuses(before.servers), c);
    var rows := Rows(all, m);
    forall k | 0 <= k < |idx| ensures rows[idx[k]] == planned[idx[k]] {
      assert some[k] == all[idx[k]];
    }
    SameWhenPickedSame(rows, planned, checked, sub, idx);
  }

  lemma {:induction false} JoinedLifts(full: seq<seq<Item>>, sub: seq<seq<Item>>, idx: seq<nat>, n: nat, k: nat)
    requires |idx| == |sub| && n <= |full| && k <= |idx|
    requires forall m | 0 <= m < |idx| :: idx[m] < |full| && sub[m] == full[idx[m]]
    requires forall i | 0 <= i < |full| && i !in idx :: full[i] == []
    requires forall a, b | 0 <= a < b < |idx| :: idx[a] < idx[b]
    requires (forall m | 0 <= m < k :: idx[m] < n) && (forall m | k <= m < |idx| :: n <= idx[m])
    ensures Joined(full, n) == Joined(sub, k)
  {
    if n > 0 {
      if k > 0 && idx[k - 1] == n - 1 {
        JoinedLifts(full, sub, idx, n - 1, k - 1);
      } else {
        NotPicked(idx, n - 1, k);
        JoinedLifts(full, sub, idx, n - 1, k);
      }
    }
  }

  lemma {:induction false} NotPicked(idx: seq<nat>, i: nat, k: nat)
    requires k <= |idx| && (k > 0 ==> idx[k - 1] != i)
    requires forall a, b | 0 <= a < b < |idx| :: idx[a] < idx[b]
    requires (forall m | 0 <= m < k :: idx[m] <= i) && (forall m | k <= m < |idx| :: i < idx[m])
    ensures i !in idx
  {
    forall m | 0 <= m < |idx| ensures idx[m] != i {
      if m < k - 1 { assert idx[m] < idx[k - 1]; }
    }
  }

  /** The events of the enabled rows are those of the whole list. */
  lemma {:induction false} NewItemsLift(full: seq<Server>, full': seq<Server>, sub: seq<Server>, sub': seq<Server>,
                                        idx: seq<nat>)
    requires PickedRows(full, sub, idx) && |full'| == |full| && |sub'| == |sub|
    requires forall m | 0 <= m < |idx| :: sub'[m] == full'[idx[m]]
    requires forall i | 0 <= i < |full| && !full[i].enabled :: full'[i] == full[i]
    ensures NewItems(full, full') == NewItems(sub, sub')
  {
    var all, some := News(full, full'), News(sub, sub');
    forall i | 0 <= i < |full| && i !in idx ensures all[i] == [] {
      assert !full[i].enabled;
    }
    JoinedLifts(all, some, idx, |full|, |idx|);
  }

  lemma {:induction false} DisabledNotPicked(all: seq<UpstreamServer>, some: seq<UpstreamServer>, idx: seq<nat>,
                                             rows: seq<Server>)
    requires Distinct(all) && Picked(all, some, idx, rows)
    ensures forall i | 0 <= i < |all| && !rows[i].enabled :: all[i] !in some
  {
  }

  lemma {:induction false} IdsOfPicked(all: seq<UpstreamServer>, some: seq<UpstreamServer>, idx: seq<nat>,
                                       rows: seq<Server>)
    requires Picked(all, some, idx, rows)
    ensures Ids(some) <= Ids(all)
  {
  }

  lemma {:induction false} ReliefLifts(full: seq<Server>, sub: seq<Server>, idx: seq<nat>, k: nat)
    requires PickedRows(full, sub, idx) && k < |sub|
    ensures HasRelief(full, idx[k]) <==> HasRelief(sub, k)
  {
    if HasRelief(full, idx[k]) {
      var j :| 0 <= j < |full| && j != idx[k] && full[j].InRotation() && (full[j].lastStatus != Down || idx[k] < j);
      var m :| 0 <= m < |idx| && idx[m] == j;
      assert sub[m].InRotation() && (sub[m].lastStatus != Down || k < m);
    }
    if HasRelief(sub, k) {
      var m :| 0 <= m < |sub| && m != k && sub[m].InRotation() && (sub[m].lastStatus != Down || k < m);
      assert full[idx[m]].InRotation();
    }
  }

  lemma {:induction false} RestoreLifts(full: seq<Server>, sub: seq<Server>, idx: seq<nat>)
    requires PickedRows(full, sub, idx)
    ensures PickedRows(Restore(full), Restore(sub), idx)
  {
  }

  lemma {:induction false} RotationLifts(full: seq<Server>, sub: seq<Server>, idx: seq<nat>, on: bool)
    requires PickedRows(full, sub, idx)
    ensures forall k | 0 <= k < |idx| :: AutoDown(on, full)[idx[k]] == AutoDown(on, sub)[k]
    ensures forall i | 0 <= i < |full| && !full[i].enabled :: AutoDown(on, full)[i] == full[i]
  {
    RestoreLifts(full, sub, idx);
    forall k | 0 <= k < |idx| ensures AutoDown(on, full)[idx[k]] == AutoDown(on, sub)[k] {
      ReliefLifts(Restore(full), Restore(sub), idx, k);
    }
  }

  /** Flags that differ on the whole list do so on the sublist, when only rows of the sublist change. */
  lemma {:induction false} ChangeLifts(full: seq<Server>, full': seq<Server>, sub: seq<Server>, sub': seq<Server>,
                                       idx: seq<nat>)
    requires PickedRows(full, sub, idx) && |full'| == |full| && |sub'| == |sub|
    requires forall k | 0 <= k < |idx| :: full'[idx[k]] == sub'[k]
    requires forall i | 0 <= i < |full| && !full[i].enabled :: full'[i] == full[i]
    ensures FlagsDiffer(full, full') <==> FlagsDiffer(sub, sub')
  {
    if FlagsDiffer(full, full') {
      var i :| 0 <= i < |full| && full[i].autoDown != full'[i].autoDown;
      var k :| 0 <= k < |idx| && idx[k] == i;
      assert sub[k].autoDown != sub'[k].autoDown;
    }
    if FlagsDiffer(sub, sub') {
      var k :| 0 <= k < |sub| && sub[k].autoDown != sub'[k].autoDown;
      assert full[idx[k]].autoDown != full'[idx[k]].autoDown;
    }
  }

  /** Rotating the enabled sublist is rotating the whole list. */
  lemma {:induction false} AutoDownLifts(full: seq<Server>, sub: seq<Server>, idx: seq<nat>, on: bool)
    requires PickedRows(full, sub, idx)
    ensures forall k | 0 <= k < |idx| :: AutoDown(on, full)[idx[k]] == AutoDown(on, sub)[k]
    ensures forall i | 0 <= i < |full| && !full[i].enabled :: AutoDown(on, full)[i] == full[i]
    ensures ConfigChanged(on, full) <==> ConfigChanged(on, sub)
  {
    RotationLifts(full, sub, idx, on);
    ChangeLifts(full, AutoDown(on, full), sub, AutoDown(on, sub), idx);
  }

  lemma {:induction false} ProbeAndRotateLifts(full: seq<Server>, sub: seq<Server>, full': seq<Server>,
                                               sub': seq<Server>, idx: seq<nat>, on: bool, answering: set<string>)
    requires PickedRows(full, sub, idx) && PickedRows(full', sub', idx) && |full'| == |full|
    requires sub' == AutoDown(on, Probe(sub, answering, true))
    requires forall i | 0 <= i < |full| && !full[i].enabled :: full'[i] == full[i]
    ensures full' == AutoDown(on, Probe(full, answering, true))
    ensures ConfigChanged(on, Probe(full, answering, true)) <==> ConfigChanged(on, Probe(sub, answering, true))
    ensures Answering(full, answering) <==> exists k | 0 <= k < |sub| :: !sub[k].down && sub[k].id in answering
  {
    AnsweringLifts(full, sub, idx, answering);
    ProbeLifts(full, sub, idx, answering);
    AutoDownLifts(Probe(full, answering, true), Probe(sub, answering, true), idx, on);
    SameWhenPickedSame(full', AutoDown(on, Probe(full, answering, true)), full, sub, idx);
  }

  lemma {:induction false} AnsweringLifts(full: seq<Server>, sub: seq<Server>, idx: seq<nat>, answering: set<string>)
    requires PickedRows(full, sub, idx)
    ensures Answering(full, answering) <==> exists k | 0 <= k < |sub| :: !sub[k].down && sub[k].id in answering
  {
    if i :| 0 <= i < |full| && full[i].InService() && full[i].id in answering {
      var k :| 0 <= k < |idx| && idx[k] == i;
      assert !sub[k].down && sub[k].id in answering;
    }
    if k :| 0 <= k < |sub| && !sub[k].down && sub[k].id in answering {
      assert full[idx[k]].InService();
    }
  }

  lemma {:induction false} EnabledLifts(full: seq<Server>, sub: seq<Server>, idx: seq<nat>)
    requires PickedRows(full, sub, idx)
    ensures HasServers(full) <==> sub != []
  {
    if sub != [] { assert full[idx[0]].enabled; }
  }

  lemma {:induction false} ProbeLifts(full: seq<Server>, sub: seq<Server>, idx: seq<nat>, answering: set<string>)
    requires PickedRows(full, sub, idx)
    ensures PickedRows(Probe(full, answering, true), Probe(sub, answering, true), idx)
  {
  }

  lemma {:induction false} OneMoreKept(servers: seq<UpstreamServer>, i: nat, c0: map<string, nat>,
                                       c1: map<string, nat>, c2: map<string, nat>, p0: map<string, Status>,
                                       p1: map<string, Status>, p2: map<string, Status>)
    requires i < |servers| && OthersKept(Ids(servers), c0, c1, p0, p1) && OthersKept({servers[i].id}, c1, c2, p1, p2)
    ensures OthersKept(Ids(servers), c0, c2, p0, p2)
  {
    assert servers[i] in servers;
  }

  predicate FlagsDiffer(before: seq<Server>, after: seq<Server>)
    requires |before| == |after|
  {
    exists k | 0 <= k < |before| :: before[k].autoDown != after[k].autoDown
  }

  lemma {:induction false} FlagsChange(start: seq<Server>)
    ensures ConfigChanged(true, start) <==>
            FlagsDiffer(start, Restore(start)) || FlagsDiffer(Restore(start), TakeOut(Restore(start)))
  {
    var restored := Restore(start);
    var after := AutoDown(true, start);
    forall k | 0 <= k < |start|
      ensures after[k].autoDown != start[k].autoDown <==>
              (restored[k].autoDown != start[k].autoDown || after[k].autoDown != restored[k].autoDown)
    {
    }
  }

  predicate Answered(servers: seq<UpstreamServer>, answering: set<string>)
    reads servers
  {
    exists k | 0 <= k < |servers| :: !servers[k].down && servers[k].id in answering
  }

  lemma {:induction false} AnsweredUnfolds(servers: seq<UpstreamServer>, i: nat, answering: set<string>)
    requires i < |servers|
    ensures Answered(servers[..i + 1], answering) <==>
            Answered(servers[..i], answering) || (!servers[i].down && servers[i].id in answering)
  {
    var longer, shorter := servers[..i + 1], servers[..i];
    assert longer[i] == servers[i];
    assert forall k | 0 <= k < i :: longer[k] == shorter[k];
  }

  predicate SomeFlagDiffers(before: seq<Server>, after: seq<Server>)
    requires |before| == |after|
  {
    DifferUpTo(before, after, |before|)
  }

  /** Some of the first `n` flags differ. */
  predicate DifferUpTo(before: seq<Server>, after: seq<Server>, n: nat)
    requires n <= |before| == |after|
  {
    n > 0 && (DifferUpTo(before, after, n - 1) || before[n - 1].autoDown != after[n - 1].autoDown)
  }

  lemma {:induction false} DifferUpToAll(before: seq<Server>, after: seq<Server>, n: nat)
    requires n <= |before| == |after|
    ensures DifferUpTo(before, after, n) <==> exists k | 0 <= k < n :: before[k].autoDown != after[k].autoDown
  {
    if n > 0 {
      DifferUpToAll(before, after, n - 1);
    }
  }

  function Ids(servers: seq<UpstreamServer>): set<string> {
    set s | s in servers :: s.id
  }

  /** The maps are unchanged outside `ids`. */
  ghost predicate OthersKept(ids: set<string>, counts: map<string, nat>, counts': map<string, nat>,
                             previous: map<string, Status>, previous': map<string, Status>) {
    CountsKept(ids, counts, counts') && PreviousKept(ids, previous, previous')
  }

  ghost predicate PreviousKept(ids: set<string>, previous: map<string, Status>, previous': map<string, Status>) {
    forall id | id !in ids ::
      (id in previous' <==> id in previous) && (id in previous ==> previous'[id] == previous[id])
  }

  ghost predicate CountsKept(ids: set<string>, counts: map<string, nat>, counts': map<string, nat>) {
    forall id {:trigger Count(counts', id)} | id !in ids :: Count(counts', id) == Count(counts, id)
  }
}
