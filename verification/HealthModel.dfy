/** The upstream health and alert state machine, as values.

    A `Host` is one monitored proxy host: the persisted row, the in-process failure
    counter kept for it, and its upstream servers in list order. A `Server` joins the
    persisted row of an upstream server with its own in-process failure counter and with
    the history of what the health loop recorded about it.
 */
module HealthModel {
  import opened Wrappers

  const FAILURES_BEFORE_DOWN: nat := 2

  datatype Status = Unknown | Up | Down

  /** What the per-server alerts last announced; `Never` is the NULL of the column. */
  datatype Announced = Never | SaidUp | SaidDown | ByHost

  datatype Event = WentDown | Recovered
  datatype Alert = Sent | Held | Grouped

  /** One line of a server's history. `Note` is an event row; the other two mark the
      silent transitions of the announced state: the baseline sighting and a cycle that
      found the server in maintenance. */
  datatype Entry = Note(at: int, event: Event, alert: Alert) | SeenUp | Maintained
  {
    predicate IsNote(e: Event, a: Alert) { Note? && event == e && alert == a }
    predicate Opens() { Note? && event == WentDown && alert != Held }
    predicate Closes() { Note? && event == Recovered && alert != Held }
  }

  datatype Address = Address(host: string, port: nat)

  datatype Server = Server(
    id: string,
    address: Address,
    enabled: bool,
    down: bool,
    autoDown: bool,
    lastStatus: Status,
    alertStatus: Announced,
    alertDownAt: Option<int>,
    failures: nat,
    log: seq<Entry>)
  {
    /** Takes part in "is the host up?": enabled and not in maintenance. */
    predicate InService() { enabled && !down }

    predicate InRotation() { enabled && !down && !autoDown }

    function Logged(e: Entry): Server { this.(log := log + [e]) }
  }

  datatype HostNote = HostDown(at: int) | HostBack(at: int, downtime: Option<int>)

  datatype Host = Host(
    status: Status,
    checkedAt: Option<int>,
    failures: nat,
    autoDownOn: bool,
    servers: seq<Server>,
    notes: seq<HostNote>)

  /** One pass of the health loop over one host: `checked` is the clock when the host's own
      transition is decided, `now` the (later) clock of the alert planning. `answering` holds
      the ids of the servers whose probe succeeded; `hostAnswers` is the plain probe used
      when no server is enabled. */
  datatype Cycle = Cycle(checked: int, now: int, window: int, answering: set<string>, hostAnswers: bool)

  // ---------------------------------------------------------------------------
  // Probe results
  // ---------------------------------------------------------------------------

  function ApplyResult(s: Server, ok: bool, debounce: bool): Server {
    if ok then
      s.(failures := 0, lastStatus := Up)
    else
      s.(failures := s.failures + 1,
      lastStatus := if !debounce || s.failures + 1 >= FAILURES_BEFORE_DOWN || s.lastStatus == Unknown
                    then Down else s.lastStatus)
  }

  function ProbeServer(s: Server, answering: set<string>, debounce: bool): Server {
    if s.enabled then ApplyResult(s, s.id in answering, debounce) else s
  }

  function Probe(rows: seq<Server>, answering: set<string>, debounce: bool): (r: seq<Server>)
    ensures |r| == |rows|
  {
    seq(|rows|, i requires 0 <= i < |rows| => ProbeServer(rows[i], answering, debounce))
  }

  // ---------------------------------------------------------------------------
  // Automatic rotation
  // ---------------------------------------------------------------------------

  function RestoreServer(s: Server): Server {
    if s.enabled && s.autoDown && s.lastStatus == Up then s.(autoDown := false) else s
  }

  function Restore(rows: seq<Server>): (r: seq<Server>)
    ensures |r| == |rows|
  {
    seq(|rows|, i requires 0 <= i < |rows| => RestoreServer(rows[i]))
  }

  /** In rotation although confirmed down. */
  predicate Failing(s: Server) { s.InRotation() && s.lastStatus == Down }

  /** Something else can take the traffic: a server in rotation that is not confirmed down,
      or a failing one that comes later in the list. */
  predicate HasRelief(rows: seq<Server>, i: nat) {
    exists j | 0 <= j < |rows| :: j != i && rows[j].InRotation() && (rows[j].lastStatus != Down || i < j)
  }

  function TakeOut(rows: seq<Server>): (r: seq<Server>)
    ensures |r| == |rows|
  {
    seq(|rows|, i requires 0 <= i < |rows| =>
      if Failing(rows[i]) && HasRelief(rows, i) then rows[i].(autoDown := true) else rows[i])
  }

  function AutoDown(on: bool, rows: seq<Server>): (r: seq<Server>)
    ensures |r| == |rows|
  {
    if on then
      TakeOut(Restore(rows))
    else
      seq(|rows|, i requires 0 <= i < |rows| =>
        if rows[i].enabled then rows[i].(autoDown := false) else rows[i])
  }

  /** What the loop reports as "the rendered config changes". */
  predicate ConfigChanged(on: bool, rows: seq<Server>) {
    on && exists i | 0 <= i < |rows| :: AutoDown(on, rows)[i].autoDown != rows[i].autoDown
  }

  // ---------------------------------------------------------------------------
  // The host's own transition
  // ---------------------------------------------------------------------------

  predicate HasServers(rows: seq<Server>) {
    exists i | 0 <= i < |rows| :: rows[i].enabled
  }

  predicate Answering(rows: seq<Server>, answering: set<string>) {
    exists i | 0 <= i < |rows| :: rows[i].InService() && rows[i].id in answering
  }

  predicate HostUp(h: Host, c: Cycle) {
    if HasServers(h.servers) then Answering(h.servers, c.answering) else c.hostAnswers
  }

  function NewStatus(h: Host, c: Cycle): Status {
    if HostUp(h, c) then Up
    else if h.failures + 1 >= FAILURES_BEFORE_DOWN then Down
    else h.status
  }

  predicate GoesDown(h: Host, c: Cycle) { h.status != Down && NewStatus(h, c) == Down }

  predicate ComesBack(h: Host, c: Cycle) { h.status == Down && NewStatus(h, c) == Up }

  function CheckHost(h: Host, c: Cycle): Host {
    h.(
      status := NewStatus(h, c),
      failures := if HostUp(h, c) then 0 else h.failures + 1,
      checkedAt := if ComesBack(h, c) then h.checkedAt else Some(c.checked),
      servers := AutoDown(h.autoDownOn, Probe(h.servers, c.answering, true)),
      notes := h.notes + HostNews(h, c))
  }

  function HostNews(h: Host, c: Cycle): seq<HostNote> {
    if GoesDown(h, c) then [HostDown(c.checked)]
    else if ComesBack(h, c) then
      [HostBack(c.checked, if h.checkedAt.Some? then Some(c.checked - h.checkedAt.value) else None)]
    else []
  }

  // ---------------------------------------------------------------------------
  // Per-server alert planning
  // ---------------------------------------------------------------------------

  datatype Context = Context(hostDown: bool, recovered: bool, now: int, window: int)

  function PlanDown(s: Server, observed: Option<Status>, c: Context): Server {
    if s.alertStatus == Never || s.alertStatus == SaidDown || (s.alertStatus == ByHost && c.hostDown) then
      s
    else if c.hostDown then
      s.(alertStatus := ByHost).Logged(Note(c.now, WentDown, Grouped))
    else if s.alertDownAt.Some? && c.now - s.alertDownAt.value < c.window then
      if observed == Some(Up) then s.Logged(Note(c.now, WentDown, Held)) else s
    else
      s.(alertStatus := SaidDown, alertDownAt := Some(c.now)).Logged(Note(c.now, WentDown, Sent))
  }

  function PlanUp(s: Server, observed: Option<Status>, c: Context): Server {
    match s.alertStatus
    case Never => s.(alertStatus := SaidUp).Logged(SeenUp)
    case SaidUp => if observed == Some(Down) then s.Logged(Note(c.now, Recovered, Held)) else s
    case _ =>
      var alert := if s.alertStatus == ByHost && c.recovered then Grouped else Sent;
      s.(alertStatus := SaidUp).Logged(Note(c.now, Recovered, alert))
  }

  function PlanServer(s: Server, observed: Option<Status>, c: Context): Server {
    if !s.enabled then s
    else if s.down then s.(alertStatus := Never).Logged(Maintained)
    else
      match s.lastStatus
      case Unknown => s
      case Down => PlanDown(s, observed, c)
      case Up => PlanUp(s, observed, c)
  }

  function Plan(rows: seq<Server>, observed: seq<Option<Status>>, c: Context): (r: seq<Server>)
    requires |observed| == |rows|
    ensures |r| == |rows|
  {
    seq(|rows|, i requires 0 <= i < |rows| => PlanServer(rows[i], observed[i], c))
  }

  function Statuses(rows: seq<Server>): (r: seq<Option<Status>>)
    ensures |r| == |rows|
  {
    seq(|rows|, i requires 0 <= i < |rows| => Some(rows[i].lastStatus))
  }

  function ContextOf(h: Host, c: Cycle): Context {
    Context(NewStatus(h, c) == Down, ComesBack(h, c), c.now, c.window)
  }

  /** A whole pass of the health loop over one host. */
  function RunCycle(h: Host, c: Cycle): Host {
    var checked := CheckHost(h, c);
    checked.(servers := Plan(checked.servers, Statuses(h.servers), ContextOf(h, c)))
  }

  // ---------------------------------------------------------------------------
  // Everything else that can happen to a host
  // ---------------------------------------------------------------------------

  /** A server in a save request; `newId` is the id a new row would get. */
  datatype Upsert = Upsert(id: Option<string>, newId: string, address: Address, enabled: bool, down: bool)

  function NewServer(u: Upsert): Server {
    Server(u.newId, u.address, u.enabled, u.down, false, Unknown, Never, None, 0, [])
  }

  /** A saved row keeps its health and its announced state, except that moving it to another
      address forgets the probe history and the automatic flag. */
  function Edited(s: Server, u: Upsert): Server {
    var t := if s.address == u.address then s else s.(lastStatus := Unknown, autoDown := false);
    t.(address := u.address, enabled := u.enabled, down := u.down)
  }

  function IndexOf(pool: seq<Server>, id: string): (i: nat)
    ensures i <= |pool|
    ensures i < |pool| ==> pool[i].id == id
  {
    if pool == [] then 0
    else if pool[0].id == id then 0
    else 1 + IndexOf(pool[1..], id)
  }

  function SaveServers(pool: seq<Server>, items: seq<Upsert>): seq<Server> {
    if items == [] then []
    else
      var u := items[0];
      var i := if u.id.Some? then IndexOf(pool, u.id.value) else |pool|;
      if i < |pool| then
        [Edited(pool[i], u)] + SaveServers(pool[..i] + pool[i + 1..], items[1..])
      else
        [NewServer(u)] + SaveServers(pool, items[1..])
  }

  function Forget(rows: seq<Server>): (r: seq<Server>)
    ensures |r| == |rows|
  {
    seq(|rows|, i requires 0 <= i < |rows| => rows[i].(failures := 0))
  }

  datatype Step =
    | Check(cycle: Cycle)
    | Restart
    | CheckNow(answering: set<string>)
    | Save(items: seq<Upsert>)
    | SetAutoDown(on: bool)

  function Next(h: Host, s: Step): Host {
    match s
    case Check(c) => RunCycle(h, c)
    case Restart => h.(failures := 0, servers := Forget(h.servers))
    case CheckNow(answering) => h.(servers := Probe(h.servers, answering, false))
    case Save(items) => h.(servers := SaveServers(h.servers, items))
    case SetAutoDown(on) => h.(autoDownOn := on)
  }

  /** The state after every step of a run; the last step is the last element. */
  function Run(h: Host, steps: seq<Step>): Host {
    if steps == [] then h else Next(Run(h, steps[..|steps| - 1]), steps[|steps| - 1])
  }

  /** A host as it is created: nothing checked, nothing announced. */
  predicate Fresh(h: Host) {
    && h.status == Unknown && h.checkedAt == None && h.failures == 0 && h.notes == []
    && forall i | 0 <= i < |h.servers| ::
         var s := h.servers[i];
         s.lastStatus == Unknown && s.alertStatus == Never && s.alertDownAt == None && s.failures == 0 && s.log == []
  }
}
