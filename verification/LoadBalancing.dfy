/** The rules a host's upstream group has to keep, and how its servers are printed. */
module LoadBalancing {
  import opened Wrappers
  import Text

  datatype LbMethod = RoundRobin | LeastConn | IpHash | HashUri | RandomTwo

  datatype Server = Server(host: string, port: nat, enabled: bool, backup: bool, down: bool)

  datatype Error = UnknownMethod(name: string) | NoPrimary | BackupWith(lbMethod: LbMethod) | Repeated(address: string)

  datatype Warning = AllToBackups | AllDown | OnlyOneEnabled

  function Named(name: string): Option<LbMethod> {
    if name == "round_robin" then Some(RoundRobin)
    else if name == "least_conn" then Some(LeastConn)
    else if name == "ip_hash" then Some(IpHash)
    else if name == "hash_uri" then Some(HashUri)
    else if name == "random_two" then Some(RandomTwo)
    else None
  }

  /** The balancing method a host asks for: a known one, or a name that is none. */
  datatype Choice = Known(lbMethod: LbMethod) | Other(name: string)

  /** No method, or an empty one, means round robin. */
  function Chosen(name: Option<string>): Choice {
    if name == None || name.value == [] then Known(RoundRobin)
    else if Named(name.value).Some? then Known(Named(name.value).value)
    else Other(name.value)
  }

  function NameOf(m: LbMethod): string {
    match m
    case RoundRobin => "round_robin"
    case LeastConn => "least_conn"
    case IpHash => "ip_hash"
    case HashUri => "hash_uri"
    case RandomTwo => "random_two"
  }

  /** A host gets the method it names, round robin when it names none, and nothing else passes as one. */
  lemma {:induction false} ChosenExactly(name: Option<string>)
    ensures Chosen(name) == Known(RoundRobin) <==> name == None || name.value == [] || name.value == NameOf(RoundRobin)
    ensures forall m | m != RoundRobin :: Chosen(name) == Known(m) <==> name == Some(NameOf(m))
    ensures Chosen(name).Other? ==> Chosen(name) == Other(name.value)
  {
  }

  predicate AllowsBackup(m: LbMethod) { m == RoundRobin || m == LeastConn }

  // ---------------------------------------------------------------------------
  // Addresses
  // ---------------------------------------------------------------------------

  function Digits(n: nat): string {
    if n < 10 then [Digit(n)] else Digits(n / 10) + [Digit(n % 10)]
  }

  function Digit(d: nat): char
    requires d < 10
  {
    (d as char) + '0'
  }

  function Number(s: string): int {
    if s == [] then 0 else Number(s[..|s| - 1]) * 10 + (s[|s| - 1] as int - '0' as int)
  }

  /** IPv6 literals go in brackets. */
  function Bracketed(host: string): string {
    if ':' in host && host[0] != '[' then "[" + host + "]" else host
  }

  function FormatServerAddress(host: string, port: nat): string {
    Bracketed(host) + ":" + Digits(port)
  }

  lemma {:induction false} DigitsRoundTrip(n: nat)
    ensures Number(Digits(n)) == n && ':' !in Digits(n)
  {
    if n >= 10 {
      DigitsRoundTrip(n / 10);
      assert Digits(n)[..|Digits(n)| - 1] == Digits(n / 10);
    }
  }

  lemma {:induction false} NoColonAfter(a: string, x: string, b: string, y: string)
    requires a + ":" + x == b + ":" + y && ':' !in x
    ensures |b| <= |a|
  {
    var s := a + ":" + x;
    forall k | |a| < k < |s| ensures s[k] != ':' {
      assert s[k] == x[k - |a| - 1];
    }
    assert (b + ":" + y)[|b|] == ':';
  }

  /** Text has one last colon. */
  lemma {:induction false} LastColon(a: string, x: string, b: string, y: string)
    requires a + ":" + x == b + ":" + y && ':' !in x && ':' !in y
    ensures a == b && x == y
  {
    var s, t := a + ":" + x, b + ":" + y;
    NoColonAfter(a, x, b, y);
    NoColonAfter(b, y, a, x);
    assert s[..|a|] == a && t[..|a|] == b && s[|a| + 1..] == x && t[|a| + 1..] == y;
  }

  /** Two servers print alike exactly when their ports agree and their hosts do up to brackets. */
  lemma {:induction false} SameAddressExactly(host: string, port: nat, host': string, port': nat)
    ensures FormatServerAddress(host, port) == FormatServerAddress(host', port')
       <==> Bracketed(host) == Bracketed(host') && port == port'
  {
    DigitsRoundTrip(port);
    DigitsRoundTrip(port');
    if FormatServerAddress(host, port) == FormatServerAddress(host', port') {
      LastColon(Bracketed(host), Digits(port), Bracketed(host'), Digits(port'));
    }
  }

  // ---------------------------------------------------------------------------
  // Normalised hosts
  // ---------------------------------------------------------------------------

  predicate IsWordChar(c: char) { 'a' <= c <= 'z' || 'A' <= c <= 'Z' || '0' <= c <= '9' || c == '_' }

  predicate IsLabel(s: string) {
    && 0 < |s| <= 63 && IsWordChar(s[0]) && IsWordChar(s[|s| - 1])
    && forall i | 0 <= i < |s| :: IsWordChar(s[i]) || s[i] == '-'
  }

  /** The name without the final dot. */
  function Undotted(s: string): string
    requires s != []
  {
    if s[|s| - 1] == '.' then s[..|s| - 1] else s
  }

  predicate IsHostname(s: string) {
    && 1 <= |s| <= 253
    && forall part | part in Text.Split(Undotted(s), '.') :: IsLabel(part)
  }

  function Unbracketed(s: string): string {
    if s != [] && s[0] == '[' && s[|s| - 1] == ']' then (if |s| == 1 then [] else s[1..|s| - 1]) else s
  }

  /** The clean form of a host, or None when it is neither an address nor a hostname. `printed` is what the
      address library prints for an address literal. */
  function NormalizeUpstreamHost(printed: string -> Option<string>, value: string): Option<string> {
    var v := Unbracketed(Text.Strip(value, Text.IsSpace));
    if v == [] then None
    else if printed(v).Some? then printed(v)
    else if IsHostname(v) then Some(Text.Lower(v))
    else None
  }

  predicate Unwrapped(host: string) { host == [] || host[0] != '[' }

  lemma {:induction false} LowerKeepsStart(s: string)
    ensures |Text.Lower(s)| == |s| && (s != [] ==> Text.Lower(s)[0] == Text.LowerChar(s[0]))
  {
    if s != [] { LowerKeepsStart(s[1..]); }
  }

  lemma {:induction false} SplitStart(s: string)
    ensures Text.Split(s, '.')[0] != [] ==> s != [] && Text.Split(s, '.')[0][0] == s[0]
  {
  }

  lemma {:induction false} HostnameStart(s: string)
    requires IsHostname(s)
    ensures IsWordChar(s[0])
  {
    SplitStart(Undotted(s));
    assert IsLabel(Text.Split(Undotted(s), '.')[0]);
  }

  /** A normalised host never starts with a bracket, provided printed addresses do not. */
  lemma {:induction false} NormalizedIsUnwrapped(printed: string -> Option<string>, value: string)
    requires forall v | printed(v).Some? :: Unwrapped(printed(v).value)
    ensures NormalizeUpstreamHost(printed, value).Some? ==>
      Unwrapped(Text.Lower(NormalizeUpstreamHost(printed, value).value))
  {
    var v := Unbracketed(Text.Strip(value, Text.IsSpace));
    LowerKeepsStart(v);
    LowerKeepsStart(Text.Lower(v));
    if v != [] && printed(v).Some? {
      LowerKeepsStart(printed(v).value);
    } else if IsHostname(v) {
      HostnameStart(v);
    }
  }

  /** What the address library promises: it ignores case, and prints addresses so that they read and print alike,
      in lower case, without blanks at the ends and without a bracket in front. */
  ghost predicate Canonical(printed: string -> Option<string>) {
    && (forall v :: printed(Text.Lower(v)) == printed(v))
    && (forall v | printed(v).Some? ::
          var p := printed(v).value;
          && Trim(p) && printed(p) == Some(p) && Text.Lower(p) == p)
  }

  lemma {:induction false} LowerTwice(s: string)
    ensures Text.Lower(Text.Lower(s)) == Text.Lower(s)
  {
    if s != [] { LowerTwice(s[1..]); }
  }

  lemma {:induction false} LowerAt(s: string, i: nat)
    requires i < |s|
    ensures |Text.Lower(s)| == |s| && Text.Lower(s)[i] == Text.LowerChar(s[i])
  {
    LowerKeepsStart(s);
    if i > 0 { LowerAt(s[1..], i - 1); }
  }

  lemma {:induction false} LowerLabel(s: string)
    requires IsLabel(s)
    ensures IsLabel(Text.Lower(s))
  {
    forall i | 0 <= i < |s| ensures |Text.Lower(s)| == |s| && Text.Lower(s)[i] == Text.LowerChar(s[i]) { LowerAt(s, i); }
    LowerKeepsStart(s);
  }

  lemma {:induction false} LowerParts(s: string)
    requires forall part | part in Text.Split(s, '.') :: IsLabel(part)
    ensures forall part | part in Text.Split(Text.Lower(s), '.') :: IsLabel(part)
  {
    SplitOfLower(s);
    var parts := Text.Split(s, '.');
    forall part | part in Text.Split(Text.Lower(s), '.') ensures IsLabel(part) {
      var i :| 0 <= i < |parts| && part == Text.Lower(parts[i]);
      LowerLabel(parts[i]);
    }
  }

  /** Lower case does not move the dots. */
  lemma {:induction false} SplitOfLower(s: string)
    ensures var parts, lower := Text.Split(s, '.'), Text.Split(Text.Lower(s), '.');
      |lower| == |parts| && forall i | 0 <= i < |parts| :: lower[i] == Text.Lower(parts[i])
  {
    if s != [] {
      SplitOfLower(s[1..]);
      assert Text.Lower(s)[1..] == Text.Lower(s[1..]);
      if s[0] != '.' {
        assert ([s[0]] + Text.Split(s[1..], '.')[0])[1..] == Text.Split(s[1..], '.')[0];
      }
    }
  }

  lemma {:induction false} SplitEnd(s: string)
    ensures var last := Text.Split(s, '.')[|Text.Split(s, '.')| - 1];
      last != [] ==> s != [] && last[|last| - 1] == s[|s| - 1]
  {
    if s != [] { SplitEnd(s[1..]); }
  }

  lemma {:induction false} HostnameEnd(s: string)
    requires IsHostname(s)
    ensures s[|s| - 1] == '.' || IsWordChar(s[|s| - 1])
  {
    var parts := Text.Split(Undotted(s), '.');
    SplitEnd(Undotted(s));
    assert IsLabel(parts[|parts| - 1]);
  }

  lemma {:induction false} UndottedLower(s: string)
    requires s != []
    ensures Text.Lower(s) != [] && Undotted(Text.Lower(s)) == Text.Lower(Undotted(s))
  {
    LowerAt(s, |s| - 1);
    LowerAppends(s[..|s| - 1], s[|s| - 1..]);
    LowerKeepsStart(s[..|s| - 1]);
    assert s == s[..|s| - 1] + s[|s| - 1..];
  }

  lemma {:induction false} LowerHostname(s: string)
    requires IsHostname(s)
    ensures IsHostname(Text.Lower(s)) && Trim(Text.Lower(s))
  {
    HostnameStart(s);
    HostnameEnd(s);
    LowerKeepsStart(s);
    LowerAt(s, |s| - 1);
    UndottedLower(s);
    LowerParts(Undotted(s));
  }

  /** Nothing that normalising takes away: no blanks at the ends and no bracket in front. */
  predicate Trim(s: string) {
    s != [] && s[0] != '[' && !Text.IsSpace(s[0]) && !Text.IsSpace(s[|s| - 1])
  }

  lemma {:induction false} TrimStays(s: string)
    requires Trim(s)
    ensures Unbracketed(Text.Strip(s, Text.IsSpace)) == s
  {
    Text.StripsAround([], s, [], Text.IsSpace);
    assert [] + s + [] == s;
  }

  /** A host is normalised once: the result is in lower case, and normalising it again changes nothing. */
  lemma {:induction false} NormalizingTwiceIsNormalizingOnce(printed: string -> Option<string>, value: string)
    requires Canonical(printed) && NormalizeUpstreamHost(printed, value).Some?
    ensures var host := NormalizeUpstreamHost(printed, value).value;
      Text.Lower(host) == host && NormalizeUpstreamHost(printed, host) == Some(host)
  {
    var v := Unbracketed(Text.Strip(value, Text.IsSpace));
    if printed(v).Some? {
      TrimStays(printed(v).value);
    } else {
      LowerTwice(v);
      LowerHostname(v);
      TrimStays(Text.Lower(v));
    }
  }

  /** For such hosts printing loses nothing. */
  lemma {:induction false} PrintingIsInjective(host: string, port: nat, host': string, port': nat)
    requires Unwrapped(host) && Unwrapped(host')
    ensures FormatServerAddress(host, port) == FormatServerAddress(host', port') <==> host == host' && port == port'
  {
    SameAddressExactly(host, port, host', port');
    if Bracketed(host) == Bracketed(host') && ':' in host && ':' in host' {
      assert ("[" + host + "]")[1..|host| + 1] == host;
      assert ("[" + host' + "]")[1..|host'| + 1] == host';
    }
  }

  // ---------------------------------------------------------------------------
  // The rules
  // ---------------------------------------------------------------------------

  function AddressOf(s: Server): string { FormatServerAddress(Text.Lower(s.host), s.port) }

  function Filter(servers: seq<Server>, keep: Server -> bool): (kept: seq<Server>)
    ensures forall s :: s in kept <==> s in servers && keep(s)
  {
    if servers == [] then []
    else
      var last := servers[|servers| - 1];
      Filter(servers[..|servers| - 1], keep) + if keep(last) then [last] else []
  }

  function Enabled(servers: seq<Server>): seq<Server> { Filter(servers, (s: Server) => s.enabled) }
  function Primaries(servers: seq<Server>): seq<Server> { Filter(Enabled(servers), (s: Server) => !s.backup) }
  function Backups(servers: seq<Server>): seq<Server> { Filter(Enabled(servers), (s: Server) => s.backup) }

  function Addresses(servers: seq<Server>): set<string> { set s | s in servers :: AddressOf(s) }

  /** One error for each server whose address an earlier one has. */
  function Repeats(servers: seq<Server>): seq<Error> {
    if servers == [] then []
    else
      var n := |servers| - 1;
      Repeats(servers[..n])
      + if AddressOf(servers[n]) in Addresses(servers[..n]) then [Repeated(AddressOf(servers[n]))] else []
  }

  function Errors(choice: Choice, servers: seq<Server>): seq<Error> {
    if choice.Other? then [UnknownMethod(choice.name)]
    else if servers == [] then []
    else RoleErrors(choice.lbMethod, Primaries(servers), Backups(servers)) + Repeats(servers)
  }

  function RoleErrors(m: LbMethod, primaries: seq<Server>, backups: seq<Server>): seq<Error> {
    (if primaries == [] then [NoPrimary] else []) + if backups != [] && !AllowsBackup(m) then [BackupWith(m)] else []
  }

  predicate AllMarkedDown(servers: seq<Server>) { forall s | s in servers :: s.down }

  function DownWarnings(primaries: seq<Server>, backups: seq<Server>): seq<Warning> {
    if primaries != [] && AllMarkedDown(primaries) then [if backups != [] then AllToBackups else AllDown] else []
  }

  function Warnings(choice: Choice, servers: seq<Server>): seq<Warning> {
    if choice.Other? then []
    else
      DownWarnings(Primaries(servers), Backups(servers))
      + if |Enabled(servers)| == 1 then [OnlyOneEnabled] else []
  }

  lemma {:induction false} OneMore(servers: seq<Server>, i: nat)
    requires i < |servers|
    ensures Addresses(servers[..i + 1]) == Addresses(servers[..i]) + {AddressOf(servers[i])}
    ensures Repeats(servers[..i + 1]) == Repeats(servers[..i])
      + if AddressOf(servers[i]) in Addresses(servers[..i]) then [Repeated(AddressOf(servers[i]))] else []
    ensures AddressOf(servers[i]) !in Addresses(servers[..i]) ==> Repeats(servers[..i + 1]) == Repeats(servers[..i])
  {
    assert servers[..i + 1][..i] == servers[..i];
    assert servers[..i + 1] == servers[..i] + [servers[i]];
  }

  lemma {:induction false} Regroup<T>(a: seq<T>, b: seq<T>, x: T)
    ensures a + b + [x] == a + (b + [x])
  {
  }

  /** Adds the errors of the loop over the servers to those found before. */
  method ReportRepeats(servers: seq<Server>, found: seq<Error>) returns (errors: seq<Error>)
    ensures errors == found + Repeats(servers)
  {
    errors := found;
    var seen: set<string> := {};
    var i := 0;
    while i < |servers|
      invariant 0 <= i <= |servers|
      invariant seen == Addresses(servers[..i])
      invariant errors == found + Repeats(servers[..i])
    {
      OneMore(servers, i);
      var key := AddressOf(servers[i]);
      if key in seen {
        Regroup(found, Repeats(servers[..i]), Repeated(key));
        errors := errors + [Repeated(key)];
      }
      seen := seen + {key};
      i := i + 1;
    }
    assert servers[..i] == servers;
  }

  method CheckLbRules(name: Option<string>, servers: seq<Server>) returns (errors: seq<Error>, warnings: seq<Warning>)
    ensures errors == Errors(Chosen(name), servers)
    ensures warnings == Warnings(Chosen(name), servers)
  {
    errors, warnings := CheckGroup(Chosen(name), servers);
  }

  method CheckGroup(choice: Choice, servers: seq<Server>) returns (errors: seq<Error>, warnings: seq<Warning>)
    ensures errors == Errors(choice, servers)
    ensures warnings == Warnings(choice, servers)
  {
    errors, warnings := [], [];
    if choice.Other? {
      errors := errors + [UnknownMethod(choice.name)];
      return;
    }
    if servers == [] {
      return;
    }
    errors := RoleProblems(choice.lbMethod, Primaries(servers), Backups(servers));
    errors := ReportRepeats(servers, errors);
    warnings := Cautions(Enabled(servers), Primaries(servers), Backups(servers));
  }

  method RoleProblems(m: LbMethod, primaries: seq<Server>, backups: seq<Server>) returns (errors: seq<Error>)
    ensures errors == RoleErrors(m, primaries, backups)
  {
    errors := [];
    if primaries == [] {
      errors := errors + [NoPrimary];
    }
    if backups != [] && !AllowsBackup(m) {
      errors := errors + [BackupWith(m)];
    }
  }

  method Cautions(enabled: seq<Server>, primaries: seq<Server>, backups: seq<Server>) returns (warnings: seq<Warning>)
    ensures warnings == DownWarnings(primaries, backups) + if |enabled| == 1 then [OnlyOneEnabled] else []
  {
    warnings := [];
    if primaries != [] && AllMarkedDown(primaries) {
      warnings := warnings + [if backups != [] then AllToBackups else AllDown];
    }
    if enabled == [] {
      return;
    }
    if |enabled| == 1 {
      warnings := warnings + [OnlyOneEnabled];
    }
  }

  // ---------------------------------------------------------------------------
  // What the rules come to
  // ---------------------------------------------------------------------------

  /** A server's identity within its group. */
  function Endpoint(s: Server): (string, nat) { (Text.Lower(s.host), s.port) }

  function Endpoints(servers: seq<Server>): set<(string, nat)> { set s | s in servers :: Endpoint(s) }

  predicate Clean(servers: seq<Server>) {
    forall s | s in servers :: Unwrapped(Text.Lower(s.host))
  }

  lemma {:induction false} SameEndpoint(s: Server, t: Server)
    requires Unwrapped(Text.Lower(s.host)) && Unwrapped(Text.Lower(t.host))
    ensures AddressOf(s) == AddressOf(t) <==> Endpoint(s) == Endpoint(t)
  {
    PrintingIsInjective(Text.Lower(s.host), s.port, Text.Lower(t.host), t.port);
  }

  lemma {:induction false} SeenBefore(servers: seq<Server>, s: Server)
    requires Clean(servers) && Unwrapped(Text.Lower(s.host))
    ensures AddressOf(s) in Addresses(servers) <==> Endpoint(s) in Endpoints(servers)
  {
    forall t | t in servers ensures AddressOf(s) == AddressOf(t) <==> Endpoint(s) == Endpoint(t) {
      SameEndpoint(s, t);
    }
  }

  /** The number of "listed more than once" errors is the number of servers beyond one per endpoint. */
  lemma {:induction false} RepeatsCountExactly(servers: seq<Server>)
    requires Clean(servers)
    ensures |Repeats(servers)| == |servers| - |Endpoints(servers)|
  {
    if servers != [] {
      var n := |servers| - 1;
      assert servers == servers[..n] + [servers[n]];
      RepeatsCountExactly(servers[..n]);
      SeenBefore(servers[..n], servers[n]);
      assert Endpoints(servers) == Endpoints(servers[..n]) + {Endpoint(servers[n])};
    }
  }

  predicate Distinct(servers: seq<Server>) {
    forall i, j | 0 <= i < j < |servers| :: Endpoint(servers[i]) != Endpoint(servers[j])
  }

  lemma {:induction false} DistinctWithLast(servers: seq<Server>)
    requires servers != []
    ensures var n := |servers| - 1;
      Distinct(servers) <==> Distinct(servers[..n]) && Endpoint(servers[n]) !in Endpoints(servers[..n])
  {
    var n := |servers| - 1;
    if Endpoint(servers[n]) in Endpoints(servers[..n]) {
      var s :| s in servers[..n] && Endpoint(s) == Endpoint(servers[n]);
      var i :| 0 <= i < n && servers[i] == s;
    } else {
      assert forall i | 0 <= i < n :: servers[i] in servers[..n];
    }
  }

  lemma {:induction false} NoRepeatsExactly(servers: seq<Server>)
    requires Clean(servers)
    ensures Repeats(servers) == [] <==> Distinct(servers)
  {
    if servers != [] {
      var n := |servers| - 1;
      NoRepeatsExactly(servers[..n]);
      SeenBefore(servers[..n], servers[n]);
      DistinctWithLast(servers);
    }
  }

  ghost predicate PrintedTwice(servers: seq<Server>, address: string) {
    exists i, j :: 0 <= i < j < |servers| && AddressOf(servers[i]) == address && AddressOf(servers[j]) == address
  }

  /** An address is reported exactly when two servers of the list print it. */
  lemma {:induction false} RepeatedExactly(servers: seq<Server>, address: string)
    ensures Repeated(address) in Repeats(servers) <==> PrintedTwice(servers, address)
    ensures forall e | e in Repeats(servers) :: e.Repeated?
  {
    if servers != [] {
      var n := |servers| - 1;
      RepeatedExactly(servers[..n], address);
      PairWithLast(servers, address);
    }
  }

  lemma {:induction false} PairWithLast(servers: seq<Server>, address: string)
    requires servers != []
    ensures var n := |servers| - 1;
      PrintedTwice(servers, address) <==>
        PrintedTwice(servers[..n], address) || (AddressOf(servers[n]) == address && address in Addresses(servers[..n]))
  {
    var n := |servers| - 1;
    assert forall i | 0 <= i < n :: servers[..n][i] == servers[i];
    if AddressOf(servers[n]) == address && address in Addresses(servers[..n]) {
      var s :| s in servers[..n] && AddressOf(s) == address;
      var i :| 0 <= i < n && servers[i] == s;
    }
  }

  predicate HasPrimary(servers: seq<Server>) { exists s | s in servers :: s.enabled && !s.backup }
  predicate HasBackup(servers: seq<Server>) { exists s | s in servers :: s.enabled && s.backup }
  predicate PrimariesDown(servers: seq<Server>) { forall s | s in servers && s.enabled && !s.backup :: s.down }

  lemma {:induction false} RolesMean(servers: seq<Server>)
    ensures Primaries(servers) == [] <==> !HasPrimary(servers)
    ensures Backups(servers) == [] <==> !HasBackup(servers)
    ensures AllMarkedDown(Primaries(servers)) <==> PrimariesDown(servers)
  {
    var primaries, backups := Primaries(servers), Backups(servers);
    if primaries != [] { assert primaries[0] in primaries; }
    if backups != [] { assert backups[0] in backups; }
  }

  predicate CanServe(m: LbMethod, servers: seq<Server>) {
    Distinct(servers) && HasPrimary(servers) && (m == RoundRobin || m == LeastConn || !HasBackup(servers))
  }

  /** A group passes exactly when its method is known and it is empty, or has an enabled server that is not a
      backup, no enabled backup its method cannot have, and no server twice. */
  lemma {:induction false} GroupPassesExactly(choice: Choice, servers: seq<Server>)
    requires Clean(servers)
    ensures Errors(choice, servers) == [] <==>
      choice.Known? && (servers == [] || CanServe(choice.lbMethod, servers))
  {
    NoRepeatsExactly(servers);
    RolesMean(servers);
  }

  /** What each error means, for a list of servers whose method is known. */
  lemma {:induction false} ErrorsExactly(m: LbMethod, servers: seq<Server>, e: Error)
    ensures e in Errors(Known(m), servers) <==>
      match e
      case UnknownMethod(_) => false
      case NoPrimary => servers != [] && !HasPrimary(servers)
      case BackupWith(k) => k == m && m in {IpHash, HashUri, RandomTwo} && HasBackup(servers)
      case Repeated(address) => PrintedTwice(servers, address)
  {
    RolesMean(servers);
    RepeatedExactly(servers, if e.Repeated? then e.address else []);
    RoleErrorsMean(m, Primaries(servers), Backups(servers), e);
    if servers != [] {
      InEither(RoleErrors(m, Primaries(servers), Backups(servers)), Repeats(servers), e);
    }
  }

  lemma {:induction false} InEither<T>(a: seq<T>, b: seq<T>, x: T)
    ensures x in a + b <==> x in a || x in b
  {
  }

  lemma {:induction false} RoleErrorsMean(m: LbMethod, primaries: seq<Server>, backups: seq<Server>, e: Error)
    ensures e in RoleErrors(m, primaries, backups) <==>
      || (e == NoPrimary && primaries == [])
      || (e == BackupWith(m) && m in {IpHash, HashUri, RandomTwo} && backups != [])
  {
  }

  function EnabledAt(servers: seq<Server>): set<nat> { set i | 0 <= i < |servers| && servers[i].enabled }

  lemma {:induction false} EnabledCount(servers: seq<Server>)
    ensures |Enabled(servers)| == |EnabledAt(servers)|
  {
    if servers != [] {
      var n := |servers| - 1;
      EnabledCount(servers[..n]);
      var before := EnabledAt(servers[..n]);
      assert EnabledAt(servers) == if servers[n].enabled then before + {n} else before;
    }
  }

  /** What each warning means, for a group whose method is known. */
  lemma {:induction false} WarningsExactly(m: LbMethod, servers: seq<Server>)
    ensures var warnings := Warnings(Known(m), servers);
      var dead := HasPrimary(servers) && PrimariesDown(servers);
      && (AllToBackups in warnings <==> dead && HasBackup(servers))
      && (AllDown in warnings <==> dead && !HasBackup(servers))
      && (OnlyOneEnabled in warnings <==> |EnabledAt(servers)| == 1)
  {
    EnabledCount(servers);
    RolesMean(servers);
    DownWarningsMean(Primaries(servers), Backups(servers));
  }

  lemma {:induction false} DownWarningsMean(primaries: seq<Server>, backups: seq<Server>)
    ensures var warnings := DownWarnings(primaries, backups);
      var dead := primaries != [] && AllMarkedDown(primaries);
      && (AllToBackups in warnings <==> dead && backups != [])
      && (AllDown in warnings <==> dead && backups == [])
      && OnlyOneEnabled !in warnings
  {
  }

  lemma {:induction false} LowerAppends(a: string, b: string)
    ensures Text.Lower(a + b) == Text.Lower(a) + Text.Lower(b)
  {
    if a == [] {
      assert a + b == b;
    } else {
      assert (a + b)[1..] == a[1..] + b;
      LowerAppends(a[1..], b);
    }
  }

  lemma {:induction false} OneAddressTwice(a: Server, b: Server)
    requires AddressOf(a) == AddressOf(b) && Endpoint(a) != Endpoint(b)
    ensures Distinct([a, b]) && Repeats([a, b]) == [Repeated(AddressOf(a))]
  {
    assert [a, b][..1] == [a] && [a][..0] == [];
    assert Repeats([a]) == [];
    assert a in [a];
  }

  lemma {:induction false} WrappedPrintsAlike(host: string, port: nat)
    requires ':' in host && host[0] != '[' && Text.Lower(host) == host
    ensures Text.Lower("[" + host + "]") == "[" + host + "]"
    ensures FormatServerAddress("[" + host + "]", port) == FormatServerAddress(host, port)
  {
    LowerAppends("[", host);
    LowerAppends("[" + host, "]");
    assert Text.Lower("[") == "[" && Text.Lower("]") == "]";
  }

  /** Without clean hosts a repeat can be reported that is none: a bracketed literal prints like the bare one. */
  lemma {:induction false} BracketedHostLooksRepeated(host: string, port: nat)
    requires ':' in host && host[0] != '[' && Text.Lower(host) == host
    ensures var group := [Server(host, port, true, false, false), Server("[" + host + "]", port, true, false, false)];
      Distinct(group) && Repeats(group) == [Repeated(FormatServerAddress(host, port))]
  {
    var wrapped := "[" + host + "]";
    WrappedPrintsAlike(host, port);
    assert |wrapped| == |host| + 2;
    OneAddressTwice(Server(host, port, true, false, false), Server(wrapped, port, true, false, false));
  }
}
