/** Which address a request came from, when trusted proxies forward it. */
module ClientIp {
  import opened Wrappers
  import opened Text
  import LoadBalancing

  /** A parsed address; only compared. */
  type Ip(==, !new)

  /** The address library and the configured networks: parsing and printing one address, the IPv4 address
      mapped into an IPv6 one, and membership in the trusted networks. */
  datatype Book = Book(literal: string -> Option<Ip>, show: Ip -> string, mapped: Ip -> Option<Ip>, trusted: Ip -> bool)

  type Header = (string, string)

  // ---------------------------------------------------------------------------
  // Header text
  // ---------------------------------------------------------------------------

  function Nonblank(parts: seq<string>): seq<string> {
    if parts == [] then []
    else (if Strip(parts[0], IsSpace) == [] then [] else [parts[0]]) + Nonblank(parts[1..])
  }

  function Join(values: seq<string>): string
    requires values != []
  {
    if |values| == 1 then values[0] else values[0] + "," + Join(values[1..])
  }

  function Values(headers: seq<Header>, name: string): seq<string> {
    if headers == [] then []
    else (if Lower(headers[0].0) == name then [headers[0].1] else []) + Values(headers[1..], name)
  }

  /** All lines of a header, joined by commas. */
  function HeaderText(headers: seq<Header>, name: string): Option<string> {
    var values := Values(headers, name);
    if values == [] then None else Some(Join(values))
  }

  // ---------------------------------------------------------------------------
  // Addresses
  // ---------------------------------------------------------------------------

  /** The address part of a hop: without blanks, quotes, brackets or a port. */
  function AddressPart(value: string): string {
    var v := Strip(Strip(value, IsSpace), IsQuote);
    if v != [] && v[0] == '[' then Before(v[1..], ']')
    else if Occurrences(v, ':') == 1 then Before(v, ':')
    else v
  }

  function ParseIp(book: Book, value: Option<string>): Option<Ip> {
    if value == None || value.value == [] then None
    else
      match book.literal(AddressPart(value.value))
      case None => None
      case Some(ip) => if book.mapped(ip).Some? then book.mapped(ip) else Some(ip)
  }

  /** How printed addresses look: nothing `AddressPart` would take away, and no comma. */
  predicate Plain(text: string) {
    && text != [] && !IsSpace(text[0]) && !IsSpace(text[|text| - 1])
    && !IsQuote(text[0]) && !IsQuote(text[|text| - 1])
    && text[0] != '[' && Occurrences(text, ':') != 1 && ',' !in text
  }

  /** Printed addresses parse back. An IPv4 address that was mapped into IPv6 is itself not mapped. */
  ghost predicate Faithful(book: Book) {
    && (forall ip {:trigger book.show(ip)} | book.mapped(ip) == None ::
          Plain(book.show(ip)) && book.literal(book.show(ip)) == Some(ip))
    && (forall ip {:trigger book.mapped(ip)} | book.mapped(ip).Some? :: book.mapped(book.mapped(ip).value) == None)
  }

  function Hops(forwarded: Option<string>): seq<string> {
    if forwarded == None then [] else Nonblank(Split(forwarded.value, ','))
  }

  predicate IsTrusted(book: Book, ip: Option<Ip>) { ip.Some? && book.trusted(ip.value) }

  function Parsed(book: Book, hops: seq<string>): (ips: seq<Option<Ip>>)
    ensures |ips| == |hops| && forall i | 0 <= i < |hops| :: ips[i] == ParseIp(book, Some(hops[i]))
  {
    seq(|hops|, i requires 0 <= i < |hops| => ParseIp(book, Some(hops[i])))
  }

  /** Where the walk from the right stops: the last hop that is not a trusted address, or -1. */
  function Stop(book: Book, ips: seq<Option<Ip>>): (i: int)
    ensures -1 <= i < |ips|
  {
    var n := |ips| - 1;
    if n < 0 then -1 else if IsTrusted(book, ips[n]) then Stop(book, ips[..n]) else n
  }

  /** Where the walk of a header stops. */
  function StopIn(book: Book, forwarded: string): int {
    Stop(book, Parsed(book, Hops(Some(forwarded))))
  }

  function AddressAt(ips: seq<Option<Ip>>, i: int): Option<Ip> {
    if 0 <= i < |ips| then ips[i] else None
  }

  /** The client of a forwarded request: the hop the walk stops at if it is an address, else the leftmost of
      the trusted hops right of it, else the peer. */
  function Walked(book: Book, ips: seq<Option<Ip>>, peer: Ip): Ip {
    var i := Stop(book, ips);
    var here, right := AddressAt(ips, i), AddressAt(ips, i + 1);
    if here.Some? then here.value else if right.Some? then right.value else peer
  }

  /** The client, from the addresses read: of the peer, of the hops and of X-Real-IP. */
  function Chosen(book: Book, peer: Option<string>, peerIp: Option<Ip>, ips: seq<Option<Ip>>, given: Option<Ip>): Option<string> {
    if peerIp == None then peer
    else if !book.trusted(peerIp.value) then Some(book.show(peerIp.value))
    else if ips != [] then Some(book.show(Walked(book, ips, peerIp.value)))
    else Some(book.show(if given.Some? then given.value else peerIp.value))
  }

  function Resolve(book: Book, peer: Option<string>, forwarded: Option<string>, realIp: Option<string>): Option<string> {
    Chosen(book, peer, ParseIp(book, peer), Parsed(book, Hops(forwarded)), ParseIp(book, realIp))
  }

  /** The hop walk as the program runs it. */
  method ClientIp(book: Book, peer: Option<string>, forwarded: Option<string>, realIp: Option<string>)
    returns (client: Option<string>)
    ensures client == Resolve(book, peer, forwarded, realIp)
  {
    var peerIp := ParseIp(book, peer);
    if peerIp == None {
      return peer;
    }
    if !book.trusted(peerIp.value) {
      return Some(book.show(peerIp.value));
    }
    var hops := Hops(forwarded);
    if hops != [] {
      var walked := WalkHops(book, hops, peerIp.value);
      return Some(book.show(walked));
    }
    var given := ParseIp(book, realIp);
    if given.Some? {
      return Some(book.show(given.value));
    }
    return Some(book.show(peerIp.value));
  }

  method WalkHops(book: Book, hops: seq<string>, peer: Ip) returns (client: Ip)
    ensures client == Walked(book, Parsed(book, hops), peer)
  {
    ghost var ips := Parsed(book, hops);
    var last: Option<Ip> := None;
    var i := |hops|;
    assert ips[..i] == ips;
    while i > 0
      invariant 0 <= i <= |hops|
      invariant Stop(book, ips[..i]) == Stop(book, ips)
      invariant last == AddressAt(ips, i)
    {
      var ip := ParseIp(book, Some(hops[i - 1]));
      StopOnce(book, ips, i);
      if ip == None {
        break;
      }
      if !book.trusted(ip.value) {
        WalkEnds(book, ips, i - 1, ip, last, peer);
        return ip.value;
      }
      last := ip;
      i := i - 1;
    }
    WalkEnds(book, ips, i - 1, None, last, peer);
    return if last.Some? then last.value else peer;
  }

  /** The walk stops at the one place that has trusted addresses alone to its right and is none itself. */
  lemma {:induction false} StopIs(book: Book, ips: seq<Option<Ip>>, i: int)
    requires -1 <= i < |ips|
    ensures Stop(book, ips) == i <==>
      && (forall j | i < j < |ips| :: IsTrusted(book, ips[j]))
      && (i >= 0 ==> !IsTrusted(book, ips[i]))
  {
    var n := |ips| - 1;
    if i < n {
      StopIs(book, ips[..n], i);
      assert forall j | i < j < n :: ips[..n][j] == ips[j];
    }
  }

  lemma {:induction false} WalkEnds(book: Book, ips: seq<Option<Ip>>, i: int, here: Option<Ip>, right: Option<Ip>,
                                    peer: Ip)
    requires i == Stop(book, ips) && here == AddressAt(ips, i) && right == AddressAt(ips, i + 1)
    ensures Walked(book, ips, peer) == if here.Some? then here.value else if right.Some? then right.value else peer
  {
  }

  lemma {:induction false} StopOnce(book: Book, ips: seq<Option<Ip>>, i: nat)
    requires 0 < i <= |ips|
    ensures Stop(book, ips[..i]) == if IsTrusted(book, ips[i - 1]) then Stop(book, ips[..i - 1]) else i - 1
  {
    assert ips[..i][..i - 1] == ips[..i - 1];
  }

  // ---------------------------------------------------------------------------
  // Which address it is
  // ---------------------------------------------------------------------------

  /** Every hop right of place `i` is a trusted address. */
  predicate TrustedAfter(book: Book, ips: seq<Option<Ip>>, i: int) {
    forall j | i < j < |ips| :: 0 <= j && ips[j].Some? && book.trusted(ips[j].value)
  }

  /** The client, case by case. A peer that is no address is passed on as it is, and one that is not trusted is
      the client. Behind a trusted one it is the rightmost hop that is not trusted; if that hop is no address, the
      hop right of it, or the peer when there is none; the leftmost hop when all are trusted; and without hops
      X-Real-IP, or the peer. */
  lemma {:induction false} ClientExactly(book: Book, peer: Option<string>, forwarded: Option<string>,
                                         realIp: Option<string>)
    ensures var client := Resolve(book, peer, forwarded, realIp);
      var peerIp, ips, given := ParseIp(book, peer), Parsed(book, Hops(forwarded)), ParseIp(book, realIp);
      && (peerIp == None ==> client == peer)
      && (peerIp.Some? ==>
            var p := peerIp.value;
            && (!book.trusted(p) ==> client == Some(book.show(p)))
            && (book.trusted(p) && ips == [] ==> client == Some(book.show(if given.Some? then given.value else p)))
            && (book.trusted(p) && ips != [] ==> exists ip :: IsWalked(book, ips, p, ip) && client == Some(book.show(ip))))
  {
    var peerIp, ips := ParseIp(book, peer), Parsed(book, Hops(forwarded));
    if peerIp.Some? && ips != [] {
      WalkedIs(book, ips, peerIp.value);
    }
  }

  /** The address a walk over the hops has to give. */
  predicate IsWalked(book: Book, ips: seq<Option<Ip>>, peer: Ip, ip: Ip)
    requires ips != []
  {
    && (TrustedAfter(book, ips, -1) ==> Some(ip) == ips[0])
    && (forall i | 0 <= i < |ips| && TrustedAfter(book, ips, i) ::
          && (ips[i].Some? && !book.trusted(ips[i].value) ==> Some(ip) == ips[i])
          && (ips[i] == None ==> if i + 1 < |ips| then Some(ip) == ips[i + 1] else ip == peer))
  }

  lemma {:induction false} WalkedIs(book: Book, ips: seq<Option<Ip>>, peer: Ip)
    requires ips != []
    ensures IsWalked(book, ips, peer, Walked(book, ips, peer))
  {
    forall i | -1 <= i < |ips| && TrustedAfter(book, ips, i) && (i >= 0 ==> !IsTrusted(book, ips[i]))
      ensures Stop(book, ips) == i
    {
      StopIs(book, ips, i);
    }
  }

  predicate Blank(text: string) { forall c | c in text :: IsSpace(c) }

  /** The hops of a header are the parts between its commas that are not blank. */
  lemma {:induction false} HopsExactly(forwarded: string, hop: string)
    ensures hop in Hops(Some(forwarded)) <==> hop in Split(forwarded, ',') && !Blank(hop)
  {
    NonblankExactly(Split(forwarded, ','), hop);
  }

  /** Those parts hold no comma and, joined by commas, are the header again. */
  lemma {:induction false} SplitJoins(forwarded: string)
    ensures Join(Split(forwarded, ',')) == forwarded
    ensures forall part | part in Split(forwarded, ',') :: ',' !in part
  {
    if forwarded != [] {
      var rest := Split(forwarded[1..], ',');
      SplitJoins(forwarded[1..]);
      assert forwarded == [forwarded[0]] + forwarded[1..];
      if forwarded[0] == ',' {
        assert ([[]] + rest)[1..] == rest;
      } else {
        assert ([[forwarded[0]] + rest[0]] + rest[1..])[1..] == rest[1..];
      }
    }
  }

  lemma {:induction false} NonblankExactly(parts: seq<string>, part: string)
    ensures part in Nonblank(parts) <==> part in parts && !Blank(part)
  {
    if parts != [] {
      StripsToNothing(parts[0]);
      NonblankExactly(parts[1..], part);
      assert parts == [parts[0]] + parts[1..];
    }
  }

  lemma {:induction false} StripsToNothing(text: string)
    ensures Strip(text, IsSpace) == [] <==> Blank(text)
  {
    if Blank(text) {
      StripsLeft(text, [], IsSpace);
      assert text + [] == text;
    } else {
      KeepsLeft(text, IsSpace);
      KeepsRight(StripLeft(text, IsSpace), IsSpace);
    }
  }

  lemma {:induction false} KeepsLeft(text: string, drop: char -> bool)
    requires exists c :: c in text && !drop(c)
    ensures StripLeft(text, drop) != [] && !drop(StripLeft(text, drop)[0])
  {
    if drop(text[0]) {
      assert forall c | c in text && !drop(c) :: c in text[1..];
      KeepsLeft(text[1..], drop);
    }
  }

  lemma {:induction false} KeepsRight(text: string, drop: char -> bool)
    requires text != [] && !drop(text[0])
    ensures StripRight(text, drop) != []
  {
    if drop(text[|text| - 1]) { KeepsRight(text[..|text| - 1], drop); }
  }

  // ---------------------------------------------------------------------------
  // Hops as proxies write them
  // ---------------------------------------------------------------------------

  /** A host that printing with a port does not spoil: no blank or quote at its ends and no brackets. */
  predicate Bare(host: string) {
    && host != [] && '[' !in host && ']' !in host
    && !IsSpace(host[0]) && !IsQuote(host[0])
  }

  /** Of an address with a port, in blanks and quotes or not, the address is read. */
  lemma {:induction false} PortIsTakenAway(host: string, port: nat, front: string, back: string)
    requires Bare(host) && Blank(front) && Blank(back)
    ensures var text := LoadBalancing.FormatServerAddress(host, port);
      && AddressPart(front + text + back) == host
      && AddressPart(front + ("\"" + text + "\"") + back) == host
  {
    var text := LoadBalancing.FormatServerAddress(host, port);
    var quoted := "\"" + text + "\"";
    AddressEnds(host, port);
    StripsAround(front, text, back, IsSpace);
    StripsAround([], text, [], IsQuote);
    assert [] + text + [] == text;
    StripsAround(front, quoted, back, IsSpace);
    StripsAround("\"", text, "\"", IsQuote);
    WithoutPort(host, port);
  }

  lemma {:induction false} LastDigit(n: nat)
    ensures LoadBalancing.Digits(n) != [] && '0' <= LoadBalancing.Digits(n)[|LoadBalancing.Digits(n)| - 1] <= '9'
  {
    if n < 10 {
      assert LoadBalancing.Digits(n) == [LoadBalancing.Digit(n)];
    } else {
      assert LoadBalancing.Digits(n)[|LoadBalancing.Digits(n)| - 1] == LoadBalancing.Digit(n % 10);
    }
  }

  lemma {:induction false} AddressEnds(host: string, port: nat)
    requires Bare(host)
    ensures var text := LoadBalancing.FormatServerAddress(host, port);
      && text != [] && !IsSpace(text[0]) && !IsQuote(text[0])
      && !IsSpace(text[|text| - 1]) && !IsQuote(text[|text| - 1])
  {
    LastDigit(port);
  }

  lemma {:induction false} BracketedWithoutPort(host: string, digits: string)
    requires ']' !in host
    ensures Before((("[" + host + "]") + ":" + digits)[1..], ']') == host
  {
    assert (("[" + host + "]") + ":" + digits)[1..] == host + "]" + (":" + digits);
    BeforeTheFirst(host, ']', ":" + digits);
  }

  lemma {:induction false} NameWithoutPort(host: string, digits: string)
    requires ':' !in host && ':' !in digits
    ensures Occurrences(host + ":" + digits, ':') == 1 && Before(host + ":" + digits, ':') == host
  {
    OccurrencesAppend(host, ":" + digits, ':');
    assert host + (":" + digits) == host + ":" + digits && (":" + digits)[1..] == digits;
    OccursExactly(host, ':');
    OccursExactly(digits, ':');
    BeforeTheFirst(host, ':', digits);
  }

  lemma {:induction false} WithoutPort(host: string, port: nat)
    requires Bare(host)
    ensures var text := LoadBalancing.FormatServerAddress(host, port);
      (if text[0] == '[' then Before(text[1..], ']')
       else if Occurrences(text, ':') == 1 then Before(text, ':')
       else text) == host
  {
    var digits := LoadBalancing.Digits(port);
    if ':' in host {
      BracketedWithoutPort(host, digits);
    } else {
      LoadBalancing.DigitsRoundTrip(port);
      NameWithoutPort(host, digits);
    }
  }

  /** A printed address is read back, alone or with a port, in blanks and quotes or not. */
  lemma {:induction false} WrittenHopParses(book: Book, ip: Ip, port: nat, front: string, back: string)
    requires Faithful(book) && book.mapped(ip) == None && Bare(book.show(ip)) && Blank(front) && Blank(back)
    ensures var shown, withPort := book.show(ip), LoadBalancing.FormatServerAddress(book.show(ip), port);
      forall text | text in {shown, "\"" + shown + "\"", withPort, "\"" + withPort + "\""} ::
        ParseIp(book, Some(front + text + back)) == Some(ip)
  {
    var shown := book.show(ip);
    assert Plain(shown);
    PortIsTakenAway(shown, port, front, back);
    StripsAround(front, shown, back, IsSpace);
    StripsAround([], shown, [], IsQuote);
    assert [] + shown + [] == shown;
    StripsAround(front, "\"" + shown + "\"", back, IsSpace);
    StripsAround("\"", shown, "\"", IsQuote);
  }

  /** An address that maps an IPv4 one is read as that one. */
  lemma {:induction false} MappedHopParses(book: Book, hop: string, ip: Ip, inner: Ip)
    requires Faithful(book) && book.literal(AddressPart(hop)) == Some(ip) && book.mapped(ip) == Some(inner) && hop != []
    ensures ParseIp(book, Some(hop)) == Some(inner) && ParseIp(book, Some(book.show(inner))) == Some(inner)
  {
  }

  // ---------------------------------------------------------------------------
  // Hops of a longer header
  // ---------------------------------------------------------------------------

  lemma {:induction false} NonblankAppends(a: seq<string>, b: seq<string>)
    ensures Nonblank(a + b) == Nonblank(a) + Nonblank(b)
  {
    if a == [] {
      assert a + b == b;
    } else {
      assert (a + b)[1..] == a[1..] + b;
      NonblankAppends(a[1..], b);
    }
  }

  lemma {:induction false} HopsPrepended(text: string, rest: string)
    ensures Hops(Some(text + "," + rest)) == Hops(Some(text)) + Hops(Some(rest))
  {
    SplitPrepended(text, rest, ',');
    NonblankAppends(Split(text, ','), Split(rest, ','));
  }

  lemma {:induction false} ParsedAppends(book: Book, a: seq<string>, b: seq<string>)
    ensures Parsed(book, a + b) == Parsed(book, a) + Parsed(book, b)
  {
  }

  lemma {:induction false} StopPrepended(book: Book, more: seq<Option<Ip>>, ips: seq<Option<Ip>>)
    ensures Stop(book, more + ips) ==
      if Stop(book, ips) >= 0 then |more| + Stop(book, ips) else Stop(book, more)
  {
    var i := if Stop(book, ips) >= 0 then |more| + Stop(book, ips) else Stop(book, more);
    StopIs(book, ips, Stop(book, ips));
    StopIs(book, more, Stop(book, more));
    forall j | i < j < |more + ips| ensures IsTrusted(book, (more + ips)[j]) {
      if j >= |more| { assert IsTrusted(book, ips[j - |more|]); }
    }
    StopIs(book, more + ips, i);
  }

  lemma {:induction false} WalkPrepended(book: Book, more: seq<Option<Ip>>, ips: seq<Option<Ip>>, peer: Ip)
    requires Stop(book, ips) >= 0
    ensures Walked(book, more + ips, peer) == Walked(book, ips, peer)
  {
    StopPrepended(book, more, ips);
    var i := Stop(book, ips);
    assert AddressAt(more + ips, |more| + i) == AddressAt(ips, i);
    assert AddressAt(more + ips, |more| + i + 1) == AddressAt(ips, i + 1);
  }

  /** Whatever is put in front of a header whose walk stops somewhere, the client stays the same. */
  lemma {:induction false} PrependingChangesNothing(book: Book, peer: Option<string>, text: string, forwarded: string,
                                                    realIp: Option<string>, realIp': Option<string>)
    requires StopIn(book, forwarded) >= 0
    ensures Resolve(book, peer, Some(text + "," + forwarded), realIp') == Resolve(book, peer, Some(forwarded), realIp)
  {
    var more, hops := Hops(Some(text)), Hops(Some(forwarded));
    HopsPrepended(text, forwarded);
    ParsedAppends(book, more, hops);
    LongerChosen(book, peer, ParseIp(book, peer), Parsed(book, more), Parsed(book, hops),
      ParseIp(book, realIp), ParseIp(book, realIp'));
  }

  lemma {:induction false} LongerChosen(book: Book, peer: Option<string>, peerIp: Option<Ip>, more: seq<Option<Ip>>,
                                        ips: seq<Option<Ip>>, given: Option<Ip>, given': Option<Ip>)
    requires Stop(book, ips) >= 0
    ensures Chosen(book, peer, peerIp, more + ips, given') == Chosen(book, peer, peerIp, ips, given)
  {
    if peerIp.Some? { WalkPrepended(book, more, ips, peerIp.value); }
  }

  /** The client that the middleware reads from a request's header lines. */
  function FromHeaders(book: Book, peer: Option<string>, headers: seq<Header>): Option<string> {
    Resolve(book, peer, HeaderText(headers, "x-forwarded-for"), HeaderText(headers, "x-real-ip"))
  }

  /** No header line put in front, of whatever name, changes the client of a request whose walk stops. */
  lemma {:induction false} ForgedLineChangesNothing(book: Book, peer: Option<string>, line: Header,
                                                    headers: seq<Header>)
    requires HeaderText(headers, "x-forwarded-for").Some?
    requires StopIn(book, HeaderText(headers, "x-forwarded-for").value) >= 0
    ensures FromHeaders(book, peer, [line] + headers) == FromHeaders(book, peer, headers)
  {
    var longer, forwarded := [line] + headers, HeaderText(headers, "x-forwarded-for").value;
    assert longer[0] == line && longer[1..] == headers;
    LineInFront(line, headers, "x-forwarded-for");
    var realIp, realIp' := HeaderText(headers, "x-real-ip"), HeaderText(longer, "x-real-ip");
    PrependingChangesNothing(book, peer, line.1, forwarded, realIp, realIp');
    PrependingChangesNothing(book, peer, line.1, forwarded, realIp', realIp');
  }

  lemma {:induction false} LineInFront(line: Header, headers: seq<Header>, name: string)
    requires HeaderText(headers, name).Some?
    ensures HeaderText([line] + headers, name) ==
      if Lower(line.0) == name then Some(line.1 + "," + HeaderText(headers, name).value) else HeaderText(headers, name)
  {
    assert ([line] + headers)[1..] == headers;
    var values := Values(headers, name);
    assert ([line.1] + values)[1..] == values;
    assert Values([line] + headers, name) == (if Lower(line.0) == name then [line.1] else []) + values;
    assert [] + values == values;
  }

  // ---------------------------------------------------------------------------
  // Resolving twice
  // ---------------------------------------------------------------------------

  lemma {:induction false} ShownParses(book: Book, ip: Ip)
    requires Faithful(book) && book.mapped(ip) == None
    ensures ParseIp(book, Some(book.show(ip))) == Some(ip)
  {
    var text := book.show(ip);
    assert Plain(text);
    assert AddressPart(text) == text;
  }

  lemma {:induction false} ParsedIsNotMapped(book: Book, value: Option<string>)
    requires Faithful(book) && ParseIp(book, value).Some?
    ensures book.mapped(ParseIp(book, value).value) == None
  {
  }

  predicate NoneMapped(book: Book, ips: seq<Option<Ip>>) {
    forall i | 0 <= i < |ips| && ips[i].Some? :: book.mapped(ips[i].value) == None
  }

  lemma {:induction false} HopsAreNotMapped(book: Book, hops: seq<string>)
    requires Faithful(book)
    ensures NoneMapped(book, Parsed(book, hops))
  {
    forall i | 0 <= i < |hops| && Parsed(book, hops)[i].Some? ensures book.mapped(Parsed(book, hops)[i].value) == None {
      ParsedIsNotMapped(book, Some(hops[i]));
    }
  }

  /** The walk depends on the peer only when it comes to no address, and then the peer is the result. */
  lemma {:induction false} WalkIgnoresPeer(book: Book, ips: seq<Option<Ip>>, peer: Ip)
    ensures Walked(book, ips, Walked(book, ips, peer)) == Walked(book, ips, peer)
  {
  }

  /** The address that is chosen, when the peer is one. */
  function ChosenIp(book: Book, peer: Ip, ips: seq<Option<Ip>>, given: Option<Ip>): Ip {
    if !book.trusted(peer) then peer
    else if ips != [] then Walked(book, ips, peer)
    else if given.Some? then given.value else peer
  }

  lemma {:induction false} ChosenTwice(book: Book, peer: Ip, ips: seq<Option<Ip>>, given: Option<Ip>)
    ensures ChosenIp(book, ChosenIp(book, peer, ips, given), ips, given) == ChosenIp(book, peer, ips, given)
  {
    WalkIgnoresPeer(book, ips, peer);
  }

  lemma {:induction false} ChosenIsNotMapped(book: Book, peer: Ip, ips: seq<Option<Ip>>, given: Option<Ip>)
    requires book.mapped(peer) == None && NoneMapped(book, ips) && (given.Some? ==> book.mapped(given.value) == None)
    ensures book.mapped(ChosenIp(book, peer, ips, given)) == None
  {
  }

  /** Resolving again with the result as the peer gives the same result. */
  lemma {:induction false} ResolvingTwiceIsResolvingOnce(book: Book, peer: Option<string>, forwarded: Option<string>,
                                                         realIp: Option<string>)
    requires Faithful(book)
    ensures var client := Resolve(book, peer, forwarded, realIp);
      Resolve(book, client, forwarded, realIp) == client
  {
    var peerIp, ips, given := ParseIp(book, peer), Parsed(book, Hops(forwarded)), ParseIp(book, realIp);
    if peerIp.Some? {
      ParsedIsNotMapped(book, peer);
      HopsAreNotMapped(book, Hops(forwarded));
      if given.Some? { ParsedIsNotMapped(book, realIp); }
      var ip := ChosenIp(book, peerIp.value, ips, given);
      ChosenIsNotMapped(book, peerIp.value, ips, given);
      ShownParses(book, ip);
      ChosenTwice(book, peerIp.value, ips, given);
    }
  }

  // ---------------------------------------------------------------------------
  // When text in front of the header can change the client
  // ---------------------------------------------------------------------------

  ghost predicate Unforgeable(book: Book, peer: Option<string>, forwarded: string, realIp: Option<string>) {
    forall text: string :: Resolve(book, peer, Some(text + "," + forwarded), realIp) == Resolve(book, peer, Some(forwarded), realIp)
  }

  lemma {:induction false} ShownHop(book: Book, ip: Ip)
    requires Faithful(book) && book.mapped(ip) == None
    ensures Hops(Some(book.show(ip))) == [book.show(ip)]
  {
    var text := book.show(ip);
    assert Plain(text);
    NothingToSplit(text, ',');
    assert Strip(text, IsSpace) == text;
    assert [text][1..] == [] && Nonblank([text]) == [text] + Nonblank([]);
  }

  /** In front of a header made of trusted hops only, an untrusted address becomes the client. */
  lemma {:induction false} ForgedHopWins(book: Book, peer: Option<string>, ip: Ip, forwarded: string,
                                         realIp: Option<string>)
    requires Faithful(book) && book.mapped(ip) == None && !book.trusted(ip)
    requires IsTrusted(book, ParseIp(book, peer)) && StopIn(book, forwarded) < 0
    ensures Resolve(book, peer, Some(book.show(ip) + "," + forwarded), realIp) == Some(book.show(ip))
  {
    var hops := Hops(Some(forwarded));
    HopsPrepended(book.show(ip), forwarded);
    ShownHop(book, ip);
    ShownParses(book, ip);
    ParsedAppends(book, [book.show(ip)], hops);
    assert Parsed(book, [book.show(ip)]) == [Some(ip)];
    WalkedToFront(book, ip, Parsed(book, hops), ParseIp(book, peer).value);
  }

  lemma {:induction false} WalkedToFront(book: Book, ip: Ip, ips: seq<Option<Ip>>, peer: Ip)
    requires !book.trusted(ip) && Stop(book, ips) < 0
    ensures Walked(book, [Some(ip)] + ips, peer) == ip
  {
    StopPrepended(book, [Some(ip)], ips);
    assert Stop(book, [Some(ip)]) == 0;
  }

  /** A request's client cannot be changed from the left exactly when its peer is not a trusted address or
      the walk stops inside the header. (With two untrusted addresses to choose from.) */
  lemma {:induction false} UnforgeableExactly(book: Book, peer: Option<string>, forwarded: string,
                                              realIp: Option<string>, a: Ip, b: Ip)
    requires Faithful(book) && a != b
    requires book.mapped(a) == None && !book.trusted(a) && book.mapped(b) == None && !book.trusted(b)
    ensures Unforgeable(book, peer, forwarded, realIp) <==>
      !IsTrusted(book, ParseIp(book, peer)) || StopIn(book, forwarded) >= 0
  {
    if !IsTrusted(book, ParseIp(book, peer)) {
    } else if StopIn(book, forwarded) >= 0 {
      forall text: string
        ensures Resolve(book, peer, Some(text + "," + forwarded), realIp) == Resolve(book, peer, Some(forwarded), realIp)
      {
        PrependingChangesNothing(book, peer, text, forwarded, realIp, realIp);
      }
    } else {
      ForgedHopWins(book, peer, a, forwarded, realIp);
      ForgedHopWins(book, peer, b, forwarded, realIp);
      ShownParses(book, a);
      ShownParses(book, b);
      if Unforgeable(book, peer, forwarded, realIp) {
        UnforgeableFor(book, peer, forwarded, realIp, book.show(a));
        UnforgeableFor(book, peer, forwarded, realIp, book.show(b));
      }
    }
  }

  lemma {:induction false} UnforgeableFor(book: Book, peer: Option<string>, forwarded: string, realIp: Option<string>,
                                          text: string)
    requires Unforgeable(book, peer, forwarded, realIp)
    ensures Resolve(book, peer, Some(text + "," + forwarded), realIp) == Resolve(book, peer, Some(forwarded), realIp)
  {
  }
}
