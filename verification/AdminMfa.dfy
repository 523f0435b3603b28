/** Second factors of the admin accounts: one use per code. */
module AdminMfa {
  import opened Wrappers
  import opened Sequences
  import Text

  // Times are seconds since the epoch.
  const STEP: int := 30
  const CLAIM_TTL: int := 120
  const BACKUP_CODE_LENGTH: nat := 8

  type UserId(==, !new)
  type Purpose(==, !new)
  type Secret(==, !new)

  /** The code generator: the code of a secret for a 30-second step. */
  type Totp = (Secret, int) -> string

  /** A column that holds nothing, or content encrypted under one of the keys the deployment has had. */
  datatype Sealed<T> = Absent | Sealed(content: T, key: nat)

  function Open<T>(column: Sealed<T>, key: nat): Option<T> {
    if column.Sealed? && column.key == key then Some(column.content) else None
  }

  datatype Account = Account(secret: Sealed<Secret>, backup: Sealed<seq<string>>, enabled: bool, verified: bool)
  {
    predicate Enrolled() { enabled && verified && secret.Sealed? }
  }

  const BLANK: Account := Account(Absent, Absent, false, false)

  datatype ClaimKey = ClaimKey(user: UserId, purpose: Purpose, code: string)

  /** When each remembered claim runs out. */
  type Claims = map<ClaimKey, int>

  /** Step `step` is the current one at `now`, or next to it. */
  predicate InWindow(step: int, now: int) {
    now / STEP - 1 <= step <= now / STEP + 1
  }

  /** The first step of the window whose code it is. */
  function MatchedStep(totp: Totp, secret: Secret, code: string, now: int): Option<int> {
    var current := now / STEP;
    if totp(secret, current - 1) == code then Some(current - 1)
    else if totp(secret, current) == code then Some(current)
    else if totp(secret, current + 1) == code then Some(current + 1)
    else None
  }

  predicate Matches(totp: Totp, secret: Secret, code: string, now: int) {
    MatchedStep(totp, secret, code, now).Some?
  }

  /** It is the code of a step of the window. */
  ghost predicate CodeOfWindow(totp: Totp, secret: Secret, code: string, now: int) {
    exists step: int :: InWindow(step, now) && totp(secret, step) == code
  }

  lemma {:induction false} MatchesExactly(totp: Totp, secret: Secret, code: string, now: int)
    ensures Matches(totp, secret, code, now) <==> CodeOfWindow(totp, secret, code, now)
    ensures Matches(totp, secret, code, now) ==>
      var step := MatchedStep(totp, secret, code, now).value; InWindow(step, now) && totp(secret, step) == code
  {
    var current := now / STEP;
    forall step | InWindow(step, now) ensures step == current - 1 || step == current || step == current + 1 {
    }
  }

  function Normalised(code: string): string {
    Text.Without(Text.Strip(code, Text.IsSpace), ' ')
  }

  predicate Taken(claims: Claims, key: ClaimKey, now: int) {
    key in claims && now < claims[key]
  }

  function Claimed(claims: Claims, key: ClaimKey, now: int): Claims {
    if Taken(claims, key, now) then claims else claims[key := now + CLAIM_TTL]
  }

  /** How an accepted code was accepted. */
  datatype Verdict = Refused | ByTotp(code: string) | ByBackup(code: string)

  /** The presented code is what the authenticator shows. */
  predicate Shown(totp: Totp, a: Account, key: nat, code: string, now: int) {
    var secret := Open(a.secret, key);
    secret.Some? && Matches(totp, secret.value, code, now)
  }

  predicate HasBackup(a: Account, key: nat, code: string) {
    var codes := Open(a.backup, key);
    codes.Some? && code in codes.value
  }

  function WithoutBackup(a: Account, key: nat, code: string): Account
    requires HasBackup(a, key, code)
  {
    a.(backup := Sealed(WithoutFirst(Open(a.backup, key).value, code), key))
  }

  /** One request to check a code: when it was compared and when it was claimed, and whether the claim store
      could be reached. */
  datatype Request = Request(user: UserId, purpose: Purpose, code: string, compared: int, claimed: int, up: bool)
  {
    function Key(): ClaimKey { ClaimKey(user, purpose, Normalised(code)) }
  }

  function Judge(totp: Totp, a: Account, claims: Claims, key: nat, r: Request): Verdict {
    var code := Normalised(r.code);
    if !a.Enrolled() || code == [] then Refused
    else if Shown(totp, a, key, code, r.compared) then
      if r.up && Taken(claims, r.Key(), r.claimed) then Refused else ByTotp(code)
    else if |code| == BACKUP_CODE_LENGTH && HasBackup(a, key, Text.Upper(code)) then ByBackup(Text.Upper(code))
    else Refused
  }

  function AccountAfter(totp: Totp, a: Account, claims: Claims, key: nat, r: Request): Account {
    if Judge(totp, a, claims, key, r).ByBackup? then WithoutBackup(a, key, Text.Upper(Normalised(r.code))) else a
  }

  function ClaimsAfter(totp: Totp, a: Account, claims: Claims, key: nat, r: Request): Claims {
    if r.up && Judge(totp, a, claims, key, r).ByTotp? then Claimed(claims, r.Key(), r.claimed) else claims
  }

  // ---------------------------------------------------------------------------
  // The service
  // ---------------------------------------------------------------------------

  /** The shared store behind the replay check. */
  class ReplayStore {
    var claims: Claims

    constructor ()
      ensures claims == map[]
    {
      claims := map[];
    }

    /** Set if absent, with expiry; an unreachable store lets the code pass. */
    method ClaimTotpCode(key: ClaimKey, now: int, up: bool) returns (first: bool)
      modifies this
      ensures first == !(up && Taken(old(claims), key, now))
      ensures claims == if up then Claimed(old(claims), key, now) else old(claims)
    {
      if !up {
        return true;
      }
      if key in claims && now < claims[key] {
        return false;
      }
      claims := claims[key := now + CLAIM_TTL];
      return true;
    }
  }

  class User {
    const id: UserId
    var secret: Sealed<Secret>
    var backup: Sealed<seq<string>>
    var enabled: bool
    var verified: bool

    constructor (id: UserId)
      ensures this.id == id && Value() == BLANK
    {
      this.id := id;
      secret, backup, enabled, verified := Absent, Absent, false, false;
    }

    function Value(): Account
      reads this
    {
      Account(secret, backup, enabled, verified)
    }

    method BeginEnrolment(newSecret: Secret, codes: seq<string>, key: nat)
      modifies this
      ensures Value() == Account(Sealed(newSecret, key), Sealed(codes, key), false, false)
    {
      secret, backup := Sealed(newSecret, key), Sealed(codes, key);
      enabled, verified := false, false;
    }

    method ConfirmEnrolment(totp: Totp, code: string, key: nat, now: int) returns (ok: bool)
      modifies this
      ensures ok <==> FromAuthenticator(totp, old(Value()), key, code, now)
      ensures Value() == if ok then old(Value()).(enabled := true, verified := true) else old(Value())
    {
      ShownExactly(totp, Value(), key, code, now);
      var readable := Open(secret, key);
      if readable == None || !Matches(totp, readable.value, code, now) {
        return false;
      }
      enabled, verified := true, true;
      return true;
    }

    method ConsumeBackupCode(code: string, key: nat) returns (ok: bool)
      modifies this`backup
      ensures ok == HasBackup(old(Value()), key, Text.Upper(code))
      ensures Value() == if ok then WithoutBackup(old(Value()), key, Text.Upper(code)) else old(Value())
    {
      var codes := Open(backup, key);
      if codes == None || Text.Upper(code) !in codes.value {
        return false;
      }
      backup := Sealed(WithoutFirst(codes.value, Text.Upper(code)), key);
      return true;
    }

    method VerifyCode(totp: Totp, store: ReplayStore, key: nat, r: Request) returns (ok: bool)
      requires r.user == id
      modifies this`backup, store
      ensures ok <==> Accepts(totp, old(Value()), old(store.claims), key, r)
      ensures Value() == AccountAfter(totp, old(Value()), old(store.claims), key, r)
      ensures store.claims == ClaimsAfter(totp, old(Value()), old(store.claims), key, r)
    {
      VerdictExactly(totp, Value(), store.claims, key, r);
      if !Value().Enrolled() {
        return false;
      }
      var code := Normalised(r.code);
      if code == [] {
        return false;
      }
      var readable := Open(secret, key);
      if readable.Some? && Matches(totp, readable.value, code, r.compared) {
        ok := store.ClaimTotpCode(ClaimKey(id, r.purpose, code), r.claimed, r.up);
        return;
      }
      if |code| == BACKUP_CODE_LENGTH {
        ok := ConsumeBackupCode(code, key);
        return;
      }
      return false;
    }

    method RegenerateBackupCodes(codes: seq<string>, key: nat)
      modifies this`backup
      ensures Value() == old(Value()).(backup := Sealed(codes, key))
    {
      backup := Sealed(codes, key);
    }

    method DisableMfa()
      modifies this
      ensures Value() == BLANK
    {
      secret, backup, enabled, verified := Absent, Absent, false, false;
    }
  }

  // ---------------------------------------------------------------------------
  // Runs
  // ---------------------------------------------------------------------------

  /** An account beside the backup codes it was last issued and those used since. */
  datatype Entry = Entry(account: Account, issued: multiset<string>, used: multiset<string>)

  /** An authenticator code that was accepted: of which secret and for which step. */
  datatype Use = Use(key: ClaimKey, secret: Secret, step: int, compared: int, claimed: int, up: bool)

  /** The use that accepting the request makes. */
  function UseOf(totp: Totp, a: Account, key: nat, r: Request): Use
    requires Shown(totp, a, key, Normalised(r.code), r.compared)
  {
    var secret := Open(a.secret, key).value;
    Use(r.Key(), secret, MatchedStep(totp, secret, Normalised(r.code), r.compared).value, r.compared, r.claimed, r.up)
  }

  datatype State = State(entries: map<UserId, Entry>, claims: Claims, key: nat, uses: seq<Use>, clock: int)

  datatype Event =
    | Enrol(user: UserId, secret: Secret, codes: seq<string>)
    | Confirm(user: UserId, code: string, now: int)
    | Verify(request: Request)
    | Reissue(user: UserId, codes: seq<string>)
    | Disable(user: UserId)
    | Rekey(key: nat)

  function EntryOf(s: State, user: UserId): Entry {
    if user in s.entries then s.entries[user] else Entry(BLANK, multiset{}, multiset{})
  }

  function EntryAfter(totp: Totp, entry: Entry, claims: Claims, key: nat, r: Request): Entry {
    var verdict := Judge(totp, entry.account, claims, key, r);
    Entry(AccountAfter(totp, entry.account, claims, key, r), entry.issued,
          if verdict.ByBackup? then entry.used + multiset{verdict.code} else entry.used)
  }

  function Next(totp: Totp, s: State, e: Event): State {
    match e
    case Enrol(u, secret, codes) =>
      s.(entries := s.entries[u := Entry(Account(Sealed(secret, s.key), Sealed(codes, s.key), false, false),
                                         multiset(codes), multiset{})])
    case Confirm(u, code, now) =>
      var entry := EntryOf(s, u);
      if Shown(totp, entry.account, s.key, code, now)
      then s.(entries := s.entries[u := entry.(account := entry.account.(enabled := true, verified := true))])
      else s
    case Verify(r) =>
      var entry := EntryOf(s, r.user);
      State(s.entries[r.user := EntryAfter(totp, entry, s.claims, s.key, r)],
            ClaimsAfter(totp, entry.account, s.claims, s.key, r), s.key,
            if Judge(totp, entry.account, s.claims, s.key, r).ByTotp?
            then s.uses + [UseOf(totp, entry.account, s.key, r)] else s.uses,
            r.claimed)
    case Reissue(u, codes) =>
      s.(entries := s.entries[u := Entry(EntryOf(s, u).account.(backup := Sealed(codes, s.key)), multiset(codes), multiset{})])
    case Disable(u) => s.(entries := s.entries[u := Entry(BLANK, multiset{}, multiset{})])
    case Rekey(key) => s.(key := key)
  }

  /** Claims reach the store in order, at most 30 seconds after their codes were compared. */
  predicate Timely(s: State, e: Event) {
    e.Verify? ==> s.clock <= e.request.claimed && e.request.compared <= e.request.claimed <= e.request.compared + STEP
  }

  function Run(totp: Totp, s: State, events: seq<Event>): State {
    if events == [] then s else Next(totp, Run(totp, s, events[..|events| - 1]), events[|events| - 1])
  }

  predicate TimelyRun(totp: Totp, s: State, events: seq<Event>) {
    events == [] ||
    (var n := |events| - 1; TimelyRun(totp, s, events[..n]) && Timely(Run(totp, s, events[..n]), events[n]))
  }

  function Begin(key: nat, clock: int): State { State(map[], map[], key, [], clock) }

  // ---------------------------------------------------------------------------
  // One use per authenticator code
  // ---------------------------------------------------------------------------

  /** The store's claims are those of the recorded uses: each of the last 120 seconds is there, and every claim
      stands for one. */
  ghost predicate ClaimsMatch(s: State) {
    && (forall i | 0 <= i < |s.uses| && s.uses[i].up ::
          s.uses[i].key in s.claims && s.claims[s.uses[i].key] >= s.uses[i].claimed + CLAIM_TTL)
    && (forall k | k in s.claims :: ClaimStands(s.uses, k, s.claims[k]))
  }

  ghost predicate ClaimStands(uses: seq<Use>, k: ClaimKey, expiry: int) {
    exists i :: 0 <= i < |uses| && uses[i].up && uses[i].key == k && uses[i].claimed + CLAIM_TTL == expiry
  }

  predicate Separate(first: Use, second: Use) {
    first.up && second.up && first.key == second.key ==> second.claimed - first.claimed >= CLAIM_TTL
  }

  ghost predicate UsesKeepApart(uses: seq<Use>, clock: int) {
    && (forall i | 0 <= i < |uses| :: uses[i].claimed <= clock && uses[i].compared <= uses[i].claimed <= uses[i].compared + STEP)
    && (forall i, j | 0 <= i < j < |uses| :: Separate(uses[i], uses[j]))
  }

  lemma {:induction false} VerifyKeepsClaims(totp: Totp, s: State, r: Request)
    requires ClaimsMatch(s) && Timely(s, Verify(r))
    ensures ClaimsMatch(Next(totp, s, Verify(r)))
  {
    var t := Next(totp, s, Verify(r));
    forall k | k in t.claims ensures ClaimStands(t.uses, k, t.claims[k]) {
      if k in s.claims && t.claims[k] == s.claims[k] {
        var i :| 0 <= i < |s.uses| && s.uses[i].up && s.uses[i].key == k && s.uses[i].claimed + CLAIM_TTL == s.claims[k];
        assert t.uses[i] == s.uses[i];
      } else {
        assert t.uses[|s.uses|].key == r.Key() && t.uses[|s.uses|].claimed == r.claimed && t.uses[|s.uses|].up;
      }
    }
  }

  lemma {:induction false} VerifyKeepsUsesApart(totp: Totp, s: State, r: Request)
    requires ClaimsMatch(s) && UsesKeepApart(s.uses, s.clock) && Timely(s, Verify(r))
    ensures UsesKeepApart(Next(totp, s, Verify(r)).uses, r.claimed)
  {
    var t := Next(totp, s, Verify(r));
    forall i, j | 0 <= i < j < |t.uses| ensures Separate(t.uses[i], t.uses[j]) {
      if j < |s.uses| { assert Separate(s.uses[i], s.uses[j]); }
    }
  }

  lemma {:induction false} RunKeepsUsesApart(totp: Totp, key: nat, clock: int, events: seq<Event>)
    requires TimelyRun(totp, Begin(key, clock), events)
    ensures var s := Run(totp, Begin(key, clock), events); ClaimsMatch(s) && UsesKeepApart(s.uses, s.clock)
  {
    if events != [] {
      var n := |events| - 1;
      RunKeepsUsesApart(totp, key, clock, events[..n]);
      if events[n].Verify? {
        VerifyKeepsClaims(totp, Run(totp, Begin(key, clock), events[..n]), events[n].request);
        VerifyKeepsUsesApart(totp, Run(totp, Begin(key, clock), events[..n]), events[n].request);
      }
    }
  }

  /** In every run, while the claim store is reachable, the same code is not accepted twice for one user and
      purpose for the same 30-second step, re-enrolments and key changes included. */
  lemma {:induction false} OneUsePerStep(totp: Totp, key: nat, clock: int, events: seq<Event>, i: nat, j: nat,
                                         step: int)
    requires TimelyRun(totp, Begin(key, clock), events)
    requires var uses := Run(totp, Begin(key, clock), events).uses;
      i < j < |uses| && uses[i].up && uses[j].up && uses[i].key == uses[j].key
    ensures var uses := Run(totp, Begin(key, clock), events).uses;
      !(InWindow(step, uses[i].compared) && InWindow(step, uses[j].compared))
  {
    RunKeepsUsesApart(totp, key, clock, events);
    var uses := Run(totp, Begin(key, clock), events).uses;
    assert Separate(uses[i], uses[j]);
  }

  /** A code that the authenticator of an enrolled user shows is refused exactly when the store is reachable
      and the code was accepted, and recorded, for the same user and purpose less than 120 seconds ago. */
  lemma {:induction false} RefusedExactlyOnReplay(totp: Totp, key: nat, clock: int, events: seq<Event>, r: Request)
    requires TimelyRun(totp, Begin(key, clock), events)
    requires var s := Run(totp, Begin(key, clock), events);
      var a := EntryOf(s, r.user).account;
      s.clock <= r.claimed && a.Enrolled() && Normalised(r.code) != [] && Shown(totp, a, s.key, Normalised(r.code), r.compared)
    ensures var s := Run(totp, Begin(key, clock), events);
      Judge(totp, EntryOf(s, r.user).account, s.claims, s.key, r).Refused? <==>
        r.up && exists i :: 0 <= i < |s.uses| && s.uses[i].up && s.uses[i].key == r.Key() && r.claimed - s.uses[i].claimed < CLAIM_TTL
  {
    RunKeepsUsesApart(totp, key, clock, events);
    var s := Run(totp, Begin(key, clock), events);
    if Taken(s.claims, r.Key(), r.claimed) {
      assert ClaimStands(s.uses, r.Key(), s.claims[r.Key()]);
    }
  }

  /** Every use was of the code of its step, in the window of that step. */
  predicate Genuine(totp: Totp, u: Use) {
    InWindow(u.step, u.compared) && totp(u.secret, u.step) == u.key.code
  }

  lemma {:induction false} UsesAreGenuine(totp: Totp, key: nat, clock: int, events: seq<Event>, i: nat)
    requires i < |Run(totp, Begin(key, clock), events).uses|
    ensures Genuine(totp, Run(totp, Begin(key, clock), events).uses[i])
  {
    if events != [] {
      var n := |events| - 1;
      var s := Run(totp, Begin(key, clock), events[..n]);
      if i < |s.uses| {
        UsesAreGenuine(totp, key, clock, events[..n], i);
      } else {
        var r := events[n].request;
        var secret := Open(EntryOf(s, r.user).account.secret, s.key).value;
        MatchesExactly(totp, secret, Normalised(r.code), r.compared);
      }
    }
  }

  /** So no code of a step is used twice: in every run with the store reachable, two accepted uses of one code by
      one user for one purpose were accepted for different steps. */
  lemma {:induction false} NoStepIsUsedTwice(totp: Totp, key: nat, clock: int, events: seq<Event>, i: nat, j: nat)
    requires TimelyRun(totp, Begin(key, clock), events)
    requires var uses := Run(totp, Begin(key, clock), events).uses;
      i < j < |uses| && uses[i].up && uses[j].up && uses[i].key == uses[j].key
    ensures var uses := Run(totp, Begin(key, clock), events).uses;
      Genuine(totp, uses[i]) && Genuine(totp, uses[j]) && uses[i].step != uses[j].step
  {
    var uses := Run(totp, Begin(key, clock), events).uses;
    UsesAreGenuine(totp, key, clock, events, i);
    UsesAreGenuine(totp, key, clock, events, j);
    OneUsePerStep(totp, key, clock, events, i, j, uses[i].step);
  }

  // ---------------------------------------------------------------------------
  // One request
  // ---------------------------------------------------------------------------

  /** The stored secret opens, and the code is that of a step of the window. */
  ghost predicate FromAuthenticator(totp: Totp, a: Account, key: nat, code: string, now: int) {
    a.secret.Sealed? && a.secret.key == key && CodeOfWindow(totp, a.secret.content, code, now)
  }

  /** The stored set opens, and holds the code. */
  predicate FromSet(a: Account, key: nat, code: string) {
    a.backup.Sealed? && a.backup.key == key && code in a.backup.content
  }

  lemma {:induction false} ShownExactly(totp: Totp, a: Account, key: nat, code: string, now: int)
    ensures Shown(totp, a, key, code, now) <==> FromAuthenticator(totp, a, key, code, now)
  {
    if a.secret.Sealed? { MatchesExactly(totp, a.secret.content, code, now); }
  }

  /** The code is accepted: of the authenticator and not claimed, or else of the set. */
  ghost predicate Accepts(totp: Totp, a: Account, claims: Claims, key: nat, r: Request) {
    var code := Normalised(r.code);
    && a.enabled && a.verified && a.secret != Absent && code != []
    && if FromAuthenticator(totp, a, key, code, r.compared)
       then !(r.up && r.Key() in claims && r.claimed < claims[r.Key()])
       else |code| == 8 && FromSet(a, key, Text.Upper(code))
  }

  /** Exactly which requests are accepted, and how. */
  lemma {:induction false} VerdictExactly(totp: Totp, a: Account, claims: Claims, key: nat, r: Request)
    ensures var code, k, verdict := Normalised(r.code), r.Key(), Judge(totp, a, claims, key, r);
      var enrolled := a.enabled && a.verified && a.secret != Absent;
      var shown := FromAuthenticator(totp, a, key, code, r.compared);
      && (verdict == ByTotp(code) <==>
            enrolled && code != [] && shown && !(r.up && k in claims && r.claimed < claims[k]))
      && (verdict == ByBackup(Text.Upper(code)) <==>
            enrolled && !shown && |code| == 8 && FromSet(a, key, Text.Upper(code)))
      && (verdict == Refused <==> !Accepts(totp, a, claims, key, r))
      && (verdict == Refused || verdict == ByTotp(code) || verdict == ByBackup(Text.Upper(code)))
  {
    ShownExactly(totp, a, key, Normalised(r.code), r.compared);
  }

  /** Exactly what a request leaves behind: an accepted backup code is used up, an accepted authenticator code is
      claimed for two minutes if the store can be reached, and nothing else changes. */
  lemma {:induction false} RequestLeavesExactly(totp: Totp, a: Account, claims: Claims, key: nat, r: Request)
    ensures var verdict, b := Judge(totp, a, claims, key, r), AccountAfter(totp, a, claims, key, r);
      && b == a.(backup := b.backup)
      && (!verdict.ByBackup? ==> b == a)
      && (verdict.ByBackup? ==>
            && b.backup.Sealed? && a.backup.Sealed? && b.backup.key == a.backup.key
            && multiset(b.backup.content) == multiset(a.backup.content) - multiset{verdict.code})
    ensures ClaimsAfter(totp, a, claims, key, r) ==
      if r.up && Judge(totp, a, claims, key, r).ByTotp? then claims[r.Key() := r.claimed + 120] else claims
  {
    var verdict := Judge(totp, a, claims, key, r);
    if verdict.ByBackup? {
      WithoutFirstContents(Open(a.backup, key).value, verdict.code);
    }
  }

  /** Exactly what confirming an enrolment does: a code of the stored secret's window switches the factor on, and
      then requests are accepted; any other code changes nothing. */
  lemma {:induction false} ConfirmExactly(totp: Totp, s: State, user: UserId, code: string, now: int)
    ensures var a, b := EntryOf(s, user).account, EntryOf(Next(totp, s, Confirm(user, code, now)), user).account;
      && b.secret == a.secret && b.backup == a.backup
      && (b.Enrolled() <==> a.Enrolled() || FromAuthenticator(totp, a, s.key, code, now))
      && (!FromAuthenticator(totp, a, s.key, code, now) ==> b == a)
    ensures var t := Next(totp, s, Confirm(user, code, now));
      t == s.(entries := t.entries) && forall u | u != user :: EntryOf(t, u) == EntryOf(s, u)
  {
    ShownExactly(totp, EntryOf(s, user).account, s.key, code, now);
  }

  /** What is compared holds no blanks, and is what was typed when that held none. */
  lemma {:induction false} NormalisedExactly(code: string)
    ensures ' ' !in Normalised(code)
    ensures (forall i | 0 <= i < |code| :: !Text.IsSpace(code[i])) ==> Normalised(code) == code
  {
    Text.WithoutHasNone(Text.Strip(code, Text.IsSpace), ' ');
    if forall i | 0 <= i < |code| :: !Text.IsSpace(code[i]) {
      assert Text.Strip(code, Text.IsSpace) == code;
      assert ' ' !in code by { assert Text.IsSpace(' '); }
      Text.WithoutNothing(code, ' ');
    }
  }

  // ---------------------------------------------------------------------------
  // Backup codes
  // ---------------------------------------------------------------------------

  /** What is left of a set of backup codes and what was used of it make up what was issued. */
  predicate Conserved(entry: Entry) {
    match entry.account.backup
    case Absent => entry.issued == entry.used == multiset{}
    case Sealed(codes, _) => multiset(codes) + entry.used == entry.issued
  }

  lemma {:induction false} VerifyConserves(totp: Totp, entry: Entry, claims: Claims, key: nat, r: Request)
    requires Conserved(entry)
    ensures Conserved(EntryAfter(totp, entry, claims, key, r))
  {
    var verdict := Judge(totp, entry.account, claims, key, r);
    if verdict.ByBackup? {
      WithoutFirstContents(Open(entry.account.backup, key).value, verdict.code);
    }
  }

  lemma {:induction false} StepConserves(totp: Totp, s: State, e: Event, user: UserId)
    requires Conserved(EntryOf(s, user))
    ensures Conserved(EntryOf(Next(totp, s, e), user))
  {
    if e.Verify? && e.request.user == user {
      VerifyConserves(totp, EntryOf(s, user), s.claims, s.key, e.request);
    }
  }

  lemma {:induction false} BackupCodesAreConserved(totp: Totp, key: nat, clock: int, events: seq<Event>, user: UserId)
    ensures Conserved(EntryOf(Run(totp, Begin(key, clock), events), user))
  {
    if events != [] {
      var n := |events| - 1;
      BackupCodesAreConserved(totp, key, clock, events[..n], user);
      StepConserves(totp, Run(totp, Begin(key, clock), events[..n]), events[n], user);
    }
  }

  /** In every run a backup code was used at most as often as the current set holds it, and it is accepted
      exactly when fewer uses than that are on record (and the set can be decrypted). */
  lemma {:induction false} BackupUsesAreBounded(totp: Totp, key: nat, clock: int, events: seq<Event>, user: UserId,
                                                code: string)
    ensures var s := Run(totp, Begin(key, clock), events);
      var entry := EntryOf(s, user);
      && entry.used[code] <= entry.issued[code]
      && (HasBackup(entry.account, s.key, code) <==>
            entry.used[code] < entry.issued[code] && Open(entry.account.backup, s.key).Some?)
  {
    BackupCodesAreConserved(totp, key, clock, events, user);
    var entry := EntryOf(Run(totp, Begin(key, clock), events), user);
    if entry.account.backup.Sealed? {
      assert multiset(entry.account.backup.content)[code] + entry.used[code] == entry.issued[code];
    }
  }
}
