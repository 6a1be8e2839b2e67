/**
 Registration tokens and agent credentials of one agent, as the control plane keeps
 them. Every service call is one transaction: it commits all its guarded updates or
 none of them.
 */
module RegistrationStore {
  import opened Text

  datatype Token = Token(used: bool, revoked: bool, expiresAt: nat)

  /** `token` is the registration token the credential was issued for. */
  datatype Credential = Credential(token: Option<string>, activated: bool, revoked: bool, createdAt: nat) {
    predicate Pending() {
      !activated && !revoked
    }
  }

  datatype Db = Db(tokens: map<string, Token>, credentials: map<string, Credential>) {
    predicate PendingFor(c: string, t: string) {
      c in credentials && credentials[c].token == Some(t) && credentials[c].Pending()
    }
  }

  /** A pending credential blocks its token for five minutes. */
  const PENDING_CREDENTIAL_TTL: nat := 300

  // ---------- guarded updates ----------

  predicate CanClaim(db: Db, t: string, now: nat) {
    t in db.tokens && !db.tokens[t].used && !db.tokens[t].revoked && db.tokens[t].expiresAt > now
  }

  function Claim(db: Db, t: string): Db
    requires t in db.tokens
  {
    db.(tokens := db.tokens[t := db.tokens[t].(used := true)])
  }

  predicate CanActivate(db: Db, c: string) {
    c in db.credentials && db.credentials[c].Pending()
  }

  function Activate(db: Db, c: string): Db
    requires c in db.credentials
  {
    db.(credentials := db.credentials[c := db.credentials[c].(activated := true)])
  }

  function RevokeExcept(db: Db, keep: string): Db {
    db.(credentials := map c | c in db.credentials :: if c == keep then db.credentials[c] else db.credentials[c].(revoked := true))
  }

  /** Only a pending credential can be revoked this way; otherwise nothing changes. */
  function RevokePending(db: Db, c: string): Db {
    if CanActivate(db, c) then db.(credentials := db.credentials[c := db.credentials[c].(revoked := true)]) else db
  }

  ghost predicate PendingQuery(db: Db, t: string, pending: Option<string>) {
    && (pending.Some? ==> db.PendingFor(pending.value, t))
    && (pending.None? ==> forall c :: !db.PendingFor(c, t))
  }

  // ---------- transactions ----------

  predicate Stale(credential: Credential, now: nat) {
    credential.createdAt + PENDING_CREDENTIAL_TTL <= now
  }

  function ActivateClaimed(db: Db, t: string, c: string): Db
    requires t in db.tokens && c in db.credentials
  {
    RevokeExcept(Activate(Claim(db, t), c), c)
  }

  predicate CredentialAccepted(db: Db, c: string, now: nat) {
    && c in db.credentials && !db.credentials[c].revoked
    && (db.credentials[c].activated ||
        (db.credentials[c].token.Some? && CanClaim(db, db.credentials[c].token.value, now)))
  }

  /** Connecting with a pending credential claims its token and activates it. */
  function AuthenticateCredential(db: Db, c: string, now: nat): Db {
    if !CredentialAccepted(db, c, now) || db.credentials[c].activated then db
    else ActivateClaimed(db, db.credentials[c].token.value, c)
  }

  /** `pending` is the pending credential the query returned for the token, if any. */
  predicate TokenAccepted(db: Db, t: string, pending: Option<string>, now: nat) {
    CanClaim(db, t, now) && (pending.Some? && pending.value in db.credentials ==> Stale(db.credentials[pending.value], now))
  }

  /** Connecting with the token issues a new pending credential and retires a stale one. */
  function AuthenticateToken(db: Db, t: string, pending: Option<string>, issued: string, now: nat): Db {
    if !TokenAccepted(db, t, pending, now) then db
    else
      var retired := if pending.Some? then RevokePending(db, pending.value) else db;
      retired.(credentials := retired.credentials[issued := Credential(Some(t), false, false, now)])
  }

  predicate DeliveryAccepted(db: Db, t: string, c: string, now: nat) {
    CanClaim(db, t, now) && CanActivate(db, c)
  }

  /** The acknowledged delivery claims the token, activates the credential and revokes all others. */
  function FinalizeDelivery(db: Db, t: string, c: string, now: nat): Db {
    if DeliveryAccepted(db, t, c, now) then ActivateClaimed(db, t, c) else db
  }

  function ReleaseDelivery(db: Db, c: string): Db {
    RevokePending(db, c)
  }

  function CreateToken(db: Db, t: string, expiresAt: nat): Db {
    var revoked := map o | o in db.tokens :: if db.tokens[o].used then db.tokens[o] else db.tokens[o].(revoked := true);
    db.(tokens := revoked[t := Token(false, false, expiresAt)])
  }

  function RevokeToken(db: Db, t: string): Db {
    if t in db.tokens then db.(tokens := db.tokens[t := db.tokens[t].(revoked := true)]) else db
  }

  // ---------- the service, statement by statement ----------

  class ControlService {
    var db: Db

    constructor (db: Db)
      ensures this.db == db
    {
      this.db := db;
    }

    method ClaimRegistrationToken(t: string, now: nat) returns (ok: bool)
      modifies this
      ensures ok == CanClaim(old(db), t, now)
      ensures db == if ok then Claim(old(db), t) else old(db)
    {
      ok := t in db.tokens && !db.tokens[t].used && !db.tokens[t].revoked && db.tokens[t].expiresAt > now;
      if ok {
        db := db.(tokens := db.tokens[t := db.tokens[t].(used := true)]);
      }
    }

    method ActivateCredential(c: string) returns (ok: bool)
      modifies this
      ensures ok == CanActivate(old(db), c)
      ensures db == if ok then Activate(old(db), c) else old(db)
    {
      ok := c in db.credentials && !db.credentials[c].activated && !db.credentials[c].revoked;
      if ok {
        db := db.(credentials := db.credentials[c := db.credentials[c].(activated := true)]);
      }
    }

    method RevokeCredential(c: string) returns (ok: bool)
      modifies this
      ensures ok == CanActivate(old(db), c)
      ensures db == RevokePending(old(db), c)
    {
      ok := c in db.credentials && !db.credentials[c].activated && !db.credentials[c].revoked;
      if ok {
        db := db.(credentials := db.credentials[c := db.credentials[c].(revoked := true)]);
      }
    }

    method FinalizeAgentRegistrationDelivery(t: string, c: string, now: nat) returns (ok: bool)
      modifies this
      ensures ok == DeliveryAccepted(old(db), t, c, now)
      ensures db == FinalizeDelivery(old(db), t, c, now)
    {
      var begun := db;
      ok := ClaimRegistrationToken(t, now);
      if !ok { return; }
      ok := ActivateCredential(c);
      if !ok {
        db := begun;
        return;
      }
      db := RevokeExcept(db, c);
    }

    method AuthenticateAgentCredential(c: string, now: nat) returns (ok: bool)
      modifies this
      ensures ok == CredentialAccepted(old(db), c, now)
      ensures db == AuthenticateCredential(old(db), c, now)
    {
      if c !in db.credentials || db.credentials[c].revoked { return false; }
      if db.credentials[c].activated { return true; }
      if db.credentials[c].token.None? { return false; }
      ok := ClaimRegistrationToken(db.credentials[c].token.value, now);
      if !ok { return; }
      ok := ActivateCredential(c);
      db := RevokeExcept(db, c);
    }

    /** A pending credential of the token, if there is one. */
    method FindPendingCredentialByRegistrationToken(t: string) returns (pending: Option<string>)
      ensures PendingQuery(db, t, pending)
    {
      if c :| c in db.credentials && db.PendingFor(c, t) {
        return Some(c);
      }
      return None;
    }

    method AuthenticateRegistrationToken(t: string, issued: string, now: nat) returns (ok: bool, ghost pending: Option<string>)
      modifies this
      ensures PendingQuery(old(db), t, pending)
      ensures ok == TokenAccepted(old(db), t, pending, now)
      ensures db == AuthenticateToken(old(db), t, pending, issued, now)
    {
      var found := FindPendingCredentialByRegistrationToken(t);
      pending := found;
      if t !in db.tokens || db.tokens[t].used || db.tokens[t].revoked || db.tokens[t].expiresAt <= now { return false, found; }
      if found.Some? {
        if db.credentials[found.value].createdAt + PENDING_CREDENTIAL_TTL > now { return false, found; }
        var revoked := RevokeCredential(found.value);
      }
      db := db.(credentials := db.credentials[issued := Credential(Some(t), false, false, now)]);
      return true, found;
    }

    method ReleaseAgentRegistrationCredential(c: string)
      modifies this
      ensures db == ReleaseDelivery(old(db), c)
    {
      var revoked := RevokeCredential(c);
    }
  }

  // ---------- safety against any clients ----------

  /** Whatever is presented, acknowledged or released, by whom and when. */
  datatype Event =
    | PresentCredential(c: string, now: nat)
    | PresentToken(t: string, pending: Option<string>, issued: string, now: nat)
    | Acknowledge(t: string, c: string, now: nat)
    | Release(c: string)
    | NewToken(t: string, expiresAt: nat)
    | WithdrawToken(t: string)

  /** IDs are new, the pending query is truthful, and an acknowledgement names an issued pair. */
  ghost predicate Enabled(db: Db, e: Event) {
    match e
    case PresentToken(t, pending, issued, _) =>
      issued !in db.credentials && PendingQuery(db, t, pending)
    case Acknowledge(t, c, _) => c in db.credentials && db.credentials[c].token == Some(t)
    case NewToken(t, _) => t !in db.tokens
    case _ => true
  }

  function Next(db: Db, e: Event): Db {
    match e
    case PresentCredential(c, now) => AuthenticateCredential(db, c, now)
    case PresentToken(t, pending, issued, now) => AuthenticateToken(db, t, pending, issued, now)
    case Acknowledge(t, c, now) => FinalizeDelivery(db, t, c, now)
    case Release(c) => ReleaseDelivery(db, c)
    case NewToken(t, expiresAt) => CreateToken(db, t, expiresAt)
    case WithdrawToken(t) => RevokeToken(db, t)
  }

  ghost predicate Runnable(db: Db, events: seq<Event>)
    decreases |events|
  {
    events == [] || (Enabled(db, events[0]) && Runnable(Next(db, events[0]), events[1..]))
  }

  function Run(db: Db, events: seq<Event>): Db
    decreases |events|
  {
    if events == [] then db else Run(Next(db, events[0]), events[1..])
  }

  predicate ActivatedFrom(db: Db, c: string, t: string) {
    c in db.credentials && db.credentials[c].activated && db.credentials[c].token == Some(t)
  }

  predicate Live(db: Db, c: string) {
    c in db.credentials && db.credentials[c].activated && !db.credentials[c].revoked
  }

  ghost predicate Safe(db: Db) {
    && (forall c :: c in db.credentials && db.credentials[c].token.Some? ==> db.credentials[c].token.value in db.tokens)
    && (forall c, t :: ActivatedFrom(db, c, t) ==> db.tokens[t].used)
    && (forall c, d, t :: ActivatedFrom(db, c, t) && ActivatedFrom(db, d, t) ==> c == d)
    && (forall c, d :: Live(db, c) && Live(db, d) ==> c == d)
    && (forall c, d, t :: db.PendingFor(c, t) && db.PendingFor(d, t) ==> c == d)
  }

  lemma ActivateClaimedSafe(db: Db, t: string, c: string)
    requires Safe(db) && t in db.tokens && !db.tokens[t].used
    requires CanActivate(db, c) && db.credentials[c].token == Some(t)
    ensures Safe(ActivateClaimed(db, t, c))
  {
    var db' := ActivateClaimed(db, t, c);
    assert forall d :: Live(db', d) ==> d == c;
    assert forall d, u :: !db'.PendingFor(d, u);
    forall d, u | ActivatedFrom(db', d, u)
      ensures db'.tokens[u].used && (u == t ==> d == c) && (u != t ==> ActivatedFrom(db, d, u))
    {
      assert d != c ==> ActivatedFrom(db, d, u);
    }
  }

  lemma IssueSafe(db: Db, t: string, pending: Option<string>, issued: string, now: nat)
    requires Safe(db) && Enabled(db, PresentToken(t, pending, issued, now))
    ensures Safe(AuthenticateToken(db, t, pending, issued, now))
  {
    if TokenAccepted(db, t, pending, now) {
      var db' := AuthenticateToken(db, t, pending, issued, now);
      forall d, u | db'.PendingFor(d, u)
        ensures (d == issued && u == t) || (u != t && db.PendingFor(d, u))
      {
        assert d != issued ==> db.PendingFor(d, u);
        assert pending.Some? ==> db.PendingFor(pending.value, t);
      }
      assert forall d, u :: ActivatedFrom(db', d, u) ==> ActivatedFrom(db, d, u);
      assert forall d :: Live(db', d) ==> Live(db, d);
    }
  }

  lemma ReleaseSafe(db: Db, c: string)
    requires Safe(db)
    ensures Safe(RevokePending(db, c))
  {
    var db' := RevokePending(db, c);
    assert forall d, u :: db'.PendingFor(d, u) ==> db.PendingFor(d, u);
    assert forall d, u :: ActivatedFrom(db', d, u) ==> ActivatedFrom(db, d, u);
    assert forall d :: Live(db', d) ==> Live(db, d);
  }

  lemma TokenChangeSafe(db: Db, tokens: map<string, Token>)
    requires Safe(db) && db.tokens.Keys <= tokens.Keys
    requires forall t :: t in db.tokens && db.tokens[t].used ==> tokens[t].used
    ensures Safe(db.(tokens := tokens))
  {
    var db' := db.(tokens := tokens);
    assert forall d, u :: db'.PendingFor(d, u) ==> db.PendingFor(d, u);
    assert forall d, u :: ActivatedFrom(db', d, u) ==> ActivatedFrom(db, d, u);
    assert forall d :: Live(db', d) ==> Live(db, d);
  }

  lemma StepSafe(db: Db, e: Event)
    requires Safe(db) && Enabled(db, e)
    ensures Safe(Next(db, e))
  {
    match e
    case PresentCredential(c, now) =>
      if CredentialAccepted(db, c, now) && !db.credentials[c].activated {
        ActivateClaimedSafe(db, db.credentials[c].token.value, c);
      }
    case PresentToken(t, pending, issued, now) => IssueSafe(db, t, pending, issued, now);
    case Acknowledge(t, c, now) =>
      if DeliveryAccepted(db, t, c, now) {
        ActivateClaimedSafe(db, t, c);
      }
    case Release(c) => ReleaseSafe(db, c);
    case NewToken(t, expiresAt) => TokenChangeSafe(db, CreateToken(db, t, expiresAt).tokens);
    case WithdrawToken(t) => TokenChangeSafe(db, RevokeToken(db, t).tokens);
  }

  lemma {:induction false} RunSafe(db: Db, events: seq<Event>)
    requires Safe(db) && Runnable(db, events)
    ensures Safe(Run(db, events))
    decreases |events|
  {
    hide Safe, Next, Enabled;
    if events != [] {
      StepSafe(db, events[0]);
      RunSafe(Next(db, events[0]), events[1..]);
    }
  }

  /**
   From any safe database, under any sequence of requests: no token ever activates two
   credentials, the agent never has two activated unrevoked credentials, and at most one
   credential per token is pending.
   */
  lemma RegistrationSafety(db: Db, events: seq<Event>, c: string, d: string, t: string)
    requires Safe(db) && Runnable(db, events)
    ensures var end := Run(db, events);
            && (ActivatedFrom(end, c, t) && ActivatedFrom(end, d, t) ==> c == d)
            && (Live(end, c) && Live(end, d) ==> c == d)
            && (end.PendingFor(c, t) && end.PendingFor(d, t) ==> c == d)
            && (ActivatedFrom(end, c, t) ==> t in end.tokens && end.tokens[t].used)
  {
    RunSafe(db, events);
  }
}
