/**
 What logins and tokens are worth: an accepted login is by a live credential, a revoked
 credential never gets in again, a token is used only while it is valid, and a valid token
 does register its agent.
 */
module RegistrationUse {
  import opened Text
  import opened RegistrationStore
  import opened AgentIdentity
  import R = Registration

  // ---- logins

  /** Accepted exactly when the credential is live afterwards, and then nothing else is. */
  lemma AcceptedIffLive(db: Db, c: string, now: nat)
    requires Safe(db)
    ensures CredentialAccepted(db, c, now) <==> Live(AuthenticateCredential(db, c, now), c)
    ensures CredentialAccepted(db, c, now) ==> forall d :: Live(AuthenticateCredential(db, c, now), d) ==> d == c
    ensures !CredentialAccepted(db, c, now) ==> AuthenticateCredential(db, c, now) == db
  {
  }

  predicate Revoked(db: Db, c: string) {
    c in db.credentials && db.credentials[c].revoked
  }

  lemma StepKeepsRevoked(db: Db, e: Event, c: string)
    requires Enabled(db, e) && Revoked(db, c)
    ensures Revoked(Next(db, e), c)
  {
  }

  lemma {:induction false} RunKeepsRevoked(db: Db, events: seq<Event>, c: string)
    requires Runnable(db, events) && Revoked(db, c)
    ensures Revoked(Run(db, events), c)
    decreases |events|
  {
    hide Next, Enabled, Revoked;
    if events != [] {
      StepKeepsRevoked(db, events[0], c);
      RunKeepsRevoked(Next(db, events[0]), events[1..], c);
    }
  }

  /** From the moment a credential is revoked no login with it is ever accepted. */
  lemma RevokedNeverLogsIn(db: Db, events: seq<Event>, c: string, now: nat)
    requires Runnable(db, events) && Revoked(db, c)
    ensures !CredentialAccepted(Run(db, events), c, now)
  {
    hide Run, Runnable;
    RunKeepsRevoked(db, events, c);
  }

  /** Over every run, an accepted login names the one credential that is live then. */
  lemma AcceptedLoginIsLive(db: Db, events: seq<Event>, c: string, now: nat)
    requires Safe(db) && Runnable(db, events) && CredentialAccepted(Run(db, events), c, now)
    ensures var after := Next(Run(db, events), PresentCredential(c, now));
            Live(after, c) && forall d :: Live(after, d) ==> d == c
  {
    hide Run, Runnable, Safe;
    RunSafe(db, events);
    AcceptedIffLive(Run(db, events), c, now);
  }

  // ---- tokens

  /** The moment at which a client's message is handled. */
  function Moment(e: Event): Option<nat> {
    match e
    case PresentCredential(_, now) => Some(now)
    case PresentToken(_, _, _, now) => Some(now)
    case Acknowledge(_, _, now) => Some(now)
    case _ => None
  }

  /** Known, not withdrawn, and not past its expiry. */
  predicate ValidAt(db: Db, t: string, e: Event) {
    t in db.tokens && !db.tokens[t].revoked && Moment(e).Some? && Moment(e).value < db.tokens[t].expiresAt
  }

  predicate Used(db: Db, t: string) {
    t in db.tokens && db.tokens[t].used
  }

  lemma StepUsesValidToken(db: Db, e: Event, t: string)
    requires Enabled(db, e) && !Used(db, t) && Used(Next(db, e), t)
    ensures ValidAt(db, t, e)
  {
  }

  /** A token becomes used only by a message that arrives while it is unrevoked and unexpired. */
  lemma {:induction false} UsedWhileValid(db: Db, events: seq<Event>, t: string) returns (i: nat)
    requires Runnable(db, events) && !Used(db, t) && Used(Run(db, events), t)
    ensures i < |events| && ValidAt(Run(db, events[..i]), t, events[i])
    decreases |events|
  {
    hide Next, Enabled, Used, ValidAt;
    var e, rest := events[0], events[1..];
    if Used(Next(db, e), t) {
      StepUsesValidToken(db, e, t);
      i := 0;
      assert events[..0] == [];
    } else {
      var j := UsedWhileValid(Next(db, e), rest, t);
      i := j + 1;
      assert events[..i][0] == e && events[..i][1..] == rest[..j];
    }
  }

  /** A pending credential holds its token for three hundred seconds, no more and no less. */
  lemma PendingBlocksFiveMinutes(db: Db, t: string, c: string, now: nat)
    requires db.PendingFor(c, t)
    ensures TokenAccepted(db, t, Some(c), now) <==>
              t in db.tokens && !db.tokens[t].used && !db.tokens[t].revoked && now < db.tokens[t].expiresAt
              && now >= db.credentials[c].createdAt + 300
  {
  }

  /** Releasing a delivery frees the token at once. */
  lemma ReleaseFreesToken(db: Db, t: string, c: string, now: nat)
    requires Safe(db) && db.PendingFor(c, t) && CanClaim(db, t, now)
    ensures var after := ReleaseDelivery(db, c);
            Revoked(after, c) && PendingQuery(after, t, None) && TokenAccepted(after, t, None, now)
  {
    var after := ReleaseDelivery(db, c);
    forall d
      ensures !after.PendingFor(d, t)
    {
      if after.PendingFor(d, t) { assert db.PendingFor(d, t); }
    }
  }

  /** A claimable token registers: its credential becomes the only live one, and the token is used. */
  lemma TokenRegisters(db: Db, t: string, pending: Option<string>, c: string, now: nat)
    requires Safe(db) && PendingQuery(db, t, pending) && c !in db.credentials && CanClaim(db, t, now)
    requires pending.Some? ==> db.credentials[pending.value].createdAt + 300 <= now
    ensures var issued := AuthenticateToken(db, t, pending, c, now);
            var done := FinalizeDelivery(issued, t, c, now);
            && issued.PendingFor(c, t)
            && Live(done, c) && Used(done, t) && forall d :: d in done.credentials && d != c ==> done.credentials[d].revoked
  {
  }

  /** A new token replaces the unused ones of the agent. */
  lemma NewTokenReplaces(db: Db, t: string, o: string, expiresAt: nat, now: nat)
    requires t !in db.tokens && o in db.tokens
    ensures CanClaim(CreateToken(db, t, expiresAt), t, now) <==> now < expiresAt
    ensures !CanClaim(CreateToken(db, t, expiresAt), o, now)
    ensures !CanClaim(RevokeToken(db, o), o, now)
  {
  }

  // ---- the agent's side

  /** After a restart that reads its file the agent can present the stored credential, and a token if it has one. */
  lemma BootPresentsExactly(disk: Disk, x: Presented)
    requires disk.file.Some?
    ensures CanPresent(Boot(disk, true), x) <==>
              x == ByCredential(disk.file.value.credential) || (x == ByToken && (disk.configToken || disk.flagToken))
    ensures disk.file.value.finalized ==> Primary(Boot(disk, true)) == Some(ByCredential(disk.file.value.credential))
    ensures !disk.file.value.finalized && (disk.configToken || disk.flagToken) ==> Primary(Boot(disk, true)) == Some(ByToken)
  {
  }

  /** Without its file it can only present a token. */
  lemma BootWithoutFile(disk: Disk, readsFile: bool, x: Presented)
    requires disk.file.None? || !readsFile
    ensures CanPresent(Boot(disk, readsFile), x) <==> x == ByToken && (disk.configToken || disk.flagToken)
  {
  }

  // ---- the whole handshake

  lemma HandshakeStepKeepsRevoked(s: R.System, t: string, e: R.Event, c: string)
    requires R.Enabled(s, t, e) && Revoked(s.db, c)
    ensures Revoked(R.Next(s, t, e).db, c)
    ensures forall conn :: conn in R.Next(s, t, e).authed && conn !in s.authed ==> conn in s.dials && s.dials[conn] != ByCredential(c)
  {
    hide R.Armed, PendingQuery, Boot, Finalized;
  }

  lemma DialsStay(s: R.System, t: string, e: R.Event, conn: nat)
    requires R.Enabled(s, t, e) && conn in s.dials
    ensures conn in R.Next(s, t, e).dials && R.Next(s, t, e).dials[conn] == s.dials[conn]
  {
    hide R.Armed, PendingQuery, Boot, Finalized;
  }

  lemma {:induction false} RunDialsStay(s: R.System, t: string, events: seq<R.Event>, conn: nat)
    requires R.Runnable(s, t, events) && conn in s.dials
    ensures conn in R.Run(s, t, events).dials && R.Run(s, t, events).dials[conn] == s.dials[conn]
    decreases |events|
  {
    hide R.Next, R.Enabled;
    if events != [] {
      DialsStay(s, t, events[0], conn);
      RunDialsStay(R.Next(s, t, events[0]), t, events[1..], conn);
    }
  }

  /** No connection is ever let in on a credential that was revoked before. */
  lemma {:induction false} RevokedIsNeverLetIn(s: R.System, t: string, events: seq<R.Event>, c: string, conn: nat)
    requires R.Runnable(s, t, events) && Revoked(s.db, c)
    requires conn in R.Run(s, t, events).authed && conn !in s.authed
    ensures conn in R.Run(s, t, events).dials && R.Run(s, t, events).dials[conn] != ByCredential(c)
    decreases |events|
  {
    hide R.Next, R.Enabled, Revoked;
    if events != [] {
      var next := R.Next(s, t, events[0]);
      HandshakeStepKeepsRevoked(s, t, events[0], c);
      if conn in next.authed {
        DialsStay(s, t, events[0], conn);
        RunDialsStay(next, t, events[1..], conn);
      } else {
        RevokedIsNeverLetIn(next, t, events[1..], c, conn);
      }
    }
  }

  function Handshake(conn: nat, pending: Option<string>, c: string, now: nat): seq<R.Event> {
    [R.Dial(conn, ByToken), R.AnswerToken(conn, pending, c, now), R.ReadRegistration(conn, Completed), R.ReceiveAck(conn, now), R.ReadFinalized(conn, Completed)]
  }

  lemma Unroll(s: R.System, t: string, e: R.Event, rest: seq<R.Event>)
    ensures R.Runnable(s, t, [e] + rest) <==> R.Enabled(s, t, e) && R.Runnable(R.Next(s, t, e), t, rest)
    ensures R.Run(s, t, [e] + rest) == R.Run(R.Next(s, t, e), t, rest)
  {
    hide R.Next, R.Enabled;
    assert ([e] + rest)[1..] == rest;
  }

  lemma Last(s: R.System, t: string, e: R.Event)
    ensures R.Runnable(s, t, [e]) <==> R.Enabled(s, t, e)
    ensures R.Run(s, t, [e]) == R.Next(s, t, e)
  {
    hide R.Next, R.Enabled;
    assert [e][1..] == [];
  }

  /** The first two steps: the agent presents its token and is issued a credential. */
  lemma IssueSteps(s: R.System, t: string, conn: nat, pending: Option<string>, c: string, now: nat)
    requires CanPresent(s.memory, ByToken) && conn !in s.dials && conn !in s.answered
    requires Safe(s.db) && PendingQuery(s.db, t, pending) && c !in s.db.credentials && !R.Armed(s, c) && CanClaim(s.db, t, now)
    requires pending.Some? ==> s.db.credentials[pending.value].createdAt + 300 <= now
    ensures var s1 := R.Next(s, t, R.Dial(conn, ByToken));
            var s2 := R.Next(s1, t, R.AnswerToken(conn, pending, c, now));
            && R.Enabled(s, t, R.Dial(conn, ByToken)) && R.Enabled(s1, t, R.AnswerToken(conn, pending, c, now))
            && s2.db == AuthenticateToken(s.db, t, pending, c, now)
            && s2.current == Some(conn) && conn in s2.issued && s2.issued[conn] == c && s2.memory == s.memory && s2.disk == s.disk
  {
    hide AuthenticateToken, Safe;
    TokenDialArmsNothing(s, t, conn, c);
  }

  lemma TokenDialArmsNothing(s: R.System, t: string, conn: nat, c: string)
    requires conn !in s.dials
    ensures R.Armed(R.Next(s, t, R.Dial(conn, ByToken)), c) <==> R.Armed(s, c)
  {
    var s1 := R.Next(s, t, R.Dial(conn, ByToken));
    forall other
      ensures (other in s1.dials && s1.dials[other] == ByCredential(c)) <==> (other in s.dials && s.dials[other] == ByCredential(c))
    {
    }
  }

  /** The last three: it stores and acknowledges the credential, the server finalizes, the agent marks it final. */
  lemma ConfirmSteps(s: R.System, t: string, conn: nat, c: string, now: nat)
    requires s.current == Some(conn) && conn in s.issued && s.issued[conn] == c && DeliveryAccepted(s.db, t, c, now)
    ensures var s3 := R.Next(s, t, R.ReadRegistration(conn, Completed));
            var s4 := R.Next(s3, t, R.ReceiveAck(conn, now));
            var s5 := R.Next(s4, t, R.ReadFinalized(conn, Completed));
            && R.Enabled(s, t, R.ReadRegistration(conn, Completed)) && R.Enabled(s3, t, R.ReceiveAck(conn, now)) && R.Enabled(s4, t, R.ReadFinalized(conn, Completed))
            && s5.db == FinalizeDelivery(s.db, t, c, now)
            && s5.disk.file == Some(CredentialFile(c, true)) && !s5.disk.configToken && Primary(s5.memory) == Some(ByCredential(c)) && !CanPresent(s5.memory, ByToken)
  {
    hide FinalizeDelivery, DeliveryAccepted, R.Armed;
  }

  /**
   From every reachable state: an agent that holds a valid token registers on a new connection,
   at once or, if a delivery is pending, when three hundred seconds have passed.
   */
  lemma HandshakeCompletes(s: R.System, t: string, conn: nat, pending: Option<string>, c: string, now: nat)
    requires R.Inv(s, t) && CanPresent(s.memory, ByToken) && conn !in s.dials && c !in s.db.credentials && !R.Armed(s, c)
    requires CanClaim(s.db, t, now) && PendingQuery(s.db, t, pending)
    requires pending.Some? ==> s.db.credentials[pending.value].createdAt + 300 <= now
    ensures R.Runnable(s, t, Handshake(conn, pending, c, now))
    ensures var end := R.Run(s, t, Handshake(conn, pending, c, now));
            && Used(end.db, t) && Live(end.db, c) && (forall d :: Live(end.db, d) ==> d == c)
            && end.disk.file == Some(CredentialFile(c, true)) && !end.disk.configToken
            && Primary(end.memory) == Some(ByCredential(c)) && !CanPresent(end.memory, ByToken)
  {
    assert Safe(s.db) && conn !in s.answered;
    hide R.Inv, R.Next, R.Enabled, R.Run, R.Runnable, R.Armed, AuthenticateToken, FinalizeDelivery, Primary, CanPresent, Safe;
    IssueSteps(s, t, conn, pending, c, now);
    TokenRegisters(s.db, t, pending, c, now);
    var e1, e2, e3 := R.Dial(conn, ByToken), R.AnswerToken(conn, pending, c, now), R.ReadRegistration(conn, Completed);
    var e4, e5 := R.ReceiveAck(conn, now), R.ReadFinalized(conn, Completed);
    var s1 := R.Next(s, t, e1);
    var s2 := R.Next(s1, t, e2);
    IssuedIsDeliverable(s.db, t, pending, c, now);
    ConfirmSteps(s2, t, conn, c, now);
    var s3 := R.Next(s2, t, e3);
    var s4 := R.Next(s3, t, e4);
    Last(s4, t, e5);
    Unroll(s3, t, e4, [e5]);
    Unroll(s2, t, e3, [e4] + [e5]);
    Unroll(s1, t, e2, [e3] + ([e4] + [e5]));
    Unroll(s, t, e1, [e2] + ([e3] + ([e4] + [e5])));
    assert Handshake(conn, pending, c, now) == [e1] + ([e2] + ([e3] + ([e4] + [e5])));
  }

  lemma IssuedIsDeliverable(db: Db, t: string, pending: Option<string>, c: string, now: nat)
    requires PendingQuery(db, t, pending) && CanClaim(db, t, now) && AuthenticateToken(db, t, pending, c, now).PendingFor(c, t)
    ensures DeliveryAccepted(AuthenticateToken(db, t, pending, c, now), t, c, now)
  {
  }
}
