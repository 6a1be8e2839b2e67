/**
 The registration handshake end to end: one agent, one registration token, a control
 plane that issues, finalizes and releases credentials, and connections on which
 requests, replies and acknowledgements may be delayed until after they are useless.
 */
module Registration {
  import opened Text
  import opened RegistrationStore
  import opened AgentIdentity

  /**
   Connections are numbered. `dials` is what the agent presented on each, `issued` the
   credential a registration reply carries, `authed` the accepted credential logins.
   `acked` and `finalized` are the acknowledgements and confirmations ever sent.
   */
  datatype System = System(
    db: Db,
    memory: Memory,
    disk: Disk,
    current: Option<nat>,
    dials: map<nat, Presented>,
    answered: set<nat>,
    issued: map<nat, string>,
    authed: set<nat>,
    acked: set<nat>,
    finalized: set<nat>)

  datatype Event =
    | Dial(conn: nat, presented: Presented)
    | AnswerToken(conn: nat, pending: Option<string>, credential: string, now: nat)
    | AnswerCredential(conn: nat, now: nat)
    | ReadRegistration(conn: nat, progress: Progress)
    | ReceiveAck(conn: nat, now: nat)
    | ReleaseOnClose(conn: nat)
    | ReadFinalized(conn: nat, progress: Progress)
    | ReadAuthSuccess(conn: nat, progress: Progress)
    | Disconnect
    | Restart(readsFile: bool)
    | RevokeByAdmin

  /** Credentials the agent has presented or acknowledged: only these can ever be activated. */
  ghost predicate Sent(s: System, c: string) {
    || (exists conn :: conn in s.dials && s.dials[conn] == ByCredential(c))
    || (exists conn :: conn in s.acked && conn in s.issued && s.issued[conn] == c)
  }

  ghost predicate Armed(s: System, c: string) {
    s.memory.credential == Some(c) || Sent(s, c)
  }

  /** The agent reads only its current connection; the server may act on old ones at any time. */
  ghost predicate Enabled(s: System, t: string, e: Event) {
    match e
    case Dial(conn, presented) => conn !in s.dials && CanPresent(s.memory, presented)
    case AnswerToken(conn, pending, credential, _) =>
      && conn in s.dials && conn !in s.answered && s.dials[conn] == ByToken
      && PendingQuery(s.db, t, pending)
      && credential !in s.db.credentials && !Armed(s, credential)
    case AnswerCredential(conn, _) => conn in s.dials && conn !in s.answered && s.dials[conn].ByCredential?
    case ReadRegistration(conn, _) => s.current == Some(conn) && conn in s.issued
    case ReceiveAck(conn, _) => conn in s.acked && conn in s.issued
    case ReleaseOnClose(conn) => conn in s.issued && conn !in s.finalized
    case ReadFinalized(conn, _) => s.current == Some(conn) && conn in s.finalized
    case ReadAuthSuccess(conn, _) => s.current == Some(conn) && conn in s.authed
    case _ => true
  }

  function Next(s: System, t: string, e: Event): System {
    match e
    case Dial(conn, presented) => s.(current := Some(conn), dials := s.dials[conn := presented])
    case AnswerToken(conn, pending, credential, now) =>
      var answered := s.(db := AuthenticateToken(s.db, t, pending, credential, now), answered := s.answered + {conn});
      if TokenAccepted(s.db, t, pending, now) then answered.(issued := s.issued[conn := credential]) else answered
    case AnswerCredential(conn, now) =>
      if conn in s.dials && s.dials[conn].ByCredential? then
        var c := s.dials[conn].credential;
        var answered := s.(db := AuthenticateCredential(s.db, c, now), answered := s.answered + {conn});
        if CredentialAccepted(s.db, c, now) then answered.(authed := s.authed + {conn}) else answered
      else s
    case ReadRegistration(conn, progress) =>
      if conn in s.issued then Register(s, conn, s.issued[conn], progress) else s
    case ReceiveAck(conn, now) =>
      if conn !in s.issued then s
      else
        var confirmed := s.(db := FinalizeDelivery(s.db, t, s.issued[conn], now));
        if DeliveryAccepted(s.db, t, s.issued[conn], now) then confirmed.(finalized := s.finalized + {conn}) else confirmed
    case ReleaseOnClose(conn) =>
      if conn in s.issued then s.(db := ReleaseDelivery(s.db, s.issued[conn])) else s
    case ReadFinalized(_, progress) => Finalize(s, progress)
    case ReadAuthSuccess(_, progress) =>
      if s.memory.credential.Some? && !s.memory.finalized then Finalize(s, progress) else s
    case Disconnect => s.(current := None)
    case Restart(readsFile) => s.(memory := Boot(s.disk, readsFile), current := None)
    case RevokeByAdmin => s.(db := RevokeToken(s.db, t))
  }

  /** The agent stores the credential before it adopts and acknowledges it. */
  function Register(s: System, conn: nat, c: string, progress: Progress): System {
    var stored := s.disk.(file := Some(CredentialFile(c, false)));
    match progress
    case NotStored => s.(current := None)
    case StoredOnly => s.(disk := stored, current := None)
    case Completed =>
      s.(disk := stored, memory := s.memory.(credential := Some(c), finalized := false), acked := s.acked + {conn})
  }

  function Finalize(s: System, progress: Progress): System {
    var (memory, disk) := Finalized(s.memory, s.disk, progress);
    s.(memory := memory, disk := disk)
  }

  ghost predicate Runnable(s: System, t: string, events: seq<Event>)
    decreases |events|
  {
    events == [] || (Enabled(s, t, events[0]) && Runnable(Next(s, t, events[0]), t, events[1..]))
  }

  function Run(s: System, t: string, events: seq<Event>): System
    decreases |events|
  {
    if events == [] then s else Run(Next(s, t, events[0]), t, events[1..])
  }

  // ---------- the invariant ----------

  predicate Unrevoked(db: Db, t: string, c: string) {
    c in db.credentials && db.credentials[c].token == Some(t) && !db.credentials[c].revoked
  }

  /** Credentials of other origins are settled; the token's own are at most one, apart from revoked ones. */
  ghost predicate StoreSound(db: Db, t: string) {
    && Safe(db) && t in db.tokens
    && (forall c :: c in db.credentials && db.credentials[c].Pending() ==> db.credentials[c].token == Some(t))
    && (forall c, d :: Unrevoked(db, t, c) && Unrevoked(db, t, d) ==> c == d)
    && (forall c :: ActivatedFrom(db, c, t) ==> !db.credentials[c].revoked)
    && (db.tokens[t].used ==> exists c :: ActivatedFrom(db, c, t))
  }

  /** A credential the server could still honour, and the agent could still use, is the stored one. */
  ghost predicate AgentSound(s: System, t: string) {
    && (forall c :: Armed(s, c) && Unrevoked(s.db, t, c) ==>
          && s.disk.file.Some? && s.disk.file.value.credential == c
          && (s.memory.credential == None || s.memory.credential == Some(c)))
    && (forall c :: ActivatedFrom(s.db, c, t) ==> Sent(s, c))
  }

  /** When the current connection carries a registration, everything else the agent used is revoked. */
  ghost predicate ChannelSound(s: System, t: string) {
    && s.acked <= s.issued.Keys <= s.answered <= s.dials.Keys
    && (forall conn :: conn in s.issued ==>
          s.issued[conn] in s.db.credentials && s.db.credentials[s.issued[conn]].token == Some(t))
    && (forall conn, c :: s.current == Some(conn) && conn in s.issued && Armed(s, c) && Unrevoked(s.db, t, c) ==>
          c == s.issued[conn])
  }

  ghost predicate Inv(s: System, t: string) {
    StoreSound(s.db, t) && AgentSound(s, t) && ChannelSound(s, t)
  }

  // ---------- the database steps ----------

  lemma ActivationSound(db: Db, t: string, c: string)
    requires StoreSound(db, t) && !db.tokens[t].used && Unrevoked(db, t, c) && !db.credentials[c].activated
    ensures var db' := ActivateClaimed(db, t, c);
            && StoreSound(db', t)
            && (forall d :: Unrevoked(db', t, d) ==> d == c)
            && (forall d :: ActivatedFrom(db', d, t) ==> d == c)
            && db'.credentials.Keys == db.credentials.Keys
            && (forall d :: d in db.credentials ==> db'.credentials[d].token == db.credentials[d].token)
  {
    var db' := ActivateClaimed(db, t, c);
    ActivateClaimedSafe(db, t, c);
    assert ActivatedFrom(db', c, t);
    forall d | ActivatedFrom(db', d, t)
      ensures d == c
    {
      assert d != c ==> ActivatedFrom(db, d, t);
    }
  }

  lemma IssueSound(db: Db, t: string, pending: Option<string>, credential: string, now: nat)
    requires StoreSound(db, t) && PendingQuery(db, t, pending) && credential !in db.credentials
    requires TokenAccepted(db, t, pending, now)
    ensures var db' := AuthenticateToken(db, t, pending, credential, now);
            && StoreSound(db', t)
            && Unrevoked(db', t, credential)
            && (forall d :: Unrevoked(db', t, d) ==> d == credential)
            && (forall d :: !ActivatedFrom(db', d, t))
            && (forall d :: d in db.credentials ==> d in db'.credentials && db'.credentials[d].token == db.credentials[d].token)
  {
    var db' := AuthenticateToken(db, t, pending, credential, now);
    IssueSafe(db, t, pending, credential, now);
    assert forall d :: !ActivatedFrom(db, d, t);
    forall d | Unrevoked(db', t, d)
      ensures d == credential
    {
      assert !ActivatedFrom(db, d, t);
      assert d != credential ==> db.PendingFor(d, t);
    }
    assert forall d :: ActivatedFrom(db', d, t) ==> ActivatedFrom(db, d, t);
  }

  lemma ReleaseSound(db: Db, t: string, c: string)
    requires StoreSound(db, t)
    ensures var db' := RevokePending(db, c);
            && StoreSound(db', t)
            && (forall d :: Unrevoked(db', t, d) ==> Unrevoked(db, t, d))
            && (forall d :: ActivatedFrom(db', d, t) <==> ActivatedFrom(db, d, t))
            && db'.credentials.Keys == db.credentials.Keys
            && (forall d :: d in db.credentials ==> db'.credentials[d].token == db.credentials[d].token)
  {
    var db' := RevokePending(db, c);
    ReleaseSafe(db, c);
    assert forall d :: Unrevoked(db', t, d) ==> Unrevoked(db, t, d);
    forall d
      ensures ActivatedFrom(db', d, t) <==> ActivatedFrom(db, d, t)
    {}
  }

  // ---------- every step keeps the invariant ----------

  lemma DialKeepsInv(s: System, t: string, conn: nat, presented: Presented)
    requires Inv(s, t) && Enabled(s, t, Dial(conn, presented))
    ensures Inv(Next(s, t, Dial(conn, presented)), t)
  {
    hide StoreSound;
    var s' := Next(s, t, Dial(conn, presented));
    forall c
      ensures Armed(s', c) <==> Armed(s, c)
      ensures Sent(s, c) ==> Sent(s', c)
    {
      if Sent(s, c) {
        DialKeepsSent(s, t, conn, presented, c);
      }
      if o :| o in s'.dials && s'.dials[o] == ByCredential(c) {
        assert o != conn ==> s.dials[o] == ByCredential(c);
      }
    }
  }

  lemma DialKeepsSent(s: System, t: string, conn: nat, presented: Presented, c: string)
    requires conn !in s.dials && Sent(s, c)
    ensures Sent(Next(s, t, Dial(conn, presented)), c)
  {
    var s' := Next(s, t, Dial(conn, presented));
    if o :| o in s.dials && s.dials[o] == ByCredential(c) {
      assert o in s'.dials && s'.dials[o] == ByCredential(c);
    } else if o :| o in s.acked && o in s.issued && s.issued[o] == c {
      assert o in s'.acked && s'.issued[o] == c;
    }
  }

  lemma IssueKeepsInv(s: System, t: string, conn: nat, pending: Option<string>, credential: string, now: nat)
    requires Inv(s, t) && Enabled(s, t, AnswerToken(conn, pending, credential, now)) && TokenAccepted(s.db, t, pending, now)
    ensures Inv(Next(s, t, AnswerToken(conn, pending, credential, now)), t)
  {
    var s' := Next(s, t, AnswerToken(conn, pending, credential, now));
    var db' := AuthenticateToken(s.db, t, pending, credential, now);
    assert s' == s.(db := db', answered := s.answered + {conn}, issued := s.issued[conn := credential]);
    IssueSound(s.db, t, pending, credential, now);
    assert conn !in s.acked && !Armed(s, credential) && conn in s.dials;
    hide StoreSound, AuthenticateToken, TokenAccepted, Sent, Enabled, Next, Unrevoked, ActivatedFrom;
    forall c
      ensures Sent(s', c) <==> Sent(s, c)
    {
      IssueKeepsSent(s, s', conn, credential, c);
    }
    assert forall c :: Unrevoked(s'.db, t, c) ==> !Armed(s', c);
    assert s'.db.credentials[credential].token == Some(t) by { IssuedForToken(s.db, t, pending, credential, now); }
  }

  lemma IssuedForToken(db: Db, t: string, pending: Option<string>, credential: string, now: nat)
    requires TokenAccepted(db, t, pending, now)
    ensures credential in AuthenticateToken(db, t, pending, credential, now).credentials
    ensures AuthenticateToken(db, t, pending, credential, now).credentials[credential].token == Some(t)
  {}

  lemma IssueKeepsSent(s: System, s': System, conn: nat, credential: string, c: string)
    requires s'.dials == s.dials && s'.acked == s.acked && s'.issued == s.issued[conn := credential] && conn !in s.acked
    ensures Sent(s', c) <==> Sent(s, c)
  {
    if o :| o in s'.acked && o in s'.issued && s'.issued[o] == c {
      assert o in s.issued && s.issued[o] == c;
    }
    if o :| o in s.acked && o in s.issued && s.issued[o] == c {
      assert s'.issued[o] == c;
    }
  }

  /** Steps that only revoke, or change nothing the agent uses, keep the agent's side of the invariant. */
  lemma DatabaseStepKeepsInv(s: System, t: string, s': System)
    requires Inv(s, t) && StoreSound(s'.db, t)
    requires s'.memory == s.memory && s'.disk == s.disk && s'.current == s.current && s'.dials == s.dials
    requires s'.issued == s.issued && s'.acked == s.acked && s.answered <= s'.answered <= s.dials.Keys
    requires s'.db.credentials.Keys == s.db.credentials.Keys
    requires forall c :: c in s.db.credentials ==> s'.db.credentials[c].token == s.db.credentials[c].token
    requires forall c :: Unrevoked(s'.db, t, c) ==> Unrevoked(s.db, t, c)
    requires forall c :: ActivatedFrom(s'.db, c, t) ==> Sent(s, c)
    ensures Inv(s', t)
  {
    hide StoreSound, Unrevoked, ActivatedFrom;
    assert forall c :: Sent(s', c) <==> Sent(s, c);
  }

  lemma AnswerTokenKeepsInv(s: System, t: string, conn: nat, pending: Option<string>, credential: string, now: nat)
    requires Inv(s, t) && Enabled(s, t, AnswerToken(conn, pending, credential, now))
    ensures Inv(Next(s, t, AnswerToken(conn, pending, credential, now)), t)
  {
    if TokenAccepted(s.db, t, pending, now) {
      IssueKeepsInv(s, t, conn, pending, credential, now);
    } else {
      DatabaseStepKeepsInv(s, t, Next(s, t, AnswerToken(conn, pending, credential, now)));
    }
  }

  /** Activating an armed credential: the agent has it stored, so the used token is accounted for. */
  lemma ActivationKeepsInv(s: System, t: string, c: string, s': System)
    requires Inv(s, t) && Sent(s, c) && CanActivate(s.db, c) && !s.db.tokens[t].used
    requires s'.db == ActivateClaimed(s.db, t, c)
    requires s'.memory == s.memory && s'.disk == s.disk && s'.current == s.current && s'.dials == s.dials
    requires s'.issued == s.issued && s'.acked == s.acked && s.answered <= s'.answered <= s.dials.Keys
    ensures Inv(s', t)
  {
    assert Unrevoked(s.db, t, c);
    ActivationSound(s.db, t, c);
    DatabaseStepKeepsInv(s, t, s');
  }

  lemma AnswerCredentialKeepsInv(s: System, t: string, conn: nat, now: nat)
    requires Inv(s, t) && Enabled(s, t, AnswerCredential(conn, now))
    ensures Inv(Next(s, t, AnswerCredential(conn, now)), t)
  {
    var c := s.dials[conn].credential;
    var s' := Next(s, t, AnswerCredential(conn, now));
    assert Sent(s, c);
    if CredentialAccepted(s.db, c, now) && !s.db.credentials[c].activated {
      ActivationKeepsInv(s, t, c, s');
    } else {
      DatabaseStepKeepsInv(s, t, s');
    }
  }

  lemma ReceiveAckKeepsInv(s: System, t: string, conn: nat, now: nat)
    requires Inv(s, t) && Enabled(s, t, ReceiveAck(conn, now))
    ensures Inv(Next(s, t, ReceiveAck(conn, now)), t)
  {
    var s' := Next(s, t, ReceiveAck(conn, now));
    assert Sent(s, s.issued[conn]);
    if DeliveryAccepted(s.db, t, s.issued[conn], now) {
      ActivationKeepsInv(s, t, s.issued[conn], s');
    } else {
      DatabaseStepKeepsInv(s, t, s');
    }
  }

  lemma RegisterKeepsInv(s: System, t: string, conn: nat, progress: Progress)
    requires Inv(s, t) && Enabled(s, t, ReadRegistration(conn, progress))
    ensures Inv(Next(s, t, ReadRegistration(conn, progress)), t)
  {
    hide StoreSound;
    var c := s.issued[conn];
    var s' := Next(s, t, ReadRegistration(conn, progress));
    assert s' == Register(s, conn, c, progress);
    forall d
      ensures Sent(s', d) ==> Sent(s, d) || d == c
      ensures Sent(s, d) ==> Sent(s', d)
    {
      if o :| o in s'.acked && o in s'.issued && s'.issued[o] == d {
        assert d != c ==> o in s.acked && s.issued[o] == d;
      }
      if o :| o in s.acked && o in s.issued && s.issued[o] == d {
        assert o in s'.acked && s'.issued[o] == d;
      }
    }
  }

  lemma RestartKeepsInv(s: System, t: string, readsFile: bool)
    requires Inv(s, t)
    ensures Inv(Next(s, t, Restart(readsFile)), t)
  {
    var s' := Next(s, t, Restart(readsFile));
    hide StoreSound;
    assert forall c :: Sent(s', c) <==> Sent(s, c);
  }

  lemma FinalizeKeepsInv(s: System, t: string, progress: Progress)
    requires Inv(s, t)
    ensures Inv(Finalize(s, progress), t)
  {
    hide StoreSound;
    var s' := Finalize(s, progress);
    assert forall c :: Sent(s', c) <==> Sent(s, c);
  }

  lemma RevokeTokenSound(db: Db, t: string)
    requires StoreSound(db, t)
    ensures StoreSound(RevokeToken(db, t), t)
  {
    TokenChangeSafe(db, RevokeToken(db, t).tokens);
    var db' := RevokeToken(db, t);
    assert forall c :: ActivatedFrom(db', c, t) <==> ActivatedFrom(db, c, t);
    assert forall c :: Unrevoked(db', t, c) <==> Unrevoked(db, t, c);
  }

  lemma StepKeepsInv(s: System, t: string, e: Event)
    requires Inv(s, t) && Enabled(s, t, e)
    ensures Inv(Next(s, t, e), t)
  {
    match e
    case Dial(conn, presented) => DialKeepsInv(s, t, conn, presented);
    case AnswerToken(conn, pending, credential, now) => AnswerTokenKeepsInv(s, t, conn, pending, credential, now);
    case AnswerCredential(conn, now) => AnswerCredentialKeepsInv(s, t, conn, now);
    case ReadRegistration(conn, progress) => RegisterKeepsInv(s, t, conn, progress);
    case ReceiveAck(conn, now) => ReceiveAckKeepsInv(s, t, conn, now);
    case ReleaseOnClose(conn) =>
      ReleaseSound(s.db, t, s.issued[conn]);
      DatabaseStepKeepsInv(s, t, Next(s, t, e));
    case ReadFinalized(_, progress) => FinalizeKeepsInv(s, t, progress);
    case ReadAuthSuccess(_, progress) => FinalizeKeepsInv(s, t, progress);
    case Disconnect => DisconnectKeepsInv(s, t);
    case Restart(readsFile) => RestartKeepsInv(s, t, readsFile);
    case RevokeByAdmin =>
      RevokeTokenSound(s.db, t);
      DatabaseStepKeepsInv(s, t, Next(s, t, e));
  }

  lemma DisconnectKeepsInv(s: System, t: string)
    requires Inv(s, t)
    ensures Inv(s.(current := None), t)
  {
    hide StoreSound;
    assert forall c :: Sent(s.(current := None), c) <==> Sent(s, c);
  }

  lemma {:induction false} RunKeepsInv(s: System, t: string, events: seq<Event>)
    requires Inv(s, t) && Runnable(s, t, events)
    ensures Inv(Run(s, t, events), t)
    decreases |events|
  {
    hide Inv, Next, Enabled;
    if events != [] {
      StepKeepsInv(s, t, events[0]);
      RunKeepsInv(Next(s, t, events[0]), t, events[1..]);
    }
  }

  // ---------- main result ----------

  /**
   A new token and an agent that may already hold a credential from an earlier life:
   the token is unused, nothing was issued for it, and no other credential is pending.
   */
  ghost predicate Initial(s: System, t: string) {
    && Safe(s.db) && t in s.db.tokens && !s.db.tokens[t].used
    && (forall c :: c in s.db.credentials ==> s.db.credentials[c].token != Some(t) && !s.db.credentials[c].Pending())
    && s.current == None && s.dials == map[] && s.answered == {} && s.issued == map[]
    && s.authed == {} && s.acked == {} && s.finalized == {}
  }

  lemma InitialInv(s: System, t: string)
    requires Initial(s, t)
    ensures Inv(s, t)
  {}

  /**
   In every run, however connections drop and acknowledgements, releases and restarts
   interleave: once the token is used, exactly one of its credentials was activated, it
   is not revoked, and it is the credential in the agent's file.
   */
  lemma UsedTokenIsStored(s: System, t: string, events: seq<Event>)
    requires Initial(s, t) && Runnable(s, t, events)
    ensures t in Run(s, t, events).db.tokens
    ensures var end := Run(s, t, events);
            end.db.tokens[t].used ==>
              end.disk.file.Some? && ActivatedFrom(end.db, end.disk.file.value.credential, t)
              && Live(end.db, end.disk.file.value.credential)
              && forall c :: ActivatedFrom(end.db, c, t) ==> c == end.disk.file.value.credential
  {
    InitialInv(s, t);
    RunKeepsInv(s, t, events);
    var end := Run(s, t, events);
    hide Run, Runnable, Initial;
    if end.db.tokens[t].used {
      var c :| ActivatedFrom(end.db, c, t);
      assert Unrevoked(end.db, t, c) && Armed(end, c);
    }
  }
}
