/** What one service call needs in order to change an account or to hand out a session. */
module AuthAccess {
  import opened Text
  import opened AuthModel
  import opened AuthRuns

  /** An unused, unexpired token of this purpose, owned by `userId`. */
  predicate LiveToken(st: State, now: int, raw: string, purpose: Purpose, userId: string) {
    var h := HashToken(raw);
    h in st.tokens && st.tokens[h].purpose == purpose && st.tokens[h].userId == userId
    && st.tokens[h].usedAt.None? && now < st.tokens[h].expiresAt
  }

  /** The old password, or a live reset token; and a password the policy accepts. */
  predicate MayChangePassword(cfg: Config, st: State, d: Draw, c: Call, u: User) {
    match c
    case CallChangePassword(userId, current, next) =>
      userId == u.id && cfg.checkPassword(current, u.passwordHash)
        && cfg.passwordAccepted(next, u.email, u.organisation)
    case CallResetPassword(raw, next) =>
      LiveToken(st, d.now, raw, ResetPasswordPurpose, u.id) && cfg.passwordAccepted(next, u.email, u.organisation)
    case _ => false
  }

  predicate MayEnableMFA(cfg: Config, d: Draw, c: Call, u: User) {
    c.CallConfirmMFA? && c.userId == u.id && TotpValid(cfg, u, c.code, d.now)
  }

  predicate MayDisableMFA(cfg: Config, c: Call, u: User) {
    c.CallDisableMFA? && c.userId == u.id && cfg.checkPassword(c.password, u.passwordHash)
  }

  predicate MayVerifyEmail(st: State, d: Draw, c: Call, u: User) {
    c.CallVerifyEmail? && LiveToken(st, d.now, c.raw, VerifyEmailPurpose, u.id)
  }

  /** Each field of an account changes only through the call that is for it, with the proof that call asks for. */
  predicate AuthorisedChange(cfg: Config, st: State, d: Draw, c: Call, u: User, u': User) {
    && u'.id == u.id && u'.email == u.email && u'.organisation == u.organisation && u'.disabled == u.disabled
    && (u'.passwordHash != u.passwordHash ==> MayChangePassword(cfg, st, d, c, u))
    && (u'.mfaEnabled && !u.mfaEnabled ==> MayEnableMFA(cfg, d, c, u))
    && (u.mfaEnabled && !u'.mfaEnabled ==> MayDisableMFA(cfg, c, u))
    && (u'.mfaSecret != u.mfaSecret ==> (c.CallSetupMFA? && c.userId == u.id) || MayDisableMFA(cfg, c, u))
    && (u'.emailVerified != u.emailVerified ==> MayVerifyEmail(st, d, c, u) && u'.emailVerified)
  }

  /** Saving a record under its own id and address changes that account only. */
  lemma SavedAccounts(st: State, u: User, id: string)
    requires u.id in st.users && id in st.users && UpdateUser(st, u).Ok?
    ensures var st' := UpdateUser(st, u).value;
            id in st'.users && st'.users[id] == if id == u.id then u else st.users[id]
  {
    hide NormalizeEmail;
  }

  lemma PasswordChangeIsAuthorised(cfg: Config, st: State, d: Draw, userId: string, current: string, next: string,
                                   id: string)
    requires UsersAgree(st) && id in st.users
    ensures var st' := ChangePassword(cfg, st, d, userId, current, next).0;
            id in st'.users && AuthorisedChange(cfg, st, d, CallChangePassword(userId, current, next), st.users[id],
                                                st'.users[id])
  {
    hide NormalizeEmail, TotpValid, UpdateUser, LiveToken;
    if userId in st.users && d.passwordHash.Some? {
      var u := st.users[userId].(passwordHash := d.passwordHash.value);
      if UpdateUser(st, u).Ok? { SavedAccounts(st, u, id); }
    }
  }

  lemma SecretChangeIsAuthorised(cfg: Config, st: State, d: Draw, userId: string, id: string)
    requires UsersAgree(st) && id in st.users
    ensures var st' := SetupMFA(st, d, userId).0;
            id in st'.users && AuthorisedChange(cfg, st, d, CallSetupMFA(userId), st.users[id], st'.users[id])
  {
    hide NormalizeEmail, TotpValid, UpdateUser, LiveToken;
    if userId in st.users {
      var u := st.users[userId].(mfaSecret := d.secret);
      if UpdateUser(st, u).Ok? { SavedAccounts(st, u, id); }
    }
  }

  lemma EnablingIsAuthorised(cfg: Config, st: State, d: Draw, userId: string, code: string, id: string)
    requires UsersAgree(st) && id in st.users
    ensures var st' := ConfirmMFA(cfg, st, d, userId, code).0;
            id in st'.users && AuthorisedChange(cfg, st, d, CallConfirmMFA(userId, code), st.users[id], st'.users[id])
  {
    hide NormalizeEmail, TotpValid, UpdateUser, LiveToken;
    if userId in st.users {
      var u := st.users[userId].(mfaEnabled := true);
      if UpdateUser(st, u).Ok? { SavedAccounts(st, u, id); }
    }
  }

  lemma DisablingIsAuthorised(cfg: Config, st: State, d: Draw, userId: string, pw: string, id: string)
    requires UsersAgree(st) && id in st.users
    ensures var st' := DisableMFA(cfg, st, userId, pw).0;
            id in st'.users && AuthorisedChange(cfg, st, d, CallDisableMFA(userId, pw), st.users[id], st'.users[id])
  {
    hide NormalizeEmail, TotpValid, UpdateUser, LiveToken;
    if userId in st.users {
      var u := st.users[userId].(mfaEnabled := false, mfaSecret := "");
      if UpdateUser(st, u).Ok? { SavedAccounts(st, u, id); }
    }
  }

  lemma VerifyEmailChangeIsAuthorised(cfg: Config, st: State, d: Draw, raw: string, id: string)
    requires UsersAgree(st) && TokensKeyed(st) && id in st.users
    ensures var st' := VerifyEmail(st, d, raw).0;
            id in st'.users && AuthorisedChange(cfg, st, d, CallVerifyEmail(raw), st.users[id], st'.users[id])
  {
    hide NormalizeEmail, HashToken, TotpValid, LoadToken;
  }

  lemma ResetChangeIsAuthorised(cfg: Config, st: State, d: Draw, raw: string, pw: string, id: string)
    requires UsersAgree(st) && TokensKeyed(st) && id in st.users
    ensures var st' := ResetPassword(cfg, st, d, raw, pw).0;
            id in st'.users && AuthorisedChange(cfg, st, d, CallResetPassword(raw, pw), st.users[id], st'.users[id])
  {
    hide NormalizeEmail, HashToken, TotpValid, LoadToken, RevokeIfOwned;
  }

  lemma NewAccountChangesNoOther(cfg: Config, st: State, d: Draw, c: Call, id: string)
    requires Fresh(st, d) && id in st.users && (c.CallRegister? || c.CallEnsureExternalUser?)
    ensures var st' := Step(cfg, st, d, c).0; id in st'.users && st'.users[id] == st.users[id]
  {
    hide NormalizeEmail, HashToken, TotpValid, Trim, VerifyEmail, Login, VerifyMFA, Refresh, ResetPassword,
         ChangePassword, SetupMFA, ConfirmMFA, DisableMFA;
  }

  lemma NoChangeIsAuthorised(cfg: Config, st: State, d: Draw, c: Call, u: User)
    ensures AuthorisedChange(cfg, st, d, c, u, u)
  {
  }

  /** No service call changes an account except with the proof the change asks for: the current password or a
      live reset token for the password, a valid code to enable MFA, the password to disable it, a live
      verification token to verify the address.  No account disappears. */
  lemma AccountChangesAreAuthorised(cfg: Config, st: State, d: Draw, c: Call, id: string)
    requires UsersAgree(st) && TokensKeyed(st) && Fresh(st, d) && id in st.users
    ensures var st' := Step(cfg, st, d, c).0;
            id in st'.users && AuthorisedChange(cfg, st, d, c, st.users[id], st'.users[id])
  {
    hide Register, VerifyEmail, Login, VerifyMFA, Refresh, Logout, ForgotPassword, ResetPassword, ChangePassword,
         SetupMFA, ConfirmMFA, DisableMFA, DemoLogin, RevokeSession, EnsureExternalUser, IssueSession, HashToken,
         TotpValid, NormalizeEmail, AuthorisedChange, UsersAgree;
    match c {
      case CallRegister(_, _, _) =>
        NewAccountChangesNoOther(cfg, st, d, c, id);
        NoChangeIsAuthorised(cfg, st, d, c, st.users[id]);
      case CallEnsureExternalUser(_, _) =>
        NewAccountChangesNoOther(cfg, st, d, c, id);
        NoChangeIsAuthorised(cfg, st, d, c, st.users[id]);
      case CallVerifyEmail(raw) => VerifyEmailChangeIsAuthorised(cfg, st, d, raw, id);
      case CallResetPassword(raw, pw) => ResetChangeIsAuthorised(cfg, st, d, raw, pw, id);
      case CallChangePassword(userId, current, next) =>
        PasswordChangeIsAuthorised(cfg, st, d, userId, current, next, id);
      case CallSetupMFA(userId) => SecretChangeIsAuthorised(cfg, st, d, userId, id);
      case CallConfirmMFA(userId, code) => EnablingIsAuthorised(cfg, st, d, userId, code, id);
      case CallDisableMFA(userId, pw) => DisablingIsAuthorised(cfg, st, d, userId, pw, id);
      case _ =>
        SessionCallKeepsUsers(cfg, st, d, c);
        NoChangeIsAuthorised(cfg, st, d, c, st.users[id]);
    }
  }

  // ---------- sessions ----------

  function DemoKey(): string {
    NormalizeEmail("operator@rivicq.com")
  }

  /** What entitles a call to a token pair for `userId`. */
  predicate EntitledTo(cfg: Config, st: State, d: Draw, c: Call, userId: string) {
    match c
    case CallLogin(email, password) =>
      var key := NormalizeEmail(NormalizeEmail(email));
      key in st.emails && st.emails[key].id == userId && !st.emails[key].disabled
      && cfg.checkPassword(password, st.emails[key].passwordHash)
      && (cfg.requireVerification ==> st.emails[key].emailVerified) && !st.emails[key].mfaEnabled
    case CallVerifyMFA(raw, code) =>
      userId in st.users && LiveToken(st, d.now, raw, MFAChallengePurpose, userId)
        && TotpValid(cfg, st.users[userId], code, d.now)
    case CallRefresh(raw) =>
      var h := HashToken(raw);
      h in st.byHash && st.byHash[h].userId == userId && st.byHash[h].revokedAt.None? && d.now < st.byHash[h].expiresAt
      && userId in st.users && !st.users[userId].disabled
    case CallDemoLogin => cfg.demoMode && DemoKey() in st.emails && st.emails[DemoKey()].id == userId
    case CallIssueTokens(owner) => owner == userId
    case _ => false
  }

  /** The stored session that the pair's refresh token opens: live, new, and of that user. */
  predicate OpensSession(cfg: Config, st': State, d: Draw, userId: string) {
    var h := HashToken(d.raw);
    h in st'.byHash && d.id in st'.sessions && st'.sessions[d.id] == st'.byHash[h]
    && st'.byHash[h] == Session(d.id, userId, h, d.now, d.now + cfg.refreshTTL, "", None)
  }

  lemma RefreshIsEarned(cfg: Config, st: State, d: Draw, c: Call)
    requires UsersAgree(st) && SessionsAgree(st) && Fresh(st, d)
    requires c.CallRefresh? && Step(cfg, st, d, c).1.Pair?
    ensures var (st', reply) := Step(cfg, st, d, c);
            EntitledTo(cfg, st, d, c, reply.userId) && reply.refreshToken == d.raw
              && OpensSession(cfg, st', d, reply.userId)
  {
    hide NormalizeEmail, HashToken, TotpValid, Register, VerifyEmail, ResetPassword, ChangePassword, SetupMFA,
         ConfirmMFA, DisableMFA, EnsureExternalUser, RevokeSessionsForUser, Login, VerifyMFA, DemoLogin, LoadToken;
  }

  lemma VerifyMFAIsEarned(cfg: Config, st: State, d: Draw, c: Call)
    requires UsersAgree(st) && TokensKeyed(st) && Fresh(st, d)
    requires c.CallVerifyMFA? && Step(cfg, st, d, c).1.Pair?
    ensures var (st', reply) := Step(cfg, st, d, c);
            EntitledTo(cfg, st, d, c, reply.userId) && reply.refreshToken == d.raw
              && OpensSession(cfg, st', d, reply.userId)
  {
    hide NormalizeEmail, HashToken, TotpValid, Register, VerifyEmail, ResetPassword, ChangePassword, SetupMFA,
         ConfirmMFA, DisableMFA, EnsureExternalUser, RevokeSessionsForUser, Login, Refresh, DemoLogin, LoadToken;
  }

  lemma LoginIsEarned(cfg: Config, st: State, d: Draw, c: Call)
    requires c.CallLogin? || c.CallDemoLogin? || c.CallIssueTokens?
    requires Step(cfg, st, d, c).1.Pair?
    ensures var (st', reply) := Step(cfg, st, d, c);
            EntitledTo(cfg, st, d, c, reply.userId) && reply.refreshToken == d.raw
              && OpensSession(cfg, st', d, reply.userId)
  {
    hide NormalizeEmail, HashToken, TotpValid, Register, VerifyEmail, ResetPassword, ChangePassword, SetupMFA,
         ConfirmMFA, DisableMFA, EnsureExternalUser, RevokeSessionsForUser, VerifyMFA, Refresh, LoadToken;
  }

  lemma OtherCallsGiveNoPair(cfg: Config, st: State, d: Draw, c: Call)
    requires !(c.CallLogin? || c.CallVerifyMFA? || c.CallRefresh? || c.CallDemoLogin? || c.CallIssueTokens?)
    ensures !Step(cfg, st, d, c).1.Pair?
  {
    hide NormalizeEmail, HashToken, TotpValid, Login, VerifyMFA, Refresh, DemoLogin, IssueSession,
         RevokeSessionsForUser, Trim, UpdateUser, CreateUser, MarkTokenUsed, LoadToken;
  }

  /** A call hands out a token pair only when it is entitled to one for that user, and the refresh token it
      hands out opens the new session. */
  lemma PairsAreEarned(cfg: Config, st: State, d: Draw, c: Call)
    requires UsersAgree(st) && TokensKeyed(st) && SessionsAgree(st) && Fresh(st, d)
    ensures var (st', reply) := Step(cfg, st, d, c);
            reply.Pair? ==>
              EntitledTo(cfg, st, d, c, reply.userId) && reply.refreshToken == d.raw
                && OpensSession(cfg, st', d, reply.userId)
  {
    hide Step, EntitledTo, OpensSession;
    if Step(cfg, st, d, c).1.Pair? {
      match c {
        case CallRefresh(_) => RefreshIsEarned(cfg, st, d, c);
        case CallVerifyMFA(_, _) => VerifyMFAIsEarned(cfg, st, d, c);
        case CallLogin(_, _) => LoginIsEarned(cfg, st, d, c);
        case CallDemoLogin => LoginIsEarned(cfg, st, d, c);
        case CallIssueTokens(_) => LoginIsEarned(cfg, st, d, c);
        case _ => OtherCallsGiveNoPair(cfg, st, d, c);
      }
    }
  }

  // ---------- revocations ----------

  /** The calls that may change a stored session: presenting its token or, for its user, asking by id, presenting
      another session's refresh token, or resetting the password. */
  predicate MayTouchSession(st: State, d: Draw, c: Call, s: Session) {
    match c
    case CallLogout(raw) => s.hash == HashToken(raw)
    case CallRevokeSession(userId, id) => s.id == id && s.userId == userId
    case CallRefresh(raw) => HashToken(raw) in st.byHash && st.byHash[HashToken(raw)].userId == s.userId
    case CallResetPassword(raw, _) => LiveToken(st, d.now, raw, ResetPasswordPurpose, s.userId)
    case _ => false
  }

  lemma ClosingTouchesOne(cfg: Config, st: State, d: Draw, c: Call, id: string)
    requires SessionsAgree(st) && id in st.sessions && (c.CallLogout? || c.CallRevokeSession?)
    ensures var st' := Step(cfg, st, d, c).0;
            && id in st'.sessions
            && (st'.sessions[id] != st.sessions[id] ==>
                  MayTouchSession(st, d, c, st.sessions[id]) && st'.sessions[id].revokedAt.Some?)
            && (MayTouchSession(st, d, c, st.sessions[id]) ==>
                  st'.sessions[id] == st.sessions[id].(revokedAt := Some(d.now)))
  {
    hide HashToken, Register, VerifyEmail, Login, VerifyMFA, Refresh, ForgotPassword, ResetPassword, ChangePassword,
         SetupMFA, ConfirmMFA, DisableMFA, DemoLogin, EnsureExternalUser, IssueSession;
  }

  lemma RevokedFamily(st: State, userId: string, now: int, id: string)
    requires id in st.sessions
    ensures var st' := RevokeSessionsForUser(st, userId, now);
            && id in st'.sessions
            && (st'.sessions[id] != st.sessions[id] ==>
                  st.sessions[id].userId == userId && st'.sessions[id].revokedAt.Some?)
  {
  }

  lemma RotatedSession(st: State, next: Session, retired: Session, id: string)
    requires id in st.sessions && next.id !in st.sessions
    ensures var st' := PutSession(PutSession(st, next), retired);
            id in st'.sessions && st'.sessions[id] == if id == retired.id then retired else st.sessions[id]
  {
  }

  lemma RefreshTouchesFamily(cfg: Config, st: State, d: Draw, raw: string, id: string)
    requires SessionsAgree(st) && UsersAgree(st) && Fresh(st, d) && id in st.sessions
    ensures var st' := Refresh(cfg, st, d, raw).0;
            && id in st'.sessions
            && (st'.sessions[id] != st.sessions[id] ==>
                  MayTouchSession(st, d, CallRefresh(raw), st.sessions[id]) && st'.sessions[id].revokedAt.Some?)
  {
    hide HashToken, UsersAgree, PutSession, RevokeSessionsForUser;
    var h := HashToken(raw);
    if h in st.byHash {
      var s := st.byHash[h];
      RevokedFamily(st, s.userId, d.now, id);
      if s.userId in st.users { RotatedSession(st, Successor(cfg, d, st.users[s.userId].id), Retire(s, d), id); }
    }
  }

  lemma ResetTouchesOwner(cfg: Config, st: State, d: Draw, raw: string, pw: string, id: string)
    requires SessionsAgree(st) && UsersAgree(st) && TokensKeyed(st) && id in st.sessions
    ensures var st' := ResetPassword(cfg, st, d, raw, pw).0;
            && id in st'.sessions
            && (st'.sessions[id] != st.sessions[id] ==>
                  MayTouchSession(st, d, CallResetPassword(raw, pw), st.sessions[id])
                    && st'.sessions[id].revokedAt.Some?)
  {
    hide HashToken, NormalizeEmail, LoadToken, UpdateUser, MarkTokenUsed;
  }

  lemma OpeningTouchesNone(cfg: Config, st: State, d: Draw, c: Call, id: string)
    requires Fresh(st, d) && id in st.sessions
    requires c.CallLogin? || c.CallVerifyMFA? || c.CallDemoLogin? || c.CallIssueTokens?
    ensures var st' := Step(cfg, st, d, c).0; id in st'.sessions && st'.sessions[id] == st.sessions[id]
  {
    hide HashToken, NormalizeEmail, TotpValid, Register, VerifyEmail, Refresh, Logout, ForgotPassword, ResetPassword,
         ChangePassword, SetupMFA, ConfirmMFA, DisableMFA, EnsureExternalUser, RevokeSession, LoadToken;
  }

  /** No call changes a session except those entitled to, and what changes is revoked.  Logging out and revoking by
      id revoke exactly the session they name. */
  lemma SessionChangesAreAuthorised(cfg: Config, st: State, d: Draw, c: Call, id: string)
    requires SessionsAgree(st) && UsersAgree(st) && TokensKeyed(st) && Fresh(st, d) && id in st.sessions
    ensures var st' := Step(cfg, st, d, c).0;
            && id in st'.sessions
            && (st'.sessions[id] != st.sessions[id] ==>
                  MayTouchSession(st, d, c, st.sessions[id]) && st'.sessions[id].revokedAt.Some?)
            && ((c.CallLogout? || c.CallRevokeSession?) && MayTouchSession(st, d, c, st.sessions[id]) ==>
                  st'.sessions[id] == st.sessions[id].(revokedAt := Some(d.now)))
  {
    hide Register, VerifyEmail, Login, VerifyMFA, Refresh, Logout, ForgotPassword, ResetPassword, ChangePassword,
         SetupMFA, ConfirmMFA, DisableMFA, DemoLogin, RevokeSession, EnsureExternalUser, IssueSession, HashToken,
         MayTouchSession, UsersAgree, SessionsAgree;
    match c {
      case CallRefresh(raw) => RefreshTouchesFamily(cfg, st, d, raw, id);
      case CallResetPassword(raw, pw) => ResetTouchesOwner(cfg, st, d, raw, pw, id);
      case CallLogout(_) => ClosingTouchesOne(cfg, st, d, c, id);
      case CallRevokeSession(_, _) => ClosingTouchesOne(cfg, st, d, c, id);
      case CallLogin(_, _) => OpeningTouchesNone(cfg, st, d, c, id);
      case CallVerifyMFA(_, _) => OpeningTouchesNone(cfg, st, d, c, id);
      case CallDemoLogin => OpeningTouchesNone(cfg, st, d, c, id);
      case CallIssueTokens(_) => OpeningTouchesNone(cfg, st, d, c, id);
      case _ =>
    }
  }

  // ---------- what is created ----------

  /** A new account: its address was free and allowed, MFA is off, and only an external identity, or a configuration
      that does not require it, makes it verified at once. */
  predicate NewAccount(cfg: Config, st: State, d: Draw, c: Call, u: User) {
    && u.id == d.id && u.email !in st.emails && cfg.emailAllowed(u.email) && '@' in u.email
    && !u.mfaEnabled && u.mfaSecret == "" && !u.disabled && Some(u.passwordHash) == d.passwordHash
    && match c
       case CallRegister(email, password, organisation) =>
         && (cfg.allowRegistration || cfg.demoMode) && u.email == NormalizeEmail(email)
           && u.organisation == Trim(organisation)
         && cfg.passwordAccepted(password, u.email, organisation) && u.emailVerified == !cfg.requireVerification
       case CallEnsureExternalUser(email, organisation) =>
         u.email == NormalizeEmail(email) && u.organisation == Trim(organisation) && u.emailVerified
       case _ => false
  }

  lemma TrimmedStays(s: string)
    requires s == "" || (!IsSpace(s[0]) && !IsSpace(s[|s| - 1]))
    ensures Trim(s) == s
  {
  }

  /** Normalising an address twice is normalising it once. */
  lemma NormalizeTwice(email: string)
    ensures NormalizeEmail(NormalizeEmail(email)) == NormalizeEmail(email)
  {
    var t := Trim(email);
    if t != "" {
      assert t <= TrimLeft(email) && t[0] == TrimLeft(email)[0];
      TrimmedStays(Lower(t));
    }
    assert Lower(Lower(t)) == Lower(t);
  }

  lemma CreatedAccounts(st: State, u: User, id: string)
    requires CreateUser(st, u).Ok? && id !in st.users && id in CreateUser(st, u).value.users
    ensures id == u.id && CreateUser(st, u).value.users[id] == u && NormalizeEmail(u.email) !in st.emails
  {
    hide NormalizeEmail;
  }

  lemma RegisterCreates(cfg: Config, st: State, d: Draw, email: string, password: string, organisation: string,
                        id: string)
    requires id !in st.users && id in Register(cfg, st, d, email, password, organisation).0.users
    ensures var c := CallRegister(email, password, organisation);
            NewAccount(cfg, st, d, c, Register(cfg, st, d, email, password, organisation).0.users[id])
  {
    hide NormalizeEmail, HashToken, CreateUser, Trim;
    NormalizeTwice(email);
    if d.passwordHash.Some? {
      var u := User(d.id, NormalizeEmail(email), Trim(organisation), d.passwordHash.value, !cfg.requireVerification,
                    false, "", false);
      if CreateUser(st, u).Ok? && id in CreateUser(st, u).value.users { CreatedAccounts(st, u, id); }
    }
  }

  lemma ExternalCreates(cfg: Config, st: State, d: Draw, email: string, organisation: string, id: string)
    requires id !in st.users && id in EnsureExternalUser(cfg, st, d, email, organisation).0.users
    ensures NewAccount(cfg, st, d, CallEnsureExternalUser(email, organisation),
                       EnsureExternalUser(cfg, st, d, email, organisation).0.users[id])
  {
    hide NormalizeEmail, HashToken, CreateUser, Trim;
    NormalizeTwice(email);
    if d.passwordHash.Some? {
      var u := User(d.id, NormalizeEmail(email), Trim(organisation), d.passwordHash.value, true, false, "", false);
      if CreateUser(st, u).Ok? && id in CreateUser(st, u).value.users { CreatedAccounts(st, u, id); }
    }
  }

  /** An out-of-band token is minted unused, for the lifetime of its purpose, and for the account the call is about:
      a new one to verify, one whose password was just given and that has MFA, or the owner of a known address. */
  predicate NewToken(cfg: Config, st: State, d: Draw, c: Call, t: Token) {
    && t.hash == HashToken(d.raw) && t.usedAt.None?
    && match c
       case CallRegister(_, _, _) =>
         t.purpose == VerifyEmailPurpose && t.userId == d.id && t.expiresAt == d.now + cfg.verifyTTL
           && cfg.requireVerification
       case CallLogin(email, password) =>
         var key := NormalizeEmail(NormalizeEmail(email));
         && t.purpose == MFAChallengePurpose && t.expiresAt == d.now + cfg.mfaSessionTTL
         && key in st.emails && st.emails[key].id == t.userId && st.emails[key].mfaEnabled && !st.emails[key].disabled
         && cfg.checkPassword(password, st.emails[key].passwordHash)
         && (cfg.requireVerification ==> st.emails[key].emailVerified)
       case CallForgotPassword(email) =>
         var key := NormalizeEmail(NormalizeEmail(email));
         && t.purpose == ResetPasswordPurpose && t.expiresAt == d.now + cfg.resetTTL
         && key in st.emails && st.emails[key].id == t.userId
       case _ => false
  }

  lemma MintedByThree(cfg: Config, st: State, d: Draw, c: Call)
    requires Fresh(st, d) && (c.CallRegister? || c.CallLogin? || c.CallForgotPassword?)
    requires var st' := Step(cfg, st, d, c).0; HashToken(d.raw) in st'.tokens
    ensures NewToken(cfg, st, d, c, Step(cfg, st, d, c).0.tokens[HashToken(d.raw)])
  {
    hide HashToken, NormalizeEmail, TotpValid, Trim, VerifyEmail, VerifyMFA, Refresh, Logout, ResetPassword,
         ChangePassword, SetupMFA, ConfirmMFA, DisableMFA, DemoLogin, EnsureExternalUser, RevokeSession, LoadToken,
         CreateUser;
  }

  lemma OthersMintNothing(cfg: Config, st: State, d: Draw, c: Call)
    requires TokensKeyed(st) && Fresh(st, d) && !(c.CallRegister? || c.CallLogin? || c.CallForgotPassword?)
    ensures HashToken(d.raw) !in Step(cfg, st, d, c).0.tokens
  {
    hide HashToken, NormalizeEmail, TotpValid, Trim, Register, Login, ForgotPassword, Refresh, Logout, VerifyEmail,
         VerifyMFA, ResetPassword, ChangePassword, SetupMFA, ConfirmMFA, DisableMFA, DemoLogin, RevokeSession,
         EnsureExternalUser;
  }

  /** Whatever a call adds, an account or a token, is what that call may add. */
  lemma CreationsAreAuthorised(cfg: Config, st: State, d: Draw, c: Call, id: string)
    requires UsersAgree(st) && TokensKeyed(st) && Fresh(st, d)
    ensures var st' := Step(cfg, st, d, c).0;
            && (id !in st.users && id in st'.users ==> NewAccount(cfg, st, d, c, st'.users[id]))
            && (HashToken(d.raw) in st'.tokens ==> NewToken(cfg, st, d, c, st'.tokens[HashToken(d.raw)]))
  {
    hide NewAccount, NewToken, HashToken, Register, EnsureExternalUser, VerifyEmail, Login, VerifyMFA, Refresh, Logout,
         ForgotPassword, ResetPassword, ChangePassword, SetupMFA, ConfirmMFA, DisableMFA, DemoLogin, RevokeSession,
         IssueSession, UsersAgree, TokensKeyed;
    var st' := Step(cfg, st, d, c).0;
    if c.CallRegister? || c.CallLogin? || c.CallForgotPassword? {
      if HashToken(d.raw) in st'.tokens { MintedByThree(cfg, st, d, c); }
    } else {
      OthersMintNothing(cfg, st, d, c);
    }
    if id !in st.users && id in st'.users {
      match c {
        case CallRegister(email, password, organisation) =>
          RegisterCreates(cfg, st, d, email, password, organisation, id);
        case CallEnsureExternalUser(email, organisation) => ExternalCreates(cfg, st, d, email, organisation, id);
        case _ => OthersCreateNoAccount(cfg, st, d, c, id);
      }
    }
  }

  lemma OthersCreateNoAccount(cfg: Config, st: State, d: Draw, c: Call, id: string)
    requires id !in st.users && !c.CallRegister? && !c.CallEnsureExternalUser?
    ensures id !in Step(cfg, st, d, c).0.users
  {
    hide HashToken, NormalizeEmail, TotpValid, Trim, Register, EnsureExternalUser;
    if c.CallVerifyEmail? || c.CallResetPassword? || c.CallChangePassword? || c.CallSetupMFA? || c.CallConfirmMFA?
      || c.CallDisableMFA? {
      UpdatesCreateNone(cfg, st, d, c, id);
    } else {
      SessionCallKeepsUsers(cfg, st, d, c);
    }
  }

  lemma UpdatesCreateNone(cfg: Config, st: State, d: Draw, c: Call, id: string)
    requires id !in st.users
    requires c.CallVerifyEmail? || c.CallResetPassword? || c.CallChangePassword? || c.CallSetupMFA?
              || c.CallConfirmMFA? || c.CallDisableMFA?
    ensures id !in Step(cfg, st, d, c).0.users
  {
    hide HashToken, NormalizeEmail, TotpValid, Trim, Register, EnsureExternalUser, Login, VerifyMFA, Refresh,
         DemoLogin, IssueSession;
  }
}
