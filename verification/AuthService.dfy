/** The service methods over the heap store, each proved to do what its function in `AuthModel` says. */
module AuthService {
  import opened Text
  import opened AuthModel
  import opened AuthStore

  class Service {
    const cfg: Config
    const store: MemStore

    constructor (cfg: Config, store: MemStore)
      ensures this.cfg == cfg && this.store == store
    {
      this.cfg, this.store := cfg, store;
    }

    method IssueSession(d: Draw, userId: string) returns (reply: Reply)
      requires store.Valid() && Fresh(store.Abs(), d)
      modifies store
      ensures store.Valid() && fresh(store.sessions.Values - old(store.sessions.Values))
      ensures (store.Abs(), reply) == AuthModel.IssueSession(cfg, old(store.Abs()), d, userId)
    {
      hide HashToken;
      if !d.entropyOk { return Denied(Internal); }
      store.PutSession(Session(d.id, userId, HashToken(d.raw), d.now, d.now + cfg.refreshTTL, "", None));
      if !d.signOk { return Denied(Internal); }
      return Pair(userId, d.raw);
    }

    method IssueToken(d: Draw, userId: string, purpose: Purpose, ttl: int) returns (r: Result<string>)
      requires store.Valid()
      modifies store
      ensures store.Valid() && fresh(store.tokens.Values - old(store.tokens.Values))
      ensures store.sessions == old(store.sessions)
      ensures match AuthModel.IssueToken(old(store.Abs()), d, userId, purpose, ttl)
              case Ok(st) => r == Ok(d.raw) && store.Abs() == st
              case Err(e) => r == Err(e) && store.Abs() == old(store.Abs())
    {
      hide HashToken;
      if !d.entropyOk { return Err(Internal); }
      store.CreateToken(Token(HashToken(d.raw), userId, purpose, d.now + ttl, None));
      return Ok(d.raw);
    }

    method LoadToken(now: int, raw: string, purpose: Purpose) returns (r: Result<(Token, User)>)
      ensures r == AuthModel.LoadToken(store.Abs(), now, raw, purpose)
    {
      hide HashToken;
      var tok := store.GetToken(HashToken(raw));
      if tok.Err? || tok.value.purpose != purpose { return Err(InvalidToken); }
      if tok.value.usedAt.Some? { return Err(TokenUsed); }
      if !(now < tok.value.expiresAt) { return Err(InvalidToken); }
      var u := store.GetUserById(tok.value.userId);
      if u.Err? { return Err(InvalidToken); }
      return Ok((tok.value, u.value));
    }

    /** Store the successor, then write the presented session back, revoked and linked to it. */
    method Rotate(d: Draw, presented: Session, next: Session)
      requires store.Valid() && MayPut(store.Abs(), next) && next.id == d.id && next.id !in store.Abs().sessions
      requires MayPut(store.Abs(), presented) && presented.id in store.Abs().sessions
      modifies store
      ensures store.Valid()
      ensures store.Abs() == PutSession(PutSession(old(store.Abs()), next), Retire(presented, d))
    {
      store.PutSession(next);
      var sess := presented.(revokedAt := Some(d.now), rotatedTo := next.id);
      assert MayPut(store.Abs(), sess);
      store.PutSession(sess);
    }

    method Refresh(d: Draw, raw: string) returns (reply: Reply)
      requires store.Valid() && Fresh(store.Abs(), d)
      modifies store, store.sessions.Values
      ensures store.Valid()
      ensures (store.Abs(), reply) == AuthModel.Refresh(cfg, old(store.Abs()), d, raw)
    {
      hide HashToken, AuthModel.RevokeSessionsForUser, AuthModel.PutSession, MemStore.Valid;
      var found := store.GetSessionByHash(HashToken(raw));
      if found.Err? { return Denied(InvalidToken); }
      var sess := found.value;
      if sess.revokedAt.Some? {
        if sess.rotatedTo != "" {
          store.RevokeSessionsForUser(sess.userId, d.now);
          return Denied(ReuseDetected);
        }
        return Denied(InvalidToken);
      }
      if !(d.now < sess.expiresAt) { return Denied(SessionExpired); }
      var u := store.GetUserById(sess.userId);
      if u.Err? || u.value.disabled {
        store.RevokeSessionsForUser(sess.userId, d.now);
        return Denied(InvalidToken);
      }
      if !d.entropyOk { return Denied(Internal); }
      var next := Session(d.id, u.value.id, HashToken(d.raw), d.now, d.now + cfg.refreshTTL, "", None);
      Rotate(d, sess, next);
      if !d.signOk { return Denied(Internal); }
      return Pair(u.value.id, d.raw);
    }

    method Logout(d: Draw, raw: string) returns (reply: Reply)
      requires store.Valid()
      modifies store
      ensures store.Valid()
      ensures (store.Abs(), reply) == AuthModel.Logout(old(store.Abs()), d, raw)
    {
      hide HashToken;
      var found := store.GetSessionByHash(HashToken(raw));
      if found.Ok? {
        store.PutSession(found.value.(revokedAt := Some(d.now)));
      }
      return Done;
    }

    method RevokeSession(d: Draw, userId: string, sessionId: string) returns (reply: Reply)
      requires store.Valid()
      modifies store
      ensures store.Valid()
      ensures (store.Abs(), reply) == AuthModel.RevokeSession(old(store.Abs()), d, userId, sessionId)
    {
      var found := store.GetSessionById(sessionId);
      if found.Err? || found.value.userId != userId { return Denied(InvalidToken); }
      store.PutSession(found.value.(revokedAt := Some(d.now)));
      return Done;
    }

    method VerifyEmail(d: Draw, raw: string) returns (reply: Reply)
      requires store.Valid()
      modifies store, store.tokens.Values
      ensures store.Valid()
      ensures (store.Abs(), reply) == AuthModel.VerifyEmail(old(store.Abs()), d, raw)
    {
      hide HashToken, AuthModel.SaveUser, AuthModel.LoadToken, AuthModel.MarkTokenUsed, MemStore.Valid;
      var loaded := LoadToken(d.now, raw, VerifyEmailPurpose);
      if loaded.Err? { return Denied(loaded.error); }
      var (tok, u) := loaded.value;
      var err := store.MarkTokenUsed(tok.hash, d.now);
      if err.Some? { return Report(err); }
      reply := SaveUser(u.(emailVerified := true));
    }

    method ResetPassword(d: Draw, raw: string, newPassword: string) returns (reply: Reply)
      requires store.Valid()
      modifies store, store.sessions.Values, store.tokens.Values
      ensures store.Valid()
      ensures (store.Abs(), reply) == AuthModel.ResetPassword(cfg, old(store.Abs()), d, raw, newPassword)
    {
      hide HashToken, AuthModel.LoadToken, AuthModel.MarkTokenUsed, AuthModel.UpdateUser, MemStore.Valid;
      var loaded := LoadToken(d.now, raw, ResetPasswordPurpose);
      if loaded.Err? { return Denied(loaded.error); }
      var (tok, u) := loaded.value;
      if !cfg.passwordAccepted(newPassword, u.email, u.organisation) { return Denied(PasswordRejected); }
      if d.passwordHash.None? { return Denied(Internal); }
      var err := store.MarkTokenUsed(tok.hash, d.now);
      if err.Some? { return Report(err); }
      err := store.UpdateUser(u.(passwordHash := d.passwordHash.value));
      if err.Some? { return Report(err); }
      store.RevokeSessionsForUser(u.id, d.now);
      return Done;
    }

    method VerifyMFA(d: Draw, raw: string, code: string) returns (reply: Reply)
      requires store.Valid() && Fresh(store.Abs(), d)
      modifies store, store.tokens.Values
      ensures store.Valid()
      ensures (store.Abs(), reply) == AuthModel.VerifyMFA(cfg, old(store.Abs()), d, raw, code)
    {
      hide HashToken, TotpValid;
      var loaded := LoadToken(d.now, raw, MFAChallengePurpose);
      if loaded.Err? { return Denied(InvalidMFASession); }
      var (tok, u) := loaded.value;
      if !TotpValid(cfg, u, code, d.now) { return Denied(InvalidMFACode); }
      var err := store.MarkTokenUsed(tok.hash, d.now);
      if err.Some? { return Denied(InvalidMFASession); }
      reply := IssueSession(d, u.id);
    }

    method Login(d: Draw, email: string, password: string) returns (reply: Reply)
      requires store.Valid() && Fresh(store.Abs(), d)
      modifies store
      ensures store.Valid()
      ensures (store.Abs(), reply) == AuthModel.Login(cfg, old(store.Abs()), d, email, password)
    {
      hide HashToken, NormalizeEmail;
      var found := store.GetUserByEmail(NormalizeEmail(email));
      if found.Err? { return Denied(InvalidCredentials); }
      var u := found.value;
      if u.disabled { return Denied(AccountDisabled); }
      if !cfg.checkPassword(password, u.passwordHash) { return Denied(InvalidCredentials); }
      if !u.emailVerified && cfg.requireVerification { return Denied(EmailNotVerified); }
      if u.mfaEnabled {
        var r := IssueToken(d, u.id, MFAChallengePurpose, cfg.mfaSessionTTL);
        if r.Err? { return Denied(r.error); }
        return Challenge(r.value);
      }
      reply := IssueSession(d, u.id);
    }

    method Register(d: Draw, rawEmail: string, password: string, organisation: string) returns (reply: Reply)
      requires store.Valid()
      modifies store
      ensures store.Valid()
      ensures (store.Abs(), reply) == AuthModel.Register(cfg, old(store.Abs()), d, rawEmail, password, organisation)
    {
      hide HashToken, NormalizeEmail, Trim;
      if !cfg.allowRegistration && !cfg.demoMode { return Denied(RegistrationDisabled); }
      var email := NormalizeEmail(rawEmail);
      if email == "" || '@' !in email { return Denied(InvalidEmail); }
      if !cfg.emailAllowed(email) { return Denied(DomainNotAllowed); }
      if !cfg.passwordAccepted(password, email, organisation) { return Denied(PasswordRejected); }
      if d.passwordHash.None? { return Denied(Internal); }
      var u := User(d.id, email, Trim(organisation), d.passwordHash.value, !cfg.requireVerification, false, "", false);
      var err := store.CreateUser(u);
      if err.Some? { return Report(err); }
      if !cfg.requireVerification { return RawToken(""); }
      var r := IssueToken(d, u.id, VerifyEmailPurpose, cfg.verifyTTL);
      if r.Err? { return Denied(r.error); }
      return RawToken(r.value);
    }

    method ForgotPassword(d: Draw, email: string) returns (reply: Reply)
      requires store.Valid()
      modifies store
      ensures store.Valid()
      ensures (store.Abs(), reply) == AuthModel.ForgotPassword(cfg, old(store.Abs()), d, email)
    {
      hide HashToken, NormalizeEmail;
      var found := store.GetUserByEmail(NormalizeEmail(email));
      if found.Err? { return RawToken(""); }
      var r := IssueToken(d, found.value.id, ResetPasswordPurpose, cfg.resetTTL);
      if r.Err? { return Denied(r.error); }
      return RawToken(r.value);
    }

    method SaveUser(u: User) returns (reply: Reply)
      requires store.Valid()
      modifies store
      ensures store.Valid()
      ensures (store.Abs(), reply) == AuthModel.SaveUser(old(store.Abs()), u)
    {
      hide NormalizeEmail;
      var err := store.UpdateUser(u);
      return Report(err);
    }

    method ChangePassword(d: Draw, userId: string, current: string, next: string) returns (reply: Reply)
      requires store.Valid()
      modifies store
      ensures store.Valid()
      ensures (store.Abs(), reply) == AuthModel.ChangePassword(cfg, old(store.Abs()), d, userId, current, next)
    {
      hide AuthModel.SaveUser;
      var found := store.GetUserById(userId);
      if found.Err? { return Denied(UserNotFound); }
      var u := found.value;
      if !cfg.checkPassword(current, u.passwordHash) { return Denied(WrongPassword); }
      if !cfg.passwordAccepted(next, u.email, u.organisation) { return Denied(PasswordRejected); }
      if d.passwordHash.None? { return Denied(Internal); }
      reply := SaveUser(u.(passwordHash := d.passwordHash.value));
    }

    method SetupMFA(d: Draw, userId: string) returns (reply: Reply)
      requires store.Valid()
      modifies store
      ensures store.Valid()
      ensures (store.Abs(), reply) == AuthModel.SetupMFA(old(store.Abs()), d, userId)
    {
      hide NormalizeEmail;
      var found := store.GetUserById(userId);
      if found.Err? { return Denied(UserNotFound); }
      if !d.keyOk { return Denied(Internal); }
      var err := store.UpdateUser(found.value.(mfaSecret := d.secret));
      return if err.Some? then Denied(err.value) else RawToken(d.secret);
    }

    method ConfirmMFA(d: Draw, userId: string, code: string) returns (reply: Reply)
      requires store.Valid()
      modifies store
      ensures store.Valid()
      ensures (store.Abs(), reply) == AuthModel.ConfirmMFA(cfg, old(store.Abs()), d, userId, code)
    {
      hide AuthModel.SaveUser, TotpValid;
      var found := store.GetUserById(userId);
      if found.Err? { return Denied(UserNotFound); }
      if !TotpValid(cfg, found.value, code, d.now) { return Denied(InvalidMFACode); }
      reply := SaveUser(found.value.(mfaEnabled := true));
    }

    method DisableMFA(userId: string, password: string) returns (reply: Reply)
      requires store.Valid()
      modifies store
      ensures store.Valid()
      ensures (store.Abs(), reply) == AuthModel.DisableMFA(cfg, old(store.Abs()), userId, password)
    {
      hide AuthModel.SaveUser;
      var found := store.GetUserById(userId);
      if found.Err? { return Denied(UserNotFound); }
      if !cfg.checkPassword(password, found.value.passwordHash) { return Denied(InvalidCredentials); }
      reply := SaveUser(found.value.(mfaEnabled := false, mfaSecret := ""));
    }

    method DemoLogin(d: Draw) returns (reply: Reply)
      requires store.Valid() && Fresh(store.Abs(), d)
      modifies store
      ensures store.Valid()
      ensures (store.Abs(), reply) == AuthModel.DemoLogin(cfg, old(store.Abs()), d)
    {
      hide HashToken, NormalizeEmail;
      if !cfg.demoMode { return Denied(DemoDisabled); }
      var found := store.GetUserByEmail("operator@rivicq.com");
      if found.Err? { return Denied(DemoDisabled); }
      reply := IssueSession(d, found.value.id);
    }

    method EnsureExternalUser(d: Draw, rawEmail: string, organisation: string) returns (reply: Reply)
      requires store.Valid()
      modifies store
      ensures store.Valid()
      ensures (store.Abs(), reply) == AuthModel.EnsureExternalUser(cfg, old(store.Abs()), d, rawEmail, organisation)
    {
      hide NormalizeEmail, Trim;
      var email := NormalizeEmail(rawEmail);
      if email == "" || '@' !in email { return Denied(InvalidEmail); }
      if !cfg.emailAllowed(email) { return Denied(DomainNotAllowed); }
      var existing := store.GetUserByEmail(email);
      if existing.Ok? {
        return if existing.value.disabled then Denied(AccountDisabled) else Done;
      }
      if !d.entropyOk || d.passwordHash.None? { return Denied(Internal); }
      var u := User(d.id, email, Trim(organisation), d.passwordHash.value, true, false, "", false);
      var err := store.CreateUser(u);
      return Done;
    }
  }
}
