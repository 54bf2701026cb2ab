/** What each service call achieves: exactly when it succeeds, what it then changes, and which answer each failing
    check gets.  `AuthAccess` bounds what may change; here every change that is promised happens. */
module AuthEffects {
  import opened Text
  import opened AuthModel
  import opened AuthRuns
  import AuthAccess

  // ---------- changes of the store ----------

  predicate SameUsers(st: State, st': State) {
    st'.users == st.users && st'.emails == st.emails
  }

  /** Both user indexes hold `u`; every other entry is as it was. */
  ghost predicate AccountBecomes(st: State, st': State, u: User) {
    var key := NormalizeEmail(u.email);
    && u.id in st'.users && st'.users[u.id] == u && key in st'.emails && st'.emails[key] == u
    && (forall id | id != u.id :: id in st'.users <==> id in st.users)
    && (forall id | id != u.id && id in st.users :: st'.users[id] == st.users[id])
    && (forall e | e != key :: e in st'.emails <==> e in st.emails)
    && (forall e | e != key && e in st.emails :: st'.emails[e] == st.emails[e])
  }

  /** The token is stored as `t`; every other token is as it was. */
  ghost predicate TokenBecomes(st: State, st': State, t: Token) {
    && t.hash in st'.tokens && st'.tokens[t.hash] == t
    && (forall h | h != t.hash :: h in st'.tokens <==> h in st.tokens)
    && (forall h | h != t.hash && h in st.tokens :: st'.tokens[h] == st.tokens[h])
  }

  /** Both session indexes hold `s`; every other entry is as it was. */
  ghost predicate SessionBecomes(st: State, st': State, s: Session) {
    && s.id in st'.sessions && st'.sessions[s.id] == s && s.hash in st'.byHash && st'.byHash[s.hash] == s
    && (forall id | id != s.id :: id in st'.sessions <==> id in st.sessions)
    && (forall id | id != s.id && id in st.sessions :: st'.sessions[id] == st.sessions[id])
    && (forall h | h != s.hash :: h in st'.byHash <==> h in st.byHash)
    && (forall h | h != s.hash && h in st.byHash :: st'.byHash[h] == st.byHash[h])
  }

  /** `s` is stored retired and `next` new; every other session is as it was. */
  ghost predicate SessionRotates(st: State, st': State, s: Session, next: Session) {
    && s.id in st'.sessions && st'.sessions[s.id] == s && s.hash in st'.byHash && st'.byHash[s.hash] == s
    && next.id in st'.sessions && st'.sessions[next.id] == next
    && next.hash in st'.byHash && st'.byHash[next.hash] == next
    && (forall id | id != s.id && id != next.id :: id in st'.sessions <==> id in st.sessions)
    && (forall id | id != s.id && id != next.id && id in st.sessions :: st'.sessions[id] == st.sessions[id])
    && (forall h | h != s.hash && h != next.hash :: h in st'.byHash <==> h in st.byHash)
    && (forall h | h != s.hash && h != next.hash && h in st.byHash :: st'.byHash[h] == st.byHash[h])
  }

  /** The unrevoked sessions of the user are revoked now; every other session is as it was. */
  ghost predicate FamilyRevoked(st: State, st': State, userId: string, now: int) {
    && st'.sessions.Keys == st.sessions.Keys && st'.byHash.Keys == st.byHash.Keys
    && (forall id | id in st.sessions :: RevokedOrSame(st.sessions[id], st'.sessions[id], userId, now))
    && (forall h | h in st.byHash :: RevokedOrSame(st.byHash[h], st'.byHash[h], userId, now))
  }

  predicate RevokedOrSame(s: Session, s': Session, userId: string, now: int) {
    && (s.userId == userId && s.revokedAt.None? ==> s' == s.(revokedAt := Some(now)))
    && (s.userId != userId || s.revokedAt.Some? ==> s' == s)
  }

  // ---------- what the calls do ----------

  /** A session opens unless randomness fails; the tokens are handed out unless signing fails. */
  ghost predicate Opens(cfg: Config, st: State, d: Draw, userId: string, st': State, reply: Reply) {
    && (!d.entropyOk ==> SameSessions(st', st) && reply == Denied(Internal))
    && (d.entropyOk ==>
          && SessionBecomes(st, st', Session(d.id, userId, HashToken(d.raw), d.now, d.now + cfg.refreshTTL, "", None))
          && (d.signOk ==> reply == Pair(userId, d.raw)) && (!d.signOk ==> reply == Denied(Internal)))
  }

  ghost predicate OpensOnly(cfg: Config, st: State, d: Draw, userId: string, st': State, reply: Reply) {
    Opens(cfg, st, d, userId, st', reply) && SameUsers(st, st') && st'.tokens == st.tokens
  }

  /** An out-of-band token is minted for the user unless randomness fails; sessions and users stay. */
  ghost predicate Mints(st: State, d: Draw, userId: string, purpose: Purpose, ttl: int, st': State) {
    && SameSessions(st', st) && SameUsers(st, st')
    && (!d.entropyOk ==> st'.tokens == st.tokens)
    && (d.entropyOk ==> TokenBecomes(st, st', Token(HashToken(d.raw), userId, purpose, d.now + ttl, None)))
  }

  ghost predicate RegisterDoes(cfg: Config, st: State, d: Draw, c: Call, st': State, reply: Reply)
    requires c.CallRegister?
  {
    var email := NormalizeEmail(c.email);
    var open := cfg.allowRegistration || cfg.demoMode;
    var wellFormed := email != "" && '@' in email;
    var accepted := cfg.passwordAccepted(c.password, email, c.organisation);
    var ready := open && wellFormed && cfg.emailAllowed(email) && accepted && d.passwordHash.Some?
                 && email !in st.emails;
    && (!ready ==> st' == st && reply.Denied?)
    && (!open ==> reply == Denied(RegistrationDisabled))
    && (open && !wellFormed ==> reply == Denied(InvalidEmail))
    && (open && wellFormed && !cfg.emailAllowed(email) ==> reply == Denied(DomainNotAllowed))
    && (open && wellFormed && cfg.emailAllowed(email) && !accepted ==> reply == Denied(PasswordRejected))
    && (open && wellFormed && cfg.emailAllowed(email) && accepted && d.passwordHash.None? ==> reply == Denied(Internal))
    && (open && wellFormed && cfg.emailAllowed(email) && accepted && d.passwordHash.Some? && email in st.emails ==>
          reply == Denied(EmailTaken))
    && (ready ==>
          && AccountBecomes(st, st', User(d.id, email, Trim(c.organisation), d.passwordHash.value,
                                          !cfg.requireVerification, false, "", false))
          && SameSessions(st', st)
          && (!cfg.requireVerification ==> reply == RawToken("") && st'.tokens == st.tokens)
          && (cfg.requireVerification && d.entropyOk ==>
                && reply == RawToken(d.raw)
                && TokenBecomes(st, st',
                                Token(HashToken(d.raw), d.id, VerifyEmailPurpose, d.now + cfg.verifyTTL, None)))
          && (cfg.requireVerification && !d.entropyOk ==> reply == Denied(Internal) && st'.tokens == st.tokens))
  }

  /** The presented token is of this purpose, unused, unexpired, and its owner is stored. */
  predicate Loads(st: State, now: int, raw: string, purpose: Purpose) {
    var h := HashToken(raw);
    && h in st.tokens && st.tokens[h].purpose == purpose && st.tokens[h].usedAt.None? && now < st.tokens[h].expiresAt
    && st.tokens[h].userId in st.users
  }

  /** The presented token has been used for this purpose before. */
  predicate UsedBefore(st: State, raw: string, purpose: Purpose) {
    var h := HashToken(raw);
    h in st.tokens && st.tokens[h].purpose == purpose && st.tokens[h].usedAt.Some?
  }

  function Owner(st: State, now: int, raw: string, purpose: Purpose): User
    requires Loads(st, now, raw, purpose)
  {
    st.users[st.tokens[HashToken(raw)].userId]
  }

  ghost predicate TokenConsumed(st: State, st': State, raw: string, now: int)
    requires HashToken(raw) in st.tokens
  {
    TokenBecomes(st, st', st.tokens[HashToken(raw)].(usedAt := Some(now)))
  }

  ghost predicate VerifyEmailDoes(st: State, d: Draw, raw: string, st': State, reply: Reply) {
    var loads := Loads(st, d.now, raw, VerifyEmailPurpose);
    && (!loads ==> st' == st)
    && (UsedBefore(st, raw, VerifyEmailPurpose) ==> reply == Denied(TokenUsed))
    && (!loads && !UsedBefore(st, raw, VerifyEmailPurpose) ==> reply == Denied(InvalidToken))
    && (loads ==>
          && reply == Done && SameSessions(st', st) && TokenConsumed(st, st', raw, d.now)
          && AccountBecomes(st, st', Owner(st, d.now, raw, VerifyEmailPurpose).(emailVerified := true)))
  }

  ghost predicate ResetPasswordDoes(cfg: Config, st: State, d: Draw, raw: string, pw: string, st': State, reply: Reply)
  {
    var loads := Loads(st, d.now, raw, ResetPasswordPurpose);
    var accepted := loads && var u := Owner(st, d.now, raw, ResetPasswordPurpose);
                             cfg.passwordAccepted(pw, u.email, u.organisation);
    && (!(accepted && d.passwordHash.Some?) ==> st' == st)
    && (UsedBefore(st, raw, ResetPasswordPurpose) ==> reply == Denied(TokenUsed))
    && (!loads && !UsedBefore(st, raw, ResetPasswordPurpose) ==> reply == Denied(InvalidToken))
    && (loads && !accepted ==> reply == Denied(PasswordRejected))
    && (accepted && d.passwordHash.None? ==> reply == Denied(Internal))
    && (accepted && d.passwordHash.Some? ==>
          var u := Owner(st, d.now, raw, ResetPasswordPurpose);
          && reply == Done && TokenConsumed(st, st', raw, d.now) && FamilyRevoked(st, st', u.id, d.now)
          && AccountBecomes(st, st', u.(passwordHash := d.passwordHash.value)))
  }

  /** The stored account of the address, if any. */
  function Known(st: State, email: string): Option<User> {
    var key := NormalizeEmail(email);
    if key in st.emails then Some(st.emails[key]) else None
  }

  ghost predicate LoginDoes(cfg: Config, st: State, d: Draw, c: Call, st': State, reply: Reply)
    requires c.CallLogin?
  {
    var known := Known(st, c.email);
    var enabled := known.Some? && !known.value.disabled;
    var proved := enabled && cfg.checkPassword(c.password, known.value.passwordHash);
    var admitted := proved && (known.value.emailVerified || !cfg.requireVerification);
    && (!admitted ==> st' == st)
    && (known.None? ==> reply == Denied(InvalidCredentials))
    && (known.Some? && !enabled ==> reply == Denied(AccountDisabled))
    && (enabled && !proved ==> reply == Denied(InvalidCredentials))
    && (proved && !admitted ==> reply == Denied(EmailNotVerified))
    && (admitted && known.value.mfaEnabled ==>
          && Mints(st, d, known.value.id, MFAChallengePurpose, cfg.mfaSessionTTL, st')
          && reply == if d.entropyOk then Challenge(d.raw) else Denied(Internal))
    && (admitted && !known.value.mfaEnabled ==> OpensOnly(cfg, st, d, known.value.id, st', reply))
  }

  ghost predicate VerifyMFADoes(cfg: Config, st: State, d: Draw, raw: string, code: string, st': State, reply: Reply) {
    var loads := Loads(st, d.now, raw, MFAChallengePurpose);
    var proved := loads && CodeFits(cfg, Owner(st, d.now, raw, MFAChallengePurpose), code, d.now);
    && (!proved ==> st' == st)
    && (!loads ==> reply == Denied(InvalidMFASession))
    && (loads && !proved ==> reply == Denied(InvalidMFACode))
    && (proved ==>
          && TokenConsumed(st, st', raw, d.now) && SameUsers(st, st')
          && Opens(cfg, st, d, Owner(st, d.now, raw, MFAChallengePurpose).id, st', reply))
  }

  /** The account has a secret and the trimmed code fits it now. */
  predicate CodeFits(cfg: Config, u: User, code: string, now: int) {
    (exists i | 0 <= i < |u.mfaSecret| :: !IsSpace(u.mfaSecret[i])) && cfg.totpAccepts(Trim(code), u.mfaSecret, now)
  }

  ghost predicate RefreshDoes(cfg: Config, st: State, d: Draw, raw: string, st': State, reply: Reply) {
    var h := HashToken(raw);
    && (h !in st.byHash ==> st' == st && reply == Denied(InvalidToken))
    && (h in st.byHash ==>
          var s := st.byHash[h];
          var live := s.revokedAt.None? && d.now < s.expiresAt;
          var owned := s.userId in st.users && !st.users[s.userId].disabled;
          && SameUsers(st, st') && st'.tokens == st.tokens
          && (s.revokedAt.Some? && s.rotatedTo == "" ==> st' == st && reply == Denied(InvalidToken))
          && (s.revokedAt.Some? && s.rotatedTo != "" ==>
                FamilyRevoked(st, st', s.userId, d.now) && reply == Denied(ReuseDetected))
          && (s.revokedAt.None? && !live ==> st' == st && reply == Denied(SessionExpired))
          && (live && !owned ==> FamilyRevoked(st, st', s.userId, d.now) && reply == Denied(InvalidToken))
          && (live && owned && !d.entropyOk ==> st' == st && reply == Denied(Internal))
          && (live && owned && d.entropyOk ==>
                && SessionRotates(st, st', s.(revokedAt := Some(d.now), rotatedTo := d.id),
                                  Session(d.id, s.userId, HashToken(d.raw), d.now, d.now + cfg.refreshTTL, "", None))
                && (d.signOk ==> reply == Pair(s.userId, d.raw)) && (!d.signOk ==> reply == Denied(Internal))))
  }

  ghost predicate ForgotPasswordDoes(cfg: Config, st: State, d: Draw, email: string, st': State, reply: Reply) {
    var known := Known(st, email);
    && (known.None? ==> st' == st && reply == RawToken(""))
    && (known.Some? ==>
          && Mints(st, d, known.value.id, ResetPasswordPurpose, cfg.resetTTL, st')
          && reply == if d.entropyOk then RawToken(d.raw) else Denied(Internal))
  }

  /** The call changes the user's account to `u` and nothing else. */
  ghost predicate SavesOnly(st: State, st': State, u: User) {
    AccountBecomes(st, st', u) && SameSessions(st', st) && st'.tokens == st.tokens
  }

  ghost predicate ProfileDoes(cfg: Config, st: State, d: Draw, c: Call, st': State, reply: Reply)
    requires c.CallChangePassword? || c.CallSetupMFA? || c.CallConfirmMFA? || c.CallDisableMFA?
  {
    && (c.userId !in st.users ==> st' == st && reply == Denied(UserNotFound))
    && (c.userId in st.users ==>
          var u := st.users[c.userId];
          match c
          case CallChangePassword(_, current, next) =>
            var known := cfg.checkPassword(current, u.passwordHash);
            var accepted := cfg.passwordAccepted(next, u.email, u.organisation);
            && (!known ==> st' == st && reply == Denied(WrongPassword))
            && (known && !accepted ==> st' == st && reply == Denied(PasswordRejected))
            && (known && accepted && d.passwordHash.None? ==> st' == st && reply == Denied(Internal))
            && (known && accepted && d.passwordHash.Some? ==>
                  SavesOnly(st, st', u.(passwordHash := d.passwordHash.value)) && reply == Done)
          case CallSetupMFA(_) =>
            && (!d.keyOk ==> st' == st && reply == Denied(Internal))
            && (d.keyOk ==> SavesOnly(st, st', u.(mfaSecret := d.secret)) && reply == RawToken(d.secret))
          case CallConfirmMFA(_, code) =>
            && (!CodeFits(cfg, u, code, d.now) ==> st' == st && reply == Denied(InvalidMFACode))
            && (CodeFits(cfg, u, code, d.now) ==> SavesOnly(st, st', u.(mfaEnabled := true)) && reply == Done)
          case CallDisableMFA(_, pw) =>
            && (!cfg.checkPassword(pw, u.passwordHash) ==> st' == st && reply == Denied(InvalidCredentials))
            && (cfg.checkPassword(pw, u.passwordHash) ==>
                  SavesOnly(st, st', u.(mfaEnabled := false, mfaSecret := "")) && reply == Done))
  }

  ghost predicate ClosesOnly(st: State, d: Draw, s: Session, st': State) {
    SessionBecomes(st, st', s.(revokedAt := Some(d.now))) && SameUsers(st, st') && st'.tokens == st.tokens
  }

  ghost predicate LogoutDoes(st: State, d: Draw, raw: string, st': State, reply: Reply) {
    var h := HashToken(raw);
    && reply == Done
    && (h !in st.byHash ==> st' == st)
    && (h in st.byHash ==> ClosesOnly(st, d, st.byHash[h], st'))
  }

  ghost predicate RevokeSessionDoes(st: State, d: Draw, userId: string, id: string, st': State, reply: Reply) {
    var own := id in st.sessions && st.sessions[id].userId == userId;
    && (!own ==> st' == st && reply == Denied(InvalidToken))
    && (own ==> ClosesOnly(st, d, st.sessions[id], st') && reply == Done)
  }

  ghost predicate DemoLoginDoes(cfg: Config, st: State, d: Draw, st': State, reply: Reply) {
    var operator := Known(st, "operator@rivicq.com");
    && (!cfg.demoMode || operator.None? ==> st' == st && reply == Denied(DemoDisabled))
    && (cfg.demoMode && operator.Some? ==> OpensOnly(cfg, st, d, operator.value.id, st', reply))
  }

  ghost predicate ExternalUserDoes(cfg: Config, st: State, d: Draw, c: Call, st': State, reply: Reply)
    requires c.CallEnsureExternalUser?
  {
    var email := NormalizeEmail(c.email);
    var wellFormed := email != "" && '@' in email;
    var admitted := wellFormed && cfg.emailAllowed(email);
    var fits := d.entropyOk && d.passwordHash.Some?;
    && (!wellFormed ==> st' == st && reply == Denied(InvalidEmail))
    && (wellFormed && !admitted ==> st' == st && reply == Denied(DomainNotAllowed))
    && (admitted && email in st.emails ==>
          st' == st && reply == if st.emails[email].disabled then Denied(AccountDisabled) else Done)
    && (admitted && email !in st.emails && !fits ==> st' == st && reply == Denied(Internal))
    && (admitted && email !in st.emails && fits ==>
          && reply == Done
          && SavesOnly(st, st', User(d.id, email, Trim(c.organisation), d.passwordHash.value, true, false, "", false)))
  }

  ghost predicate TakesEffect(cfg: Config, st: State, d: Draw, c: Call, st': State, reply: Reply) {
    match c
    case CallRegister(_, _, _) => RegisterDoes(cfg, st, d, c, st', reply)
    case CallVerifyEmail(raw) => VerifyEmailDoes(st, d, raw, st', reply)
    case CallLogin(_, _) => LoginDoes(cfg, st, d, c, st', reply)
    case CallVerifyMFA(raw, code) => VerifyMFADoes(cfg, st, d, raw, code, st', reply)
    case CallRefresh(raw) => RefreshDoes(cfg, st, d, raw, st', reply)
    case CallLogout(raw) => LogoutDoes(st, d, raw, st', reply)
    case CallForgotPassword(email) => ForgotPasswordDoes(cfg, st, d, email, st', reply)
    case CallResetPassword(raw, pw) => ResetPasswordDoes(cfg, st, d, raw, pw, st', reply)
    case CallDemoLogin => DemoLoginDoes(cfg, st, d, st', reply)
    case CallRevokeSession(userId, id) => RevokeSessionDoes(st, d, userId, id, st', reply)
    case CallEnsureExternalUser(_, _) => ExternalUserDoes(cfg, st, d, c, st', reply)
    case CallIssueTokens(userId) => OpensOnly(cfg, st, d, userId, st', reply)
    case _ => ProfileDoes(cfg, st, d, c, st', reply)
  }

  // ---------- every call does it ----------

  lemma CodeFitsIsTotp(cfg: Config, u: User, code: string, now: int)
    ensures CodeFits(cfg, u, code, now) <==> TotpValid(cfg, u, code, now)
  {
    TrimmedAwayOnBothSides(u.mfaSecret);
    var s := u.mfaSecret;
    assert AllSpace(s) <==> forall i | 0 <= i < |s| :: IsSpace(s[i]);
  }

  lemma StoredAccount(st: State, u: User)
    requires UsersAgree(st) && u.id in st.users && u.email == st.users[u.id].email
    ensures UpdateUser(st, u).Ok? && AccountBecomes(st, UpdateUser(st, u).value, u)
  {
    hide NormalizeEmail;
  }

  lemma CreatedAccount(st: State, u: User)
    requires NormalizeEmail(u.email) == u.email
    ensures CreateUser(st, u).Ok? <==> u.email !in st.emails
    ensures CreateUser(st, u).Ok? ==> AccountBecomes(st, CreateUser(st, u).value, u)
    ensures CreateUser(st, u).Err? ==> CreateUser(st, u).error == EmailTaken
  {
    hide NormalizeEmail;
  }

  lemma RegisterEffect(cfg: Config, st: State, d: Draw, c: Call)
    requires c.CallRegister?
    ensures var (st', reply) := Register(cfg, st, d, c.email, c.password, c.organisation);
            RegisterDoes(cfg, st, d, c, st', reply)
  {
    hide NormalizeEmail, HashToken, Trim, CreateUser;
    AuthAccess.NormalizeTwice(c.email);
    if d.passwordHash.Some? {
      var u := User(d.id, NormalizeEmail(c.email), Trim(c.organisation), d.passwordHash.value, !cfg.requireVerification,
                    false, "", false);
      CreatedAccount(st, u);
    }
  }

  lemma VerifyEmailEffect(st: State, d: Draw, raw: string)
    requires UsersAgree(st) && TokensKeyed(st)
    ensures var (st', reply) := VerifyEmail(st, d, raw); VerifyEmailDoes(st, d, raw, st', reply)
  {
    hide NormalizeEmail, HashToken, UpdateUser, AccountBecomes;
    TokenLoadsIff(st, d.now, raw, VerifyEmailPurpose);
    if Loads(st, d.now, raw, VerifyEmailPurpose) {
      MarkedStores(st, raw, d.now, Owner(st, d.now, raw, VerifyEmailPurpose).(emailVerified := true));
    }
  }

  /** Marking a token and then saving an account. */
  lemma MarkedStores(st: State, raw: string, now: int, u: User)
    requires UsersAgree(st) && TokensKeyed(st) && HashToken(raw) in st.tokens
    requires u.id in st.users && u.email == st.users[u.id].email
    ensures MarkTokenUsed(st, HashToken(raw), now).Ok?
    ensures var st1 := MarkTokenUsed(st, HashToken(raw), now).value;
            && UpdateUser(st1, u).Ok?
            && AccountBecomes(st, UpdateUser(st1, u).value, u)
            && TokenConsumed(st, UpdateUser(st1, u).value, raw, now)
            && SameSessions(UpdateUser(st1, u).value, st)
  {
    hide NormalizeEmail, HashToken, UpdateUser;
    var st1 := MarkTokenUsed(st, HashToken(raw), now).value;
    UsersAlone(st, st1);
    StoredAccount(st1, u);
  }

  lemma UsersAlone(st: State, st': State)
    requires UsersAgree(st) && SameUsers(st, st')
    ensures UsersAgree(st')
  {
    hide NormalizeEmail;
  }

  lemma RevokingFamily(st: State, userId: string, now: int)
    ensures var st' := RevokeSessionsForUser(st, userId, now);
            FamilyRevoked(st, st', userId, now) && SameUsers(st, st') && st'.tokens == st.tokens
  {
  }

  /** The sessions of `st'` are those of `st` with the family revoked; the rest is that of `mid`. */
  lemma RevokingAfter(st: State, mid: State, u: User, raw: string, now: int)
    requires SameSessions(mid, st) && AccountBecomes(st, mid, u) && HashToken(raw) in st.tokens
    requires TokenConsumed(st, mid, raw, now)
    ensures var st' := RevokeSessionsForUser(mid, u.id, now);
            AccountBecomes(st, st', u) && TokenConsumed(st, st', raw, now) && FamilyRevoked(st, st', u.id, now)
  {
    hide NormalizeEmail, HashToken;
    RevokingFamily(mid, u.id, now);
  }

  lemma ResetPasswordEffect(cfg: Config, st: State, d: Draw, raw: string, pw: string)
    requires UsersAgree(st) && TokensKeyed(st)
    ensures var (st', reply) := ResetPassword(cfg, st, d, raw, pw); ResetPasswordDoes(cfg, st, d, raw, pw, st', reply)
  {
    hide NormalizeEmail, HashToken, UpdateUser, MarkTokenUsed, RevokeSessionsForUser, AccountBecomes, TokenConsumed,
         FamilyRevoked;
    TokenLoadsIff(st, d.now, raw, ResetPasswordPurpose);
    if Loads(st, d.now, raw, ResetPasswordPurpose) && d.passwordHash.Some? {
      var u := Owner(st, d.now, raw, ResetPasswordPurpose).(passwordHash := d.passwordHash.value);
      MarkedStores(st, raw, d.now, u);
      RevokingAfter(st, UpdateUser(MarkTokenUsed(st, HashToken(raw), d.now).value, u).value, u, raw, d.now);
    }
  }

  lemma OpeningSession(cfg: Config, st: State, d: Draw, userId: string)
    ensures var (st', reply) := IssueSession(cfg, st, d, userId); OpensOnly(cfg, st, d, userId, st', reply)
  {
    hide HashToken;
  }

  lemma MintingToken(st: State, d: Draw, userId: string, purpose: Purpose, ttl: int)
    ensures var r := IssueToken(st, d, userId, purpose, ttl);
            && (r.Ok? <==> d.entropyOk) && (r.Err? ==> r.error == Internal)
            && Mints(st, d, userId, purpose, ttl, if r.Ok? then r.value else st)
  {
    hide HashToken;
  }

  lemma LoginEffectIs(cfg: Config, st: State, d: Draw, c: Call)
    requires c.CallLogin?
    ensures var (st', reply) := Login(cfg, st, d, c.email, c.password); LoginDoes(cfg, st, d, c, st', reply)
  {
    hide NormalizeEmail, HashToken, IssueSession, IssueToken, Mints, OpensOnly;
    AuthAccess.NormalizeTwice(c.email);
    if Known(st, c.email).Some? {
      var u := Known(st, c.email).value;
      OpeningSession(cfg, st, d, u.id);
      MintingToken(st, d, u.id, MFAChallengePurpose, cfg.mfaSessionTTL);
    }
  }

  lemma VerifyMFAEffect(cfg: Config, st: State, d: Draw, raw: string, code: string)
    requires UsersAgree(st) && TokensKeyed(st)
    ensures var (st', reply) := VerifyMFA(cfg, st, d, raw, code); VerifyMFADoes(cfg, st, d, raw, code, st', reply)
  {
    hide NormalizeEmail, HashToken, TotpValid, CodeFits;
    TokenLoadsIff(st, d.now, raw, MFAChallengePurpose);
    if Loads(st, d.now, raw, MFAChallengePurpose) {
      CodeFitsIsTotp(cfg, Owner(st, d.now, raw, MFAChallengePurpose), code, d.now);
    }
  }

  lemma RotatingStores(st: State, s: Session, next: Session)
    requires s.id != next.id && s.hash != next.hash
    ensures var st' := PutSession(PutSession(st, next), s);
            SessionRotates(st, st', s, next) && SameUsers(st, st') && st'.tokens == st.tokens
  {
  }

  lemma PresentedApart(st: State, d: Draw, h: Digest)
    requires SessionsAgree(st) && Fresh(st, d) && h in st.byHash
    ensures st.byHash[h].id != d.id && st.byHash[h].hash == h && h != HashToken(d.raw)
  {
    hide HashToken;
  }

  lemma RefreshEffectIs(cfg: Config, st: State, d: Draw, raw: string)
    requires UsersAgree(st) && SessionsAgree(st) && Fresh(st, d)
    ensures var (st', reply) := Refresh(cfg, st, d, raw); RefreshDoes(cfg, st, d, raw, st', reply)
  {
    hide NormalizeEmail, HashToken, RevokeSessionsForUser, FamilyRevoked, PutSession, SessionRotates, SessionsAgree,
         UsersAgree, Fresh;
    var h := HashToken(raw);
    if h in st.byHash {
      var s := st.byHash[h];
      PresentedApart(st, d, h);
      RevokingFamily(st, s.userId, d.now);
      RotatingStores(st, Retire(s, d), Successor(cfg, d, s.userId));
      if s.userId in st.users { var u := KeyedUser(st, s.userId); }
    }
  }

  lemma LogoutEffect(st: State, d: Draw, raw: string)
    requires SessionsAgree(st)
    ensures var (st', reply) := Logout(st, d, raw); LogoutDoes(st, d, raw, st', reply)
  {
    hide HashToken;
  }

  lemma RevokeSessionEffect(st: State, d: Draw, userId: string, id: string)
    requires SessionsAgree(st)
    ensures var (st', reply) := RevokeSession(st, d, userId, id); RevokeSessionDoes(st, d, userId, id, st', reply)
  {
    hide HashToken;
  }

  lemma ForgotPasswordEffect(cfg: Config, st: State, d: Draw, email: string)
    ensures var (st', reply) := ForgotPassword(cfg, st, d, email); ForgotPasswordDoes(cfg, st, d, email, st', reply)
  {
    hide NormalizeEmail, HashToken, IssueToken, Mints;
    AuthAccess.NormalizeTwice(email);
    if Known(st, email).Some? {
      MintingToken(st, d, Known(st, email).value.id, ResetPasswordPurpose, cfg.resetTTL);
    }
  }

  lemma SavedProfile(st: State, u: User)
    requires UsersAgree(st) && u.id in st.users && u.email == st.users[u.id].email
    ensures UpdateUser(st, u).Ok? && SavesOnly(st, UpdateUser(st, u).value, u)
  {
    hide NormalizeEmail, UpdateUser, AccountBecomes;
    StoredAccount(st, u);
  }

  lemma ChangePasswordEffect(cfg: Config, st: State, d: Draw, c: Call)
    requires UsersAgree(st) && (c.CallChangePassword? || c.CallSetupMFA?)
    ensures var (st', reply) := Step(cfg, st, d, c); ProfileDoes(cfg, st, d, c, st', reply)
  {
    hide Register, VerifyEmail, Login, VerifyMFA, Refresh, Logout, ForgotPassword, ResetPassword, ConfirmMFA,
         DisableMFA, DemoLogin, RevokeSession, EnsureExternalUser, IssueSession, UpdateUser, SavesOnly, CodeFits,
         UsersAgree;
    if c.userId in st.users {
      var u := KeyedUser(st, c.userId);
      if d.passwordHash.Some? { SavedProfile(st, u.(passwordHash := d.passwordHash.value)); }
      SavedProfile(st, u.(mfaSecret := d.secret));
    }
  }

  lemma KeyedUser(st: State, id: string) returns (u: User)
    requires UsersAgree(st) && id in st.users
    ensures u == st.users[id] && u.id == id
  {
    u := st.users[id];
  }

  lemma MFAEffect(cfg: Config, st: State, d: Draw, c: Call)
    requires UsersAgree(st) && (c.CallConfirmMFA? || c.CallDisableMFA?)
    ensures var (st', reply) := Step(cfg, st, d, c); ProfileDoes(cfg, st, d, c, st', reply)
  {
    hide Register, VerifyEmail, Login, VerifyMFA, Refresh, Logout, ForgotPassword, ResetPassword, ChangePassword,
         SetupMFA, DemoLogin, RevokeSession, EnsureExternalUser, IssueSession, UpdateUser, SavesOnly, CodeFits,
         TotpValid, UsersAgree;
    if c.userId in st.users {
      var u := KeyedUser(st, c.userId);
      SavedProfile(st, u.(mfaEnabled := true));
      SavedProfile(st, u.(mfaEnabled := false, mfaSecret := ""));
      if c.CallConfirmMFA? { CodeFitsIsTotp(cfg, u, c.code, d.now); }
    }
  }

  lemma DemoLoginEffect(cfg: Config, st: State, d: Draw)
    ensures var (st', reply) := DemoLogin(cfg, st, d); DemoLoginDoes(cfg, st, d, st', reply)
  {
    hide NormalizeEmail, HashToken, IssueSession, OpensOnly;
    if Known(st, "operator@rivicq.com").Some? { OpeningSession(cfg, st, d, Known(st, "operator@rivicq.com").value.id); }
  }

  lemma ExternalUserEffect(cfg: Config, st: State, d: Draw, c: Call)
    requires c.CallEnsureExternalUser?
    ensures var (st', reply) := EnsureExternalUser(cfg, st, d, c.email, c.organisation);
            ExternalUserDoes(cfg, st, d, c, st', reply)
  {
    hide NormalizeEmail, Trim, CreateUser, AccountBecomes;
    AuthAccess.NormalizeTwice(c.email);
    if d.passwordHash.Some? {
      var u := User(d.id, NormalizeEmail(c.email), Trim(c.organisation), d.passwordHash.value, true, false, "", false);
      CreatedAccount(st, u);
    }
  }

  /** Every call, in every consistent store: the answer is decided by the checks in the order of the source, and what
      the answer promises has been done, to exactly the records it concerns. */
  lemma EveryCallTakesEffect(cfg: Config, st: State, d: Draw, c: Call)
    requires UsersAgree(st) && SessionsAgree(st) && TokensKeyed(st) && Fresh(st, d)
    ensures var (st', reply) := Step(cfg, st, d, c); TakesEffect(cfg, st, d, c, st', reply)
  {
    hide Register, VerifyEmail, Login, VerifyMFA, Refresh, Logout, ForgotPassword, ResetPassword, ChangePassword,
         SetupMFA, ConfirmMFA, DisableMFA, DemoLogin, RevokeSession, EnsureExternalUser, IssueSession, UsersAgree,
         SessionsAgree, Fresh, TokensKeyed, RegisterDoes, VerifyEmailDoes, LoginDoes, VerifyMFADoes, RefreshDoes,
         LogoutDoes, ForgotPasswordDoes, ResetPasswordDoes, DemoLoginDoes, RevokeSessionDoes, ExternalUserDoes,
         OpensOnly, ProfileDoes;
    match c {
      case CallRegister(_, _, _) => RegisterEffect(cfg, st, d, c);
      case CallVerifyEmail(raw) => VerifyEmailEffect(st, d, raw);
      case CallLogin(_, _) => LoginEffectIs(cfg, st, d, c);
      case CallVerifyMFA(raw, code) => VerifyMFAEffect(cfg, st, d, raw, code);
      case CallRefresh(raw) => RefreshEffectIs(cfg, st, d, raw);
      case CallLogout(raw) => LogoutEffect(st, d, raw);
      case CallForgotPassword(email) => ForgotPasswordEffect(cfg, st, d, email);
      case CallResetPassword(raw, pw) => ResetPasswordEffect(cfg, st, d, raw, pw);
      case CallDemoLogin => DemoLoginEffect(cfg, st, d);
      case CallRevokeSession(userId, id) => RevokeSessionEffect(st, d, userId, id);
      case CallEnsureExternalUser(_, _) => ExternalUserEffect(cfg, st, d, c);
      case CallIssueTokens(userId) => OpeningSession(cfg, st, d, userId);
      case CallChangePassword(_, _, _) => ChangePasswordEffect(cfg, st, d, c);
      case CallSetupMFA(_) => ChangePasswordEffect(cfg, st, d, c);
      case CallConfirmMFA(_, _) => MFAEffect(cfg, st, d, c);
      case CallDisableMFA(_, _) => MFAEffect(cfg, st, d, c);
    }
  }

  // ---------- exactly who gets in ----------

  lemma EntitledGetsPair(cfg: Config, st: State, d: Draw, c: Call, userId: string)
    requires UsersAgree(st) && SessionsAgree(st) && TokensKeyed(st) && Fresh(st, d)
    requires AuthAccess.EntitledTo(cfg, st, d, c, userId)
    ensures Step(cfg, st, d, c).1 == if d.entropyOk && d.signOk then Pair(userId, d.raw) else Denied(Internal)
  {
    hide Step, NormalizeEmail, HashToken, TotpValid, CodeFits, SessionBecomes, TokenConsumed, SessionRotates,
         FamilyRevoked, SessionsAgree, TokensKeyed, Fresh;
    EveryCallTakesEffect(cfg, st, d, c);
    match c {
      case CallLogin(email, _) => AuthAccess.NormalizeTwice(email);
      case CallVerifyMFA(raw, code) => CodeFitsIsTotp(cfg, st.users[userId], code, d.now);
      case _ =>
    }
  }

  /** A call is answered with a token pair for a user exactly when it is entitled to one and neither randomness nor
      signing fails. */
  lemma PairIffEntitled(cfg: Config, st: State, d: Draw, c: Call, userId: string)
    requires UsersAgree(st) && SessionsAgree(st) && TokensKeyed(st) && Fresh(st, d)
    ensures Step(cfg, st, d, c).1 == Pair(userId, d.raw) <==>
            AuthAccess.EntitledTo(cfg, st, d, c, userId) && d.entropyOk && d.signOk
  {
    hide Step, AuthAccess.EntitledTo, UsersAgree, SessionsAgree, TokensKeyed, Fresh, HashToken;
    AuthAccess.PairsAreEarned(cfg, st, d, c);
    if AuthAccess.EntitledTo(cfg, st, d, c, userId) { EntitledGetsPair(cfg, st, d, c, userId); }
  }

  /** A login is answered with a challenge exactly when the password is right for an enabled account that may log in and
      has MFA, and randomness does not fail; the challenge is then stored for that account. */
  lemma ChallengeIff(cfg: Config, st: State, d: Draw, email: string, password: string)
    requires UsersAgree(st) && SessionsAgree(st) && TokensKeyed(st) && Fresh(st, d)
    ensures var (st', reply) := Step(cfg, st, d, CallLogin(email, password));
            && (reply.Challenge? <==>
                  && Known(st, email).Some?
                  && var u := Known(st, email).value;
                  && !u.disabled && cfg.checkPassword(password, u.passwordHash)
                  && (cfg.requireVerification ==> u.emailVerified) && u.mfaEnabled && d.entropyOk)
            && (reply.Challenge? ==>
                  && reply == Challenge(d.raw)
                  && TokenBecomes(st, st', Token(HashToken(d.raw), Known(st, email).value.id, MFAChallengePurpose,
                                                 d.now + cfg.mfaSessionTTL, None)))
  {
    hide Step, NormalizeEmail, HashToken, TokenBecomes, SessionBecomes;
    EveryCallTakesEffect(cfg, st, d, CallLogin(email, password));
  }

  /** Tokens are compared by what remains after trimming. */
  lemma DigestsAgreeIff(raw: string, raw': string)
    ensures HashToken(raw) == HashToken(raw') <==> Trim(raw) == Trim(raw')
  {
  }
}
