/** The authentication lifecycle on values: records, the store's maps, and what each service call
    does to them.  `AuthStore` and `AuthService` prove the heap code equal to these functions. */
module AuthModel {
  import opened Text

  /** SHA-256 as an injective function of the trimmed token. */
  datatype Digest = Sha256(text: string)

  function HashToken(raw: string): Digest {
    Sha256(Trim(raw))
  }

  function NormalizeEmail(email: string): string {
    Lower(Trim(email))
  }

  datatype Purpose = VerifyEmailPurpose | ResetPasswordPurpose | MFAChallengePurpose

  datatype User = User(
    id: string, email: string, organisation: string, passwordHash: string,
    emailVerified: bool, mfaEnabled: bool, mfaSecret: string, disabled: bool)

  /** `rotatedTo` is "" until the session has been rotated. */
  datatype Session = Session(
    id: string, userId: string, hash: Digest, createdAt: int, expiresAt: int,
    rotatedTo: string, revokedAt: Option<int>)

  datatype Token = Token(hash: Digest, userId: string, purpose: Purpose, expiresAt: int, usedAt: Option<int>)

  datatype Error =
    | InvalidCredentials | UserNotFound | EmailTaken | EmailNotVerified | AccountDisabled
    | InvalidMFACode | InvalidMFASession | InvalidToken | TokenUsed | SessionExpired
    | ReuseDetected | DemoDisabled | RegistrationDisabled | InvalidEmail | PasswordRejected
    | WrongPassword | DomainNotAllowed | Internal

  datatype Result<+T> = Ok(value: T) | Err(error: Error)

  /** bcrypt, the password policy and TOTP are abstract predicates of the configuration. */
  datatype Config = Config(
    refreshTTL: int, resetTTL: int, verifyTTL: int, mfaSessionTTL: int,
    allowRegistration: bool, demoMode: bool, requireVerification: bool,
    emailAllowed: string -> bool,
    passwordAccepted: (string, string, string) -> bool,
    checkPassword: (string, string) -> bool,
    totpAccepts: (string, string, int) -> bool)

  /** What one call takes from the clock and from the random source, and which library calls fail. */
  datatype Draw = Draw(
    now: int, id: string, raw: string, secret: string,
    entropyOk: bool, signOk: bool, keyOk: bool, passwordHash: Option<string>)

  datatype Reply =
    | Pair(userId: string, refreshToken: string)
    | Challenge(mfaSession: string)
    | RawToken(raw: string)
    | Done
    | Denied(error: Error)

  /** The five maps of the in-memory store, records as values. */
  datatype State = State(
    users: map<string, User>, emails: map<string, User>,
    sessions: map<string, Session>, byHash: map<Digest, Session>,
    tokens: map<Digest, Token>)

  /** uuids and opaque tokens never collide with stored ones. */
  predicate Fresh(st: State, d: Draw) {
    && d.id != ""
    && d.id !in st.sessions && d.id !in st.users
    && HashToken(d.raw) !in st.byHash && HashToken(d.raw) !in st.tokens
  }

  predicate SameSessions(st: State, st': State) {
    st.sessions == st'.sessions && st.byHash == st'.byHash
  }

  ghost predicate TokensKeyed(st: State) {
    forall h | h in st.tokens :: st.tokens[h].hash == h
  }

  /** At most one token is written: a fresh, unused one under the drawn digest. */
  predicate AtMostMints(st: State, st': State, d: Draw) {
    var h := HashToken(d.raw);
    || st'.tokens == st.tokens
    || (h in st'.tokens && st'.tokens[h].hash == h && st'.tokens == st.tokens[h := st'.tokens[h]])
  }

  /** At most one token is written: the presented one becomes used. */
  predicate AtMostRedeems(st: State, st': State, raw: string, now: int) {
    var h := HashToken(raw);
    || st'.tokens == st.tokens
    || (h in st.tokens && st'.tokens == st.tokens[h := st.tokens[h].(usedAt := Some(now))])
  }

  // ---------- store methods ----------

  function CreateUser(st: State, u: User): (r: Result<State>)
    ensures r.Ok? ==> SameSessions(r.value, st) && r.value.tokens == st.tokens
  {
    var key := NormalizeEmail(u.email);
    if key in st.emails then Err(EmailTaken)
    else Ok(st.(users := st.users[u.id := u], emails := st.emails[key := u]))
  }

  function UpdateUser(st: State, u: User): (r: Result<State>)
    ensures r.Ok? ==> SameSessions(r.value, st) && r.value.tokens == st.tokens
  {
    if u.id !in st.users then Err(UserNotFound) else
    var oldKey := NormalizeEmail(st.users[u.id].email);
    var key := NormalizeEmail(u.email);
    var kept := if oldKey != key then st.emails - {oldKey} else st.emails;
    Ok(st.(users := st.users[u.id := u], emails := kept[key := u]))
  }

  function GetUserById(st: State, id: string): Result<User> {
    if id in st.users then Ok(st.users[id]) else Err(UserNotFound)
  }

  function GetUserByEmail(st: State, email: string): Result<User> {
    var key := NormalizeEmail(email);
    if key in st.emails then Ok(st.emails[key]) else Err(UserNotFound)
  }

  /** CreateSession and UpdateSession both overwrite the two index entries. */
  function PutSession(st: State, s: Session): State {
    st.(sessions := st.sessions[s.id := s], byHash := st.byHash[s.hash := s])
  }

  /** The id and the hash are both new, or are both those of one stored session. */
  predicate MayPut(st: State, s: Session) {
    || (s.id !in st.sessions && s.hash !in st.byHash)
    || (s.id in st.sessions && st.sessions[s.id].hash == s.hash)
  }

  function GetSessionById(st: State, id: string): Result<Session> {
    if id in st.sessions then Ok(st.sessions[id]) else Err(InvalidToken)
  }

  function GetSessionByHash(st: State, h: Digest): Result<Session> {
    if h in st.byHash then Ok(st.byHash[h]) else Err(InvalidToken)
  }

  function RevokeIfOwned(s: Session, userId: string, now: int): Session {
    if s.userId == userId && s.revokedAt.None? then s.(revokedAt := Some(now)) else s
  }

  function RevokeSessionsForUser(st: State, userId: string, now: int): State {
    st.(sessions := map id | id in st.sessions :: RevokeIfOwned(st.sessions[id], userId, now),
        byHash := map h | h in st.byHash :: RevokeIfOwned(st.byHash[h], userId, now))
  }

  function CreateToken(st: State, t: Token): State {
    st.(tokens := st.tokens[t.hash := t])
  }

  function GetToken(st: State, h: Digest): Result<Token> {
    if h in st.tokens then Ok(st.tokens[h]) else Err(InvalidToken)
  }

  function MarkTokenUsed(st: State, h: Digest, now: int): (r: Result<State>)
    ensures r.Ok? ==> SameSessions(r.value, st) && r.value.users == st.users && r.value.emails == st.emails
  {
    if h in st.tokens then Ok(st.(tokens := st.tokens[h := st.tokens[h].(usedAt := Some(now))]))
    else Err(InvalidToken)
  }

  // ---------- service internals ----------

  /** A nil error is success. */
  function Report(err: Option<Error>): Reply {
    match err
    case Some(e) => Denied(e)
    case None => Done
  }

  function IssueSession(cfg: Config, st: State, d: Draw, userId: string)
    : (r: (State, Reply))
    ensures r.0.tokens == st.tokens
  {
    if !d.entropyOk then (st, Denied(Internal)) else
    var s := Session(d.id, userId, HashToken(d.raw), d.now, d.now + cfg.refreshTTL, "", None);
    (PutSession(st, s), if d.signOk then Pair(userId, d.raw) else Denied(Internal))
  }

  function IssueToken(st: State, d: Draw, userId: string, purpose: Purpose, ttl: int): (r: Result<State>)
    ensures r.Ok? ==> SameSessions(r.value, st) && r.value.users == st.users && r.value.emails == st.emails
  {
    if !d.entropyOk then Err(Internal)
    else Ok(CreateToken(st, Token(HashToken(d.raw), userId, purpose, d.now + ttl, None)))
  }

  /** Success means an unused, unexpired token of this purpose whose owner exists. */
  function LoadToken(st: State, now: int, raw: string, purpose: Purpose): (r: Result<(Token, User)>)
    ensures r.Ok? ==>
      && HashToken(raw) in st.tokens && r.value.0 == st.tokens[HashToken(raw)]
      && r.value.0.purpose == purpose && r.value.0.usedAt.None? && now < r.value.0.expiresAt
      && r.value.0.userId in st.users && r.value.1 == st.users[r.value.0.userId]
  {
    match GetToken(st, HashToken(raw))
    case Err(_) => Err(InvalidToken)
    case Ok(tok) =>
      if tok.purpose != purpose then Err(InvalidToken)
      else if tok.usedAt.Some? then Err(TokenUsed)
      else if !(now < tok.expiresAt) then Err(InvalidToken)
      else match GetUserById(st, tok.userId)
        case Err(_) => Err(InvalidToken)
        case Ok(u) => Ok((tok, u))
  }

  function TotpValid(cfg: Config, u: User, code: string, now: int): bool {
    Trim(u.mfaSecret) != "" && cfg.totpAccepts(Trim(code), u.mfaSecret, now)
  }

  function SaveUser(st: State, u: User)
    : (r: (State, Reply))
    ensures SameSessions(r.0, st) && r.0.tokens == st.tokens
  {
    match UpdateUser(st, u)
    case Err(e) => (st, Denied(e))
    case Ok(st') => (st', Done)
  }

  // ---------- service calls ----------

  function Register(cfg: Config, st: State, d: Draw, rawEmail: string, password: string, organisation: string)
    : (r: (State, Reply))
    ensures SameSessions(r.0, st)
    ensures AtMostMints(st, r.0, d)
  {
    var email := NormalizeEmail(rawEmail);
    if !cfg.allowRegistration && !cfg.demoMode then (st, Denied(RegistrationDisabled))
    else if email == "" || '@' !in email then (st, Denied(InvalidEmail))
    else if !cfg.emailAllowed(email) then (st, Denied(DomainNotAllowed))
    else if !cfg.passwordAccepted(password, email, organisation) then (st, Denied(PasswordRejected))
    else if d.passwordHash.None? then (st, Denied(Internal))
    else
      var u := User(d.id, email, Trim(organisation), d.passwordHash.value, !cfg.requireVerification, false, "", false);
      match CreateUser(st, u)
      case Err(e) => (st, Denied(e))
      case Ok(st1) =>
        if !cfg.requireVerification then (st1, RawToken(""))
        else match IssueToken(st1, d, u.id, VerifyEmailPurpose, cfg.verifyTTL)
          case Err(e) => (st1, Denied(e))
          case Ok(st2) => (st2, RawToken(d.raw))
  }

  function VerifyEmail(st: State, d: Draw, raw: string)
    : (r: (State, Reply))
    ensures SameSessions(r.0, st)
    ensures TokensKeyed(st) ==> AtMostRedeems(st, r.0, raw, d.now)
  {
    match LoadToken(st, d.now, raw, VerifyEmailPurpose)
    case Err(e) => (st, Denied(e))
    case Ok((tok, u)) =>
      match MarkTokenUsed(st, tok.hash, d.now)
      case Err(e) => (st, Denied(e))
      case Ok(st1) => SaveUser(st1, u.(emailVerified := true))
  }

  function Login(cfg: Config, st: State, d: Draw, email: string, password: string)
    : (r: (State, Reply))
    ensures AtMostMints(st, r.0, d)
  {
    match GetUserByEmail(st, NormalizeEmail(email))
    case Err(_) => (st, Denied(InvalidCredentials))
    case Ok(u) =>
      if u.disabled then (st, Denied(AccountDisabled))
      else if !cfg.checkPassword(password, u.passwordHash) then (st, Denied(InvalidCredentials))
      else if !u.emailVerified && cfg.requireVerification then (st, Denied(EmailNotVerified))
      else if u.mfaEnabled then
        match IssueToken(st, d, u.id, MFAChallengePurpose, cfg.mfaSessionTTL)
        case Err(e) => (st, Denied(e))
        case Ok(st1) => (st1, Challenge(d.raw))
      else IssueSession(cfg, st, d, u.id)
  }

  function VerifyMFA(cfg: Config, st: State, d: Draw, raw: string, code: string)
    : (r: (State, Reply))
    ensures TokensKeyed(st) ==> AtMostRedeems(st, r.0, raw, d.now)
  {
    match LoadToken(st, d.now, raw, MFAChallengePurpose)
    case Err(_) => (st, Denied(InvalidMFASession))
    case Ok((tok, u)) =>
      if !TotpValid(cfg, u, code, d.now) then (st, Denied(InvalidMFACode))
      else match MarkTokenUsed(st, tok.hash, d.now)
        case Err(_) => (st, Denied(InvalidMFASession))
        case Ok(st1) => IssueSession(cfg, st1, d, u.id)
  }

  function Successor(cfg: Config, d: Draw, userId: string): Session {
    Session(d.id, userId, HashToken(d.raw), d.now, d.now + cfg.refreshTTL, "", None)
  }

  function Retire(s: Session, d: Draw): Session {
    s.(revokedAt := Some(d.now), rotatedTo := d.id)
  }

  function Refresh(cfg: Config, st: State, d: Draw, raw: string)
    : (r: (State, Reply))
    ensures r.0.tokens == st.tokens
  {
    match GetSessionByHash(st, HashToken(raw))
    case Err(_) => (st, Denied(InvalidToken))
    case Ok(s) =>
      if s.revokedAt.Some? then
        if s.rotatedTo != "" then (RevokeSessionsForUser(st, s.userId, d.now), Denied(ReuseDetected))
        else (st, Denied(InvalidToken))
      else if !(d.now < s.expiresAt) then (st, Denied(SessionExpired))
      else if GetUserById(st, s.userId).Err? || GetUserById(st, s.userId).value.disabled then
        (RevokeSessionsForUser(st, s.userId, d.now), Denied(InvalidToken))
      else if !d.entropyOk then (st, Denied(Internal))
      else
        var userId := GetUserById(st, s.userId).value.id;
        var st1 := PutSession(PutSession(st, Successor(cfg, d, userId)), Retire(s, d));
        (st1, if d.signOk then Pair(userId, d.raw) else Denied(Internal))
  }

  function Logout(st: State, d: Draw, raw: string)
    : (r: (State, Reply))
    ensures r.0.tokens == st.tokens
  {
    match GetSessionByHash(st, HashToken(raw))
    case Err(_) => (st, Done)
    case Ok(s) => (PutSession(st, s.(revokedAt := Some(d.now))), Done)
  }

  function ForgotPassword(cfg: Config, st: State, d: Draw, email: string)
    : (r: (State, Reply))
    ensures SameSessions(r.0, st)
    ensures AtMostMints(st, r.0, d)
  {
    match GetUserByEmail(st, NormalizeEmail(email))
    case Err(_) => (st, RawToken(""))
    case Ok(u) =>
      match IssueToken(st, d, u.id, ResetPasswordPurpose, cfg.resetTTL)
      case Err(e) => (st, Denied(e))
      case Ok(st1) => (st1, RawToken(d.raw))
  }

  function ResetPassword(cfg: Config, st: State, d: Draw, raw: string, newPassword: string)
    : (r: (State, Reply))
    ensures TokensKeyed(st) ==> AtMostRedeems(st, r.0, raw, d.now)
  {
    match LoadToken(st, d.now, raw, ResetPasswordPurpose)
    case Err(e) => (st, Denied(e))
    case Ok((tok, u)) =>
      if !cfg.passwordAccepted(newPassword, u.email, u.organisation) then (st, Denied(PasswordRejected))
      else if d.passwordHash.None? then (st, Denied(Internal))
      else match MarkTokenUsed(st, tok.hash, d.now)
        case Err(e) => (st, Denied(e))
        case Ok(st1) =>
          match UpdateUser(st1, u.(passwordHash := d.passwordHash.value))
          case Err(e) => (st1, Denied(e))
          case Ok(st2) => (RevokeSessionsForUser(st2, u.id, d.now), Done)
  }

  function ChangePassword(cfg: Config, st: State, d: Draw, userId: string, current: string, next: string)
    : (r: (State, Reply))
    ensures SameSessions(r.0, st)
    ensures r.0.tokens == st.tokens
  {
    match GetUserById(st, userId)
    case Err(_) => (st, Denied(UserNotFound))
    case Ok(u) =>
      if !cfg.checkPassword(current, u.passwordHash) then (st, Denied(WrongPassword))
      else if !cfg.passwordAccepted(next, u.email, u.organisation) then (st, Denied(PasswordRejected))
      else if d.passwordHash.None? then (st, Denied(Internal))
      else SaveUser(st, u.(passwordHash := d.passwordHash.value))
  }

  function SetupMFA(st: State, d: Draw, userId: string)
    : (r: (State, Reply))
    ensures SameSessions(r.0, st)
    ensures r.0.tokens == st.tokens
  {
    match GetUserById(st, userId)
    case Err(_) => (st, Denied(UserNotFound))
    case Ok(u) =>
      if !d.keyOk then (st, Denied(Internal))
      else match UpdateUser(st, u.(mfaSecret := d.secret))
        case Err(e) => (st, Denied(e))
        case Ok(st1) => (st1, RawToken(d.secret))
  }

  function ConfirmMFA(cfg: Config, st: State, d: Draw, userId: string, code: string)
    : (r: (State, Reply))
    ensures SameSessions(r.0, st)
    ensures r.0.tokens == st.tokens
  {
    match GetUserById(st, userId)
    case Err(_) => (st, Denied(UserNotFound))
    case Ok(u) =>
      if !TotpValid(cfg, u, code, d.now) then (st, Denied(InvalidMFACode))
      else SaveUser(st, u.(mfaEnabled := true))
  }

  function DisableMFA(cfg: Config, st: State, userId: string, password: string)
    : (r: (State, Reply))
    ensures SameSessions(r.0, st)
    ensures r.0.tokens == st.tokens
  {
    match GetUserById(st, userId)
    case Err(_) => (st, Denied(UserNotFound))
    case Ok(u) =>
      if !cfg.checkPassword(password, u.passwordHash) then (st, Denied(InvalidCredentials))
      else SaveUser(st, u.(mfaEnabled := false, mfaSecret := ""))
  }

  function DemoLogin(cfg: Config, st: State, d: Draw)
    : (r: (State, Reply))
    ensures r.0.tokens == st.tokens
  {
    if !cfg.demoMode then (st, Denied(DemoDisabled))
    else match GetUserByEmail(st, "operator@rivicq.com")
      case Err(_) => (st, Denied(DemoDisabled))
      case Ok(u) => IssueSession(cfg, st, d, u.id)
  }

  function RevokeSession(st: State, d: Draw, userId: string, sessionId: string)
    : (r: (State, Reply))
    ensures r.0.tokens == st.tokens
  {
    match GetSessionById(st, sessionId)
    case Err(_) => (st, Denied(InvalidToken))
    case Ok(s) =>
      if s.userId != userId then (st, Denied(InvalidToken))
      else (PutSession(st, s.(revokedAt := Some(d.now))), Done)
  }

  function EnsureExternalUser(cfg: Config, st: State, d: Draw, rawEmail: string, organisation: string)
    : (r: (State, Reply))
    ensures SameSessions(r.0, st)
    ensures r.0.tokens == st.tokens
  {
    var email := NormalizeEmail(rawEmail);
    if email == "" || '@' !in email then (st, Denied(InvalidEmail))
    else if !cfg.emailAllowed(email) then (st, Denied(DomainNotAllowed))
    else match GetUserByEmail(st, email)
      case Ok(existing) => (st, if existing.disabled then Denied(AccountDisabled) else Done)
      case Err(_) =>
        if !d.entropyOk || d.passwordHash.None? then (st, Denied(Internal))
        else
          var u := User(d.id, email, Trim(organisation), d.passwordHash.value, true, false, "", false);
          match CreateUser(st, u)
          case Err(_) => (st, Done)
          case Ok(st1) => (st1, Done)
  }

  // ---------- calls, runs ----------

  datatype Call =
    | CallRegister(email: string, password: string, organisation: string)
    | CallVerifyEmail(raw: string)
    | CallLogin(email: string, password: string)
    | CallVerifyMFA(raw: string, code: string)
    | CallRefresh(raw: string)
    | CallLogout(raw: string)
    | CallForgotPassword(email: string)
    | CallResetPassword(raw: string, newPassword: string)
    | CallChangePassword(userId: string, current: string, next: string)
    | CallSetupMFA(userId: string)
    | CallConfirmMFA(userId: string, code: string)
    | CallDisableMFA(userId: string, password: string)
    | CallDemoLogin
    | CallRevokeSession(userId: string, sessionId: string)
    | CallEnsureExternalUser(email: string, organisation: string)
    | CallIssueTokens(userId: string)

  function Step(cfg: Config, st: State, d: Draw, c: Call): (State, Reply) {
    match c
    case CallRegister(email, password, organisation) => Register(cfg, st, d, email, password, organisation)
    case CallVerifyEmail(raw) => VerifyEmail(st, d, raw)
    case CallLogin(email, password) => Login(cfg, st, d, email, password)
    case CallVerifyMFA(raw, code) => VerifyMFA(cfg, st, d, raw, code)
    case CallRefresh(raw) => Refresh(cfg, st, d, raw)
    case CallLogout(raw) => Logout(st, d, raw)
    case CallForgotPassword(email) => ForgotPassword(cfg, st, d, email)
    case CallResetPassword(raw, newPassword) => ResetPassword(cfg, st, d, raw, newPassword)
    case CallChangePassword(userId, current, next) => ChangePassword(cfg, st, d, userId, current, next)
    case CallSetupMFA(userId) => SetupMFA(st, d, userId)
    case CallConfirmMFA(userId, code) => ConfirmMFA(cfg, st, d, userId, code)
    case CallDisableMFA(userId, password) => DisableMFA(cfg, st, userId, password)
    case CallDemoLogin => DemoLogin(cfg, st, d)
    case CallRevokeSession(userId, sessionId) => RevokeSession(st, d, userId, sessionId)
    case CallEnsureExternalUser(email, organisation) => EnsureExternalUser(cfg, st, d, email, organisation)
    case CallIssueTokens(userId) => IssueSession(cfg, st, d, userId)
  }
}
