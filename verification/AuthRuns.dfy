/** Safety over whole runs of atomic service calls. */
module AuthRuns {
  import opened Text
  import opened AuthModel

  // ---------- runs ----------

  datatype Event = Event(draw: Draw, call: Call)

  /** The state before event `i`; `i == |run|` is the state the run ends in. */
  ghost function StateAt(cfg: Config, st: State, run: seq<Event>, i: nat): State
    requires i <= |run|
  {
    if i == 0 then st else Step(cfg, StateAt(cfg, st, run, i - 1), run[i - 1].draw, run[i - 1].call).0
  }

  ghost function ReplyAt(cfg: Config, st: State, run: seq<Event>, i: nat): Reply
    requires i < |run|
  {
    Step(cfg, StateAt(cfg, st, run, i), run[i].draw, run[i].call).1
  }

  /** No draw of the run collides with what is stored when it is made. */
  ghost predicate FreshRun(cfg: Config, st: State, run: seq<Event>) {
    forall i {:trigger FreshAt(cfg, st, run, i)} | 0 <= i < |run| :: FreshAt(cfg, st, run, i)
  }

  ghost predicate FreshAt(cfg: Config, st: State, run: seq<Event>, i: nat)
    requires i < |run|
  {
    Fresh(StateAt(cfg, st, run, i), run[i].draw)
  }

  /** A store before its first session and its first out-of-band token; users may have been seeded. */
  ghost predicate Start(st: State) {
    UsersAgree(st) && st.sessions == map[] && st.byHash == map[] && st.tokens == map[]
  }

  /** Numbers every session by how many sessions were stored before it. */
  ghost function RankAt(cfg: Config, st: State, run: seq<Event>, i: nat): map<string, nat>
    requires i <= |run|
  {
    if i == 0 then map[] else
      Ranked(RankAt(cfg, st, run, i - 1), StateAt(cfg, st, run, i - 1), StateAt(cfg, st, run, i))
  }

  ghost function Ranked(rank: map<string, nat>, st: State, st': State): map<string, nat> {
    map id | id in st'.sessions :: if id in rank then rank[id] else |st.sessions|
  }

  // ---------- invariants ----------

  /** The id index and the hash index hold the same records. */
  ghost predicate SessionsAgree(st: State) {
    && (forall id | id in st.sessions ::
          && st.sessions[id].id == id
          && st.sessions[id].hash in st.byHash && st.byHash[st.sessions[id].hash] == st.sessions[id])
    && (forall h | h in st.byHash ::
          && st.byHash[h].hash == h
          && st.byHash[h].id in st.sessions && st.sessions[st.byHash[h].id] == st.byHash[h])
  }

  /** The id index and the email index hold the same users. */
  ghost predicate UsersAgree(st: State) {
    && (forall id | id in st.users ::
          && st.users[id].id == id
          && NormalizeEmail(st.users[id].email) in st.emails
          && st.emails[NormalizeEmail(st.users[id].email)] == st.users[id])
    && (forall e | e in st.emails ::
          && NormalizeEmail(st.emails[e].email) == e
          && st.emails[e].id in st.users && st.users[st.emails[e].id] == st.emails[e])
  }

  ghost predicate RotatedAreRevoked(st: State) {
    forall id | id in st.sessions && st.sessions[id].rotatedTo != "" :: st.sessions[id].revokedAt.Some?
  }

  ghost predicate Inv(st: State) {
    SessionsAgree(st) && UsersAgree(st) && TokensKeyed(st) && RotatedAreRevoked(st)
  }

  /** Rotation leads to a later stored session of the same user, and no two sessions share a successor. */
  ghost predicate Linked(st: State, rank: map<string, nat>) {
    RankFits(st, rank) && (forall id | id in st.sessions :: LinkFits(st, rank, id)) && NoSharedSuccessor(st)
  }

  ghost predicate RankFits(st: State, rank: map<string, nat>) {
    rank.Keys == st.sessions.Keys && forall id | id in rank :: rank[id] < |st.sessions|
  }

  predicate LinkFits(st: State, rank: map<string, nat>, id: string)
    requires id in st.sessions && rank.Keys == st.sessions.Keys
  {
    var next := st.sessions[id].rotatedTo;
    next != "" ==>
      next in st.sessions && st.sessions[next].userId == st.sessions[id].userId && rank[id] < rank[next]
  }

  ghost predicate NoSharedSuccessor(st: State) {
    forall a, b | a in st.sessions && b in st.sessions && a != b && st.sessions[a].rotatedTo != "" ::
      st.sessions[a].rotatedTo != st.sessions[b].rotatedTo
  }

  // ---------- what one call can do ----------

  datatype SessionEffect =
    | Untouched
    | Opened(s: Session)
    | Closed(s: Session)
    | Rotated(s: Session, next: Session)
    | AllRevoked(userId: string)

  predicate New(d: Draw, s: Session) {
    s.id == d.id && s.hash == HashToken(d.raw) && s.rotatedTo == "" && s.revokedAt.None?
  }

  /** The five things a service call may do to the session maps. */
  predicate DidToSessions(st: State, st': State, d: Draw, e: SessionEffect) {
    match e
    case Untouched => st'.sessions == st.sessions && st'.byHash == st.byHash
    case Opened(s) => New(d, s) && SameSessions(st', PutSession(st, s))
    case Closed(s) =>
      && s.id in st.sessions && st.sessions[s.id] == s
      && SameSessions(st', PutSession(st, s.(revokedAt := Some(d.now))))
    case Rotated(s, next) =>
      && s.id in st.sessions && st.sessions[s.id] == s && s.revokedAt.None?
      && New(d, next) && next.userId == s.userId
      && SameSessions(st', PutSession(PutSession(st, next), Retire(s, d)))
    case AllRevoked(u) => SameSessions(st', RevokeSessionsForUser(st, u, d.now))
  }

  lemma RefreshEffect(cfg: Config, st: State, d: Draw, raw: string) returns (e: SessionEffect)
    requires SessionsAgree(st) && UsersAgree(st) && Fresh(st, d)
    ensures DidToSessions(st, Refresh(cfg, st, d, raw).0, d, e)
  {
    match GetSessionByHash(st, HashToken(raw))
    case Err(_) => e := Untouched;
    case Ok(s) =>
      if s.revokedAt.Some? {
        e := if s.rotatedTo != "" then AllRevoked(s.userId) else Untouched;
      } else if !(d.now < s.expiresAt) {
        e := Untouched;
      } else if GetUserById(st, s.userId).Err? || GetUserById(st, s.userId).value.disabled {
        e := AllRevoked(s.userId);
      } else {
        e := if d.entropyOk then Rotated(s, Successor(cfg, d, s.userId)) else Untouched;
      }
  }

  lemma ResetEffect(cfg: Config, st: State, d: Draw, raw: string, pw: string) returns (e: SessionEffect)
    ensures DidToSessions(st, ResetPassword(cfg, st, d, raw, pw).0, d, e)
  {
    var loaded := LoadToken(st, d.now, raw, ResetPasswordPurpose);
    if loaded.Ok? && ResetPassword(cfg, st, d, raw, pw).1.Done? {
      e := AllRevoked(loaded.value.1.id);
    } else {
      e := Untouched;
    }
  }

  lemma LoginEffect(cfg: Config, st: State, d: Draw, c: Call) returns (e: SessionEffect)
    requires c.CallLogin? || c.CallVerifyMFA? || c.CallDemoLogin? || c.CallIssueTokens?
    ensures DidToSessions(st, Step(cfg, st, d, c).0, d, e)
  {
    hide Register, VerifyEmail, Refresh, Logout, ForgotPassword, ResetPassword, ChangePassword, SetupMFA, ConfirmMFA,
         DisableMFA, RevokeSession, EnsureExternalUser, HashToken, NormalizeEmail, TotpValid;
    var st' := Step(cfg, st, d, c).0;
    e := if d.id in st'.sessions && !SameSessions(st', st) then Opened(st'.sessions[d.id]) else Untouched;
  }

  /** Every service call does one of the five. */
  lemma EffectOf(cfg: Config, st: State, d: Draw, c: Call) returns (e: SessionEffect)
    requires SessionsAgree(st) && UsersAgree(st) && Fresh(st, d)
    ensures DidToSessions(st, Step(cfg, st, d, c).0, d, e)
  {
    hide Register, VerifyEmail, Login, VerifyMFA, Refresh, ForgotPassword, ResetPassword, ChangePassword, SetupMFA,
         ConfirmMFA, DisableMFA, DemoLogin, EnsureExternalUser, IssueSession, HashToken, UsersAgree;
    match c {
      case CallRefresh(raw) => e := RefreshEffect(cfg, st, d, raw);
      case CallResetPassword(raw, pw) => e := ResetEffect(cfg, st, d, raw, pw);
      case CallLogout(raw) =>
        var r := GetSessionByHash(st, HashToken(raw));
        e := if r.Ok? then Closed(r.value) else Untouched;
      case CallRevokeSession(userId, id) =>
        var r := GetSessionById(st, id);
        e := if r.Ok? && r.value.userId == userId then Closed(r.value) else Untouched;
      case CallLogin(_, _) => e := LoginEffect(cfg, st, d, c);
      case CallVerifyMFA(_, _) => e := LoginEffect(cfg, st, d, c);
      case CallDemoLogin => e := LoginEffect(cfg, st, d, c);
      case CallIssueTokens(_) => e := LoginEffect(cfg, st, d, c);
      case _ => e := Untouched;
    }
  }

  // ---------- users ----------

  lemma CreateUserKeepsUsers(st: State, u: User)
    requires UsersAgree(st) && u.id !in st.users && CreateUser(st, u).Ok?
    ensures UsersAgree(CreateUser(st, u).value)
  {
  }

  lemma UpdateUserKeepsUsers(st: State, u: User)
    requires UsersAgree(st) && u.id in st.users && u.email == st.users[u.id].email
    ensures UpdateUser(st, u).Ok? && UsersAgree(UpdateUser(st, u).value)
  {
  }

  /** Calls that only open or revoke sessions or mint tokens do not touch users. */
  lemma SessionCallKeepsUsers(cfg: Config, st: State, d: Draw, c: Call)
    requires c.CallLogin? || c.CallVerifyMFA? || c.CallRefresh? || c.CallLogout? || c.CallForgotPassword?
             || c.CallDemoLogin? || c.CallRevokeSession? || c.CallIssueTokens?
    ensures Step(cfg, st, d, c).0.users == st.users && Step(cfg, st, d, c).0.emails == st.emails
  {
    hide Register, VerifyEmail, ResetPassword, ChangePassword, SetupMFA, ConfirmMFA, DisableMFA, EnsureExternalUser,
         HashToken, NormalizeEmail, TotpValid;
  }

  lemma VerifyEmailKeepsUsers(st: State, d: Draw, raw: string)
    requires UsersAgree(st)
    ensures UsersAgree(VerifyEmail(st, d, raw).0)
  {
    var loaded := LoadToken(st, d.now, raw, VerifyEmailPurpose);
    if loaded.Ok? {
      var (tok, u) := loaded.value;
      var marked := MarkTokenUsed(st, tok.hash, d.now);
      if marked.Ok? { UpdateUserKeepsUsers(marked.value, u.(emailVerified := true)); }
    }
  }

  lemma ResetPasswordKeepsUsers(cfg: Config, st: State, d: Draw, raw: string, pw: string)
    requires UsersAgree(st)
    ensures UsersAgree(ResetPassword(cfg, st, d, raw, pw).0)
  {
    var loaded := LoadToken(st, d.now, raw, ResetPasswordPurpose);
    if loaded.Ok? && d.passwordHash.Some? {
      var (tok, u) := loaded.value;
      var marked := MarkTokenUsed(st, tok.hash, d.now);
      if marked.Ok? { UpdateUserKeepsUsers(marked.value, u.(passwordHash := d.passwordHash.value)); }
    }
  }

  /** A profile call leaves the store alone or saves one record under its own id and email. */
  lemma ProfileCallSaves(cfg: Config, st: State, d: Draw, c: Call) returns (u: User)
    requires c.CallChangePassword? || c.CallSetupMFA? || c.CallConfirmMFA? || c.CallDisableMFA?
    requires c.userId in st.users && st.users[c.userId].id == c.userId
    ensures u.id == c.userId && u.email == st.users[c.userId].email
    ensures Step(cfg, st, d, c).0 == st || UpdateUser(st, u) == Ok(Step(cfg, st, d, c).0)
  {
    u := st.users[c.userId];
    match c {
      case CallChangePassword(_, _, _) =>
        if d.passwordHash.Some? { u := u.(passwordHash := d.passwordHash.value); }
      case CallSetupMFA(_) => u := u.(mfaSecret := d.secret);
      case CallConfirmMFA(_, _) => u := u.(mfaEnabled := true);
      case CallDisableMFA(_, _) => u := u.(mfaEnabled := false, mfaSecret := "");
    }
  }

  lemma ProfileCallKeepsUsers(cfg: Config, st: State, d: Draw, c: Call)
    requires UsersAgree(st)
    requires c.CallChangePassword? || c.CallSetupMFA? || c.CallConfirmMFA? || c.CallDisableMFA?
    ensures UsersAgree(Step(cfg, st, d, c).0)
  {
    hide NormalizeEmail, HashToken, TotpValid, UpdateUser;
    if c.userId in st.users {
      var u := ProfileCallSaves(cfg, st, d, c);
      UpdateUserKeepsUsers(st, u);
    }
  }

  lemma RegisterKeepsUsers(cfg: Config, st: State, d: Draw, rawEmail: string, pw: string, org: string)
    requires UsersAgree(st) && d.id !in st.users
    ensures UsersAgree(Register(cfg, st, d, rawEmail, pw, org).0)
  {
    if d.passwordHash.Some? {
      var u := User(d.id, NormalizeEmail(rawEmail), Trim(org), d.passwordHash.value, !cfg.requireVerification, false,
                    "", false);
      if CreateUser(st, u).Ok? { CreateUserKeepsUsers(st, u); }
    }
  }

  lemma EnsureExternalUserKeepsUsers(cfg: Config, st: State, d: Draw, rawEmail: string, org: string)
    requires UsersAgree(st) && d.id !in st.users
    ensures UsersAgree(EnsureExternalUser(cfg, st, d, rawEmail, org).0)
  {
    if d.passwordHash.Some? {
      var u := User(d.id, NormalizeEmail(rawEmail), Trim(org), d.passwordHash.value, true, false, "", false);
      if CreateUser(st, u).Ok? { CreateUserKeepsUsers(st, u); }
    }
  }

  /** No service call breaks the agreement of the id index and the email index. */
  lemma StepKeepsUsers(cfg: Config, st: State, d: Draw, c: Call)
    requires UsersAgree(st) && Fresh(st, d)
    ensures UsersAgree(Step(cfg, st, d, c).0)
  {
    match c {
      case CallRegister(email, pw, org) => RegisterKeepsUsers(cfg, st, d, email, pw, org);
      case CallEnsureExternalUser(email, org) => EnsureExternalUserKeepsUsers(cfg, st, d, email, org);
      case CallVerifyEmail(raw) => VerifyEmailKeepsUsers(st, d, raw);
      case CallResetPassword(raw, pw) => ResetPasswordKeepsUsers(cfg, st, d, raw, pw);
      case CallChangePassword(_, _, _) => ProfileCallKeepsUsers(cfg, st, d, c);
      case CallSetupMFA(_) => ProfileCallKeepsUsers(cfg, st, d, c);
      case CallConfirmMFA(_, _) => ProfileCallKeepsUsers(cfg, st, d, c);
      case CallDisableMFA(_, _) => ProfileCallKeepsUsers(cfg, st, d, c);
      case _ => SessionCallKeepsUsers(cfg, st, d, c);
    }
  }

  // ---------- sessions ----------

  /** What may happen to stored sessions over time: none disappears, identity and lifetime are fixed,
      a revocation is final, and a rotation is final. */
  ghost predicate Evolves(st: State, st': State) {
    forall id | id in st.sessions ::
      && id in st'.sessions
      && Ages(st.sessions[id], st'.sessions[id])
  }

  predicate Ages(s: Session, s': Session) {
    && s' == s.(revokedAt := s'.revokedAt, rotatedTo := s'.rotatedTo)
    && (s.revokedAt.Some? ==> s'.revokedAt.Some?)
    && (s.rotatedTo != "" ==> s'.rotatedTo == s.rotatedTo)
  }

  lemma PutKeepsAgreement(st: State, s: Session)
    requires SessionsAgree(st) && MayPut(st, s)
    ensures SessionsAgree(PutSession(st, s))
  {
  }

  lemma RevokingKeepsAgreement(st: State, userId: string, now: int)
    requires SessionsAgree(st)
    ensures SessionsAgree(RevokeSessionsForUser(st, userId, now))
  {
  }

  lemma AgreementIsOfSessions(st: State, st': State)
    requires SessionsAgree(st) && SameSessions(st', st)
    ensures SessionsAgree(st')
  {
  }

  lemma EffectKeepsAgreement(st: State, st': State, d: Draw, e: SessionEffect)
    requires SessionsAgree(st) && Fresh(st, d) && DidToSessions(st, st', d, e)
    ensures SessionsAgree(st')
  {
    hide SessionsAgree, RevokeSessionsForUser, HashToken;
    match e {
      case Untouched => AgreementIsOfSessions(st, st');
      case Opened(s) =>
        PutKeepsAgreement(st, s);
        AgreementIsOfSessions(PutSession(st, s), st');
      case Closed(s) =>
        var closed := s.(revokedAt := Some(d.now));
        PutKeepsAgreement(st, closed);
        AgreementIsOfSessions(PutSession(st, closed), st');
      case Rotated(s, next) =>
        PutKeepsAgreement(st, next);
        PutKeepsAgreement(PutSession(st, next), Retire(s, d));
        AgreementIsOfSessions(PutSession(PutSession(st, next), Retire(s, d)), st');
      case AllRevoked(u) =>
        RevokingKeepsAgreement(st, u, d.now);
        AgreementIsOfSessions(RevokeSessionsForUser(st, u, d.now), st');
    }
  }

  lemma RevokingAges(st: State, st': State, d: Draw, e: SessionEffect)
    requires e.AllRevoked?
    requires SessionsAgree(st) && RotatedAreRevoked(st) && Fresh(st, d) && DidToSessions(st, st', d, e)
    ensures Evolves(st, st') && RotatedAreRevoked(st') && AtMostOneMore(st, st', d.id)
  {
  }

  lemma RotatingAges(st: State, st': State, d: Draw, e: SessionEffect)
    requires e.Rotated?
    requires SessionsAgree(st) && RotatedAreRevoked(st) && Fresh(st, d) && DidToSessions(st, st', d, e)
    ensures Evolves(st, st') && RotatedAreRevoked(st') && AtMostOneMore(st, st', d.id)
  {
  }

  lemma PuttingAges(st: State, st': State, d: Draw, e: SessionEffect)
    requires e.Untouched? || e.Opened? || e.Closed?
    requires SessionsAgree(st) && RotatedAreRevoked(st) && Fresh(st, d) && DidToSessions(st, st', d, e)
    ensures Evolves(st, st') && RotatedAreRevoked(st') && AtMostOneMore(st, st', d.id)
  {
  }

  lemma EffectAges(st: State, st': State, d: Draw, e: SessionEffect)
    requires SessionsAgree(st) && RotatedAreRevoked(st) && Fresh(st, d) && DidToSessions(st, st', d, e)
    ensures Evolves(st, st') && RotatedAreRevoked(st') && AtMostOneMore(st, st', d.id)
  {
    hide *;
    match e {
      case AllRevoked(_) => RevokingAges(st, st', d, e);
      case Rotated(_, _) => RotatingAges(st, st', d, e);
      case _ => PuttingAges(st, st', d, e);
    }
  }

  predicate AtMostOneMore(st: State, st': State, id: string) {
    id !in st.sessions && (st'.sessions.Keys == st.sessions.Keys || st'.sessions.Keys == st.sessions.Keys + {id})
  }

  /** A link of `st'` is a link of `st`, or leads from an unlinked session of `st` to the new session `newId`. */
  predicate OldOrNewLink(st: State, st': State, newId: string, id: string)
    requires id in st'.sessions
  {
    var next := st'.sessions[id].rotatedTo;
    || next == ""
    || (id in st.sessions && st.sessions[id].rotatedTo == next)
    || (id in st.sessions && st.sessions[id].rotatedTo == "" && next == newId && newId in st'.sessions
        && st'.sessions[newId].userId == st'.sessions[id].userId)
  }

  /** At most one session gains a link. */
  ghost predicate LinksGrow(st: State, st': State, newId: string) {
    && (forall id | id in st'.sessions :: OldOrNewLink(st, st', newId, id))
    && (forall a, b | a in st'.sessions && b in st'.sessions
                      && st'.sessions[a].rotatedTo == newId && st'.sessions[b].rotatedTo == newId :: a == b)
  }

  lemma RotatingLinks(st: State, st': State, d: Draw, e: SessionEffect)
    requires e.Rotated?
    requires SessionsAgree(st) && RotatedAreRevoked(st) && Fresh(st, d) && DidToSessions(st, st', d, e)
    requires forall id | id in st.sessions :: st.sessions[id].rotatedTo != d.id
    ensures LinksGrow(st, st', d.id)
  {
  }

  lemma OtherwiseNoLinks(st: State, st': State, d: Draw, e: SessionEffect)
    requires !e.Rotated?
    requires SessionsAgree(st) && Fresh(st, d) && DidToSessions(st, st', d, e)
    requires forall id | id in st.sessions :: st.sessions[id].rotatedTo != d.id
    ensures LinksGrow(st, st', d.id)
  {
  }

  /** Only a rotation adds a link, and it leads from the presented session to the one just stored. */
  lemma EffectLinks(st: State, st': State, d: Draw, e: SessionEffect, rank: map<string, nat>)
    requires SessionsAgree(st) && RotatedAreRevoked(st) && Fresh(st, d) && DidToSessions(st, st', d, e)
    requires Linked(st, rank)
    ensures LinksGrow(st, st', d.id)
  {
    hide SessionsAgree, RotatedAreRevoked, DidToSessions, LinksGrow, NoSharedSuccessor, HashToken;
    forall id | id in st.sessions ensures st.sessions[id].rotatedTo != d.id {
      assert LinkFits(st, rank, id);
    }
    if e.Rotated? { RotatingLinks(st, st', d, e); } else { OtherwiseNoLinks(st, st', d, e); }
  }

  lemma GrowthKeepsRank(st: State, st': State, newId: string, rank: map<string, nat>)
    requires AtMostOneMore(st, st', newId) && RankFits(st, rank)
    ensures RankFits(st', Ranked(rank, st, st'))
  {
    assert |st'.sessions| == |st'.sessions.Keys| && |st.sessions| == |st.sessions.Keys|;
  }

  lemma GrowthKeepsLinks(st: State, st': State, newId: string, rank: map<string, nat>)
    requires Evolves(st, st') && AtMostOneMore(st, st', newId) && LinksGrow(st, st', newId)
    requires Linked(st, rank)
    ensures Linked(st', Ranked(rank, st, st'))
  {
    GrowthKeepsRank(st, st', newId, rank);
    var rank' := Ranked(rank, st, st');
    forall id | id in st'.sessions ensures LinkFits(st', rank', id) {
      assert OldOrNewLink(st, st', newId, id);
      if id in st.sessions { assert LinkFits(st, rank, id); }
    }
    forall a, b | a in st'.sessions && b in st'.sessions && a != b && st'.sessions[a].rotatedTo != ""
      ensures st'.sessions[a].rotatedTo != st'.sessions[b].rotatedTo
    {
      assert OldOrNewLink(st, st', newId, a) && OldOrNewLink(st, st', newId, b);
    }
  }

  // ---------- out-of-band tokens ----------

  /** Tokens never disappear, only `usedAt` changes, and a used token stays used. */
  ghost predicate TokensEvolve(st: State, st': State) {
    forall h | h in st.tokens ::
      && h in st'.tokens
      && st'.tokens[h] == st.tokens[h].(usedAt := st'.tokens[h].usedAt)
      && (st.tokens[h].usedAt.Some? ==> st'.tokens[h].usedAt.Some?)
  }

  lemma WriteKeepsTokens(st: State, st': State, d: Draw, raw: string)
    requires TokensKeyed(st) && Fresh(st, d)
    requires AtMostMints(st, st', d) || AtMostRedeems(st, st', raw, d.now)
    ensures TokensKeyed(st') && TokensEvolve(st, st')
  {
  }

  lemma StepWritesTokens(cfg: Config, st: State, d: Draw, c: Call) returns (raw: string)
    requires TokensKeyed(st)
    ensures var st' := Step(cfg, st, d, c).0; AtMostMints(st, st', d) || AtMostRedeems(st, st', raw, d.now)
  {
    raw := if c.CallVerifyEmail? || c.CallResetPassword? || c.CallVerifyMFA? then c.raw else "";
  }

  /** A call mints at most one fresh token or marks at most the one presented; none disappears or becomes unused. */
  lemma StepKeepsTokens(cfg: Config, st: State, d: Draw, c: Call)
    requires TokensKeyed(st) && Fresh(st, d)
    ensures var st' := Step(cfg, st, d, c).0;
            && TokensKeyed(st') && TokensEvolve(st, st')
            && (AtMostMints(st, st', d) || exists raw :: AtMostRedeems(st, st', raw, d.now))
  {
    var raw := StepWritesTokens(cfg, st, d, c);
    WriteKeepsTokens(st, Step(cfg, st, d, c).0, d, raw);
  }

  /** A token loads exactly when it is stored for this purpose, unused, unexpired and owned by a stored user; a used one
      of this purpose is told apart from all other failures. */
  lemma TokenLoadsIff(st: State, now: int, raw: string, purpose: Purpose)
    ensures var r, h := LoadToken(st, now, raw, purpose), HashToken(raw);
            var ours := h in st.tokens && st.tokens[h].purpose == purpose;
            && (r.Ok? <==> ours && st.tokens[h].usedAt.None? && now < st.tokens[h].expiresAt
                           && st.tokens[h].userId in st.users)
            && (r.Ok? ==> r.value == (st.tokens[h], st.users[st.tokens[h].userId]))
            && (r.Err? ==> r.error == if ours && st.tokens[h].usedAt.Some? then TokenUsed else InvalidToken)
  {
    hide HashToken;
  }

  function PurposeOf(c: Call): Purpose
    requires c.CallVerifyEmail? || c.CallResetPassword? || c.CallVerifyMFA?
  {
    match c
    case CallVerifyEmail(_) => VerifyEmailPurpose
    case CallResetPassword(_, _) => ResetPasswordPurpose
    case CallVerifyMFA(_, _) => MFAChallengePurpose
  }

  /** The call succeeded on the out-of-band token with digest `h`. */
  predicate Redeems(c: Call, reply: Reply, h: Digest) {
    match c
    case CallVerifyEmail(raw) => reply.Done? && HashToken(raw) == h
    case CallResetPassword(raw, _) => reply.Done? && HashToken(raw) == h
    case CallVerifyMFA(raw, _) => reply.Pair? && HashToken(raw) == h
    case _ => false
  }

  /** Only the record of user `id` may differ. */
  ghost predicate OnlyUserChanged(st: State, st': State, id: string) {
    forall other | other != id :: (other in st'.users <==> other in st.users)
                                  && (other in st.users ==> st'.users[other] == st.users[other])
  }

  /** The token was unused, unexpired and for this purpose, is used afterwards, and only its owner may differ. */
  ghost predicate SoundRedemption(st: State, st': State, now: int, h: Digest, purpose: Purpose) {
    && h in st.tokens && st.tokens[h].usedAt.None? && now < st.tokens[h].expiresAt && st.tokens[h].purpose == purpose
    && h in st'.tokens && st'.tokens[h].usedAt.Some?
    && OnlyUserChanged(st, st', st.tokens[h].userId)
  }

  lemma VerifyEmailRedeems(st: State, d: Draw, raw: string)
    requires UsersAgree(st) && TokensKeyed(st) && VerifyEmail(st, d, raw).1.Done?
    ensures SoundRedemption(st, VerifyEmail(st, d, raw).0, d.now, HashToken(raw), VerifyEmailPurpose)
  {
    hide HashToken, NormalizeEmail;
    assert LoadToken(st, d.now, raw, VerifyEmailPurpose).Ok?;
  }

  lemma ResetPasswordRedeems(cfg: Config, st: State, d: Draw, raw: string, pw: string)
    requires UsersAgree(st) && TokensKeyed(st) && ResetPassword(cfg, st, d, raw, pw).1.Done?
    ensures var st' := ResetPassword(cfg, st, d, raw, pw).0;
            && SoundRedemption(st, st', d.now, HashToken(raw), ResetPasswordPurpose)
            && SameSessions(st', RevokeSessionsForUser(st, st.tokens[HashToken(raw)].userId, d.now))
  {
    hide HashToken, NormalizeEmail;
    assert LoadToken(st, d.now, raw, ResetPasswordPurpose).Ok?;
  }

  lemma VerifyMFARedeems(cfg: Config, st: State, d: Draw, raw: string, code: string)
    requires UsersAgree(st) && TokensKeyed(st) && VerifyMFA(cfg, st, d, raw, code).1.Pair?
    ensures var (st', reply) := VerifyMFA(cfg, st, d, raw, code);
            && SoundRedemption(st, st', d.now, HashToken(raw), MFAChallengePurpose)
            && reply.userId == st.tokens[HashToken(raw)].userId
  {
    hide HashToken, NormalizeEmail;
    assert LoadToken(st, d.now, raw, MFAChallengePurpose).Ok?;
  }

  /** A redeemed token was unused, unexpired and of the right purpose; it is used afterwards, and the
      call acts on the token's owner only. */
  lemma RedemptionIsSound(cfg: Config, st: State, d: Draw, c: Call, h: Digest)
    requires UsersAgree(st) && TokensKeyed(st)
    requires Redeems(c, Step(cfg, st, d, c).1, h)
    ensures var (st', reply) := Step(cfg, st, d, c);
            && SoundRedemption(st, st', d.now, h, PurposeOf(c))
            && (c.CallVerifyMFA? ==> reply.userId == st.tokens[h].userId)
            && (c.CallResetPassword? ==> SameSessions(st', RevokeSessionsForUser(st, st.tokens[h].userId, d.now)))
  {
    hide Register, VerifyEmail, Login, VerifyMFA, Refresh, Logout, ForgotPassword, ResetPassword, ChangePassword,
         SetupMFA, ConfirmMFA, DisableMFA, DemoLogin, RevokeSession, EnsureExternalUser, IssueSession, HashToken,
         UsersAgree, OnlyUserChanged;
    match c {
      case CallVerifyEmail(raw) => VerifyEmailRedeems(st, d, raw);
      case CallResetPassword(raw, pw) => ResetPasswordRedeems(cfg, st, d, raw, pw);
      case CallVerifyMFA(raw, code) => VerifyMFARedeems(cfg, st, d, raw, code);
    }
  }

  // ---------- induction over runs ----------

  lemma StepKeepsInv(cfg: Config, st: State, d: Draw, c: Call)
    requires Inv(st) && Fresh(st, d)
    ensures var st' := Step(cfg, st, d, c).0; Inv(st') && Evolves(st, st') && TokensEvolve(st, st')
  {
    var st' := Step(cfg, st, d, c).0;
    var e := EffectOf(cfg, st, d, c);
    EffectKeepsAgreement(st, st', d, e);
    EffectAges(st, st', d, e);
    StepKeepsUsers(cfg, st, d, c);
    StepKeepsTokens(cfg, st, d, c);
  }

  lemma AgesTransitively(a: State, b: State, c: State)
    requires Evolves(a, b) && Evolves(b, c) && TokensEvolve(a, b) && TokensEvolve(b, c)
    ensures Evolves(a, c) && TokensEvolve(a, c)
  {
  }

  lemma NextState(cfg: Config, st: State, run: seq<Event>, i: nat)
    requires i < |run| && FreshRun(cfg, st, run)
    ensures Fresh(StateAt(cfg, st, run, i), run[i].draw)
    ensures StateAt(cfg, st, run, i + 1) == Step(cfg, StateAt(cfg, st, run, i), run[i].draw, run[i].call).0
    ensures RankAt(cfg, st, run, i + 1)
         == Ranked(RankAt(cfg, st, run, i), StateAt(cfg, st, run, i), StateAt(cfg, st, run, i + 1))
  {
    hide Step, Fresh, Ranked;
    assert FreshAt(cfg, st, run, i);
  }

  /** The indexes agree in every state of a run. */
  lemma {:induction false} RunKeepsInv(cfg: Config, st: State, run: seq<Event>, i: nat)
    requires i <= |run| && Inv(st) && FreshRun(cfg, st, run)
    ensures Inv(StateAt(cfg, st, run, i))
  {
    hide Step, Inv, Fresh;
    if i > 0 {
      RunKeepsInv(cfg, st, run, i - 1);
      NextState(cfg, st, run, i - 1);
      StepKeepsInv(cfg, StateAt(cfg, st, run, i - 1), run[i - 1].draw, run[i - 1].call);
    }
  }

  /** Whatever a run has stored only ages: no session or token disappears, no revocation, rotation or
      use is undone. */
  lemma {:induction false} RunAges(cfg: Config, st: State, run: seq<Event>, i: nat, j: nat)
    requires i <= j <= |run| && Inv(st) && FreshRun(cfg, st, run)
    ensures Inv(StateAt(cfg, st, run, i)) && Inv(StateAt(cfg, st, run, j))
    ensures Evolves(StateAt(cfg, st, run, i), StateAt(cfg, st, run, j))
    ensures TokensEvolve(StateAt(cfg, st, run, i), StateAt(cfg, st, run, j))
    decreases j
  {
    hide Step, Inv, Fresh;
    RunKeepsInv(cfg, st, run, i);
    RunKeepsInv(cfg, st, run, j);
    if i < j {
      hide Evolves, TokensEvolve;
      RunAges(cfg, st, run, i, j - 1);
      NextState(cfg, st, run, j - 1);
      StepKeepsInv(cfg, StateAt(cfg, st, run, j - 1), run[j - 1].draw, run[j - 1].call);
      AgesTransitively(StateAt(cfg, st, run, i), StateAt(cfg, st, run, j - 1), StateAt(cfg, st, run, j));
    }
  }

  lemma StartHoldsInv(st: State)
    requires Start(st)
    ensures Inv(st) && Linked(st, map[])
  {
  }

  /** A call adds at most one link, from an unlinked session to the session it has just stored. */
  lemma StepKeepsLinks(cfg: Config, st: State, d: Draw, c: Call, rank: map<string, nat>)
    requires Inv(st) && Fresh(st, d) && Linked(st, rank)
    ensures var st' := Step(cfg, st, d, c).0; Linked(st', Ranked(rank, st, st')) && LinksGrow(st, st', d.id)
  {
    var st' := Step(cfg, st, d, c).0;
    hide Step, LinksGrow;
    var e := EffectOf(cfg, st, d, c);
    EffectAges(st, st', d, e);
    EffectLinks(st, st', d, e, rank);
    GrowthKeepsLinks(st, st', d.id, rank);
  }

  lemma FirstState(cfg: Config, st: State, run: seq<Event>)
    ensures StateAt(cfg, st, run, 0) == st && RankAt(cfg, st, run, 0) == map[]
  {
  }

  lemma NextLinks(cfg: Config, st: State, run: seq<Event>, i: nat)
    requires i < |run| && Inv(st) && FreshRun(cfg, st, run)
    requires Linked(StateAt(cfg, st, run, i), RankAt(cfg, st, run, i))
    ensures Linked(StateAt(cfg, st, run, i + 1), RankAt(cfg, st, run, i + 1))
  {
    hide *;
    RunKeepsInv(cfg, st, run, i);
    NextState(cfg, st, run, i);
    StepKeepsLinks(cfg, StateAt(cfg, st, run, i), run[i].draw, run[i].call, RankAt(cfg, st, run, i));
  }

  lemma {:induction false} RunKeepsLinks(cfg: Config, st: State, run: seq<Event>, i: nat)
    requires i <= |run| && Start(st) && FreshRun(cfg, st, run)
    ensures Linked(StateAt(cfg, st, run, i), RankAt(cfg, st, run, i))
  {
    hide *;
    StartHoldsInv(st);
    if i == 0 {
      FirstState(cfg, st, run);
    } else {
      RunKeepsLinks(cfg, st, run, i - 1);
      NextLinks(cfg, st, run, i - 1);
    }
  }

  // ---------- rotation chains ----------

  /** A nonempty sequence of sessions, each rotated to the next. */
  ghost predicate Chain(st: State, p: seq<string>) {
    && p != []
    && (forall i | 0 <= i < |p| :: p[i] in st.sessions)
    && (forall i, j | 0 <= i && j == i + 1 && j < |p| :: p[j] != "" && st.sessions[p[i]].rotatedTo == p[j])
  }

  lemma {:induction false} ChainClimbs(st: State, rank: map<string, nat>, p: seq<string>, i: nat, j: nat)
    requires Linked(st, rank) && Chain(st, p) && i <= j < |p|
    ensures rank[p[i]] + (j - i) <= rank[p[j]]
    ensures st.sessions[p[i]].userId == st.sessions[p[j]].userId
  {
    if i < j {
      ChainClimbs(st, rank, p, i, j - 1);
      assert st.sessions[p[j - 1]].rotatedTo == p[j - 1 + 1];
      assert LinkFits(st, rank, p[j - 1]);
    }
  }

  /** Two chains that meet agree backwards from the meeting point. */
  lemma {:induction false} ChainsMergeNowhere(st: State, p: seq<string>, q: seq<string>, i: nat, j: nat)
    requires NoSharedSuccessor(st) && Chain(st, p) && Chain(st, q)
    requires i < |p| && j < |q| && p[i] == q[j] && i <= j
    ensures p[..i + 1] == q[j - i..j + 1]
    decreases i
  {
    if i > 0 {
      assert st.sessions[p[i - 1]].rotatedTo == p[i - 1 + 1] == q[j - 1 + 1] == st.sessions[q[j - 1]].rotatedTo;
      ChainsMergeNowhere(st, p, q, i - 1, j - 1);
      assert p[..i + 1] == p[..i] + [p[i]];
      assert q[j - i..j + 1] == q[j - i..j] + [q[j]];
    }
  }

  /** A session no other session has been rotated to. */
  ghost predicate Root(st: State, id: string) {
    forall other | other in st.sessions && st.sessions[other].rotatedTo != "" :: st.sessions[other].rotatedTo != id
  }

  lemma RootsMeetAligned(st: State, p: seq<string>, q: seq<string>, i: nat, j: nat)
    requires NoSharedSuccessor(st) && Chain(st, p) && Chain(st, q) && Root(st, q[0]) && Root(st, p[0])
    requires i < |p| && i <= j < |q| && p[i] == q[j]
    ensures i == j && p[..i + 1] == q[..i + 1]
  {
    if i < j { assert st.sessions[q[j - i - 1]].rotatedTo == q[j - i]; }
    ChainsMergeNowhere(st, p, q, i, j);
    assert p[..i + 1][0] == q[j - i..j + 1][0];
  }

  /** In every reachable state the rotation links form finite acyclic chains: along a chain sessions
      are distinct, stored ever later, of one user, and all but the last are revoked; and no chain is
      longer than the number of stored sessions. */
  lemma RotationChainsAreFiniteAndAcyclic(cfg: Config, st: State, run: seq<Event>, i: nat, p: seq<string>)
    requires Start(st) && FreshRun(cfg, st, run) && i <= |run|
    requires Chain(StateAt(cfg, st, run, i), p)
    ensures var cur, rank := StateAt(cfg, st, run, i), RankAt(cfg, st, run, i);
            && (forall a, b | 0 <= a < b < |p| ::
                  && p[a] != p[b] && rank[p[a]] < rank[p[b]]
                  && cur.sessions[p[a]].userId == cur.sessions[p[b]].userId)
            && (forall a | 0 <= a < |p| - 1 :: cur.sessions[p[a]].revokedAt.Some?)
            && |p| <= |cur.sessions|
  {
    hide StateAt, RankAt, FreshRun, Start;
    var cur, rank := StateAt(cfg, st, run, i), RankAt(cfg, st, run, i);
    StartHoldsInv(st);
    RunKeepsLinks(cfg, st, run, i);
    RunKeepsInv(cfg, st, run, i);
    hide UsersAgree, SessionsAgree, TokensKeyed, LinkFits, NoSharedSuccessor;
    forall a, b | 0 <= a < b < |p|
      ensures rank[p[a]] < rank[p[b]] && cur.sessions[p[a]].userId == cur.sessions[p[b]].userId
    {
      ChainClimbs(cur, rank, p, a, b);
    }
    ChainClimbs(cur, rank, p, 0, |p| - 1);
    forall a | 0 <= a < |p| - 1 ensures cur.sessions[p[a]].revokedAt.Some? {
      assert cur.sessions[p[a]].rotatedTo == p[a + 1];
    }
  }

  /** In every reachable state two chains that start at roots and share a session start at the same
      root and run together up to that session: distinct chains are disjoint. */
  lemma RotationChainsAreDisjoint(cfg: Config, st: State, run: seq<Event>, k: nat, p: seq<string>, q: seq<string>,
                                  i: nat, j: nat)
    requires Start(st) && FreshRun(cfg, st, run) && k <= |run|
    requires var cur := StateAt(cfg, st, run, k);
             Chain(cur, p) && Chain(cur, q) && Root(cur, p[0]) && Root(cur, q[0])
    requires i < |p| && j < |q| && p[i] == q[j]
    ensures i == j && p[..i + 1] == q[..i + 1]
  {
    hide StateAt, Start, FreshRun;
    RunKeepsLinks(cfg, st, run, k);
    if i <= j {
      RootsMeetAligned(StateAt(cfg, st, run, k), p, q, i, j);
    } else {
      RootsMeetAligned(StateAt(cfg, st, run, k), q, p, j, i);
    }
  }

  // ---------- refresh tokens ----------

  /** A successful refresh retires the presented session. */
  lemma SuccessfulRefreshRetires(cfg: Config, st: State, d: Draw, c: Call)
    requires SessionsAgree(st) && Fresh(st, d) && c.CallRefresh? && Step(cfg, st, d, c).1.Pair?
    ensures var h := HashToken(c.raw);
            && h in st.byHash && st.byHash[h].revokedAt.None? && d.now < st.byHash[h].expiresAt
            && var s := Step(cfg, st, d, c).0.sessions[st.byHash[h].id];
            s.revokedAt.Some? && s.rotatedTo == d.id
  {
    assert Step(cfg, st, d, c) == Refresh(cfg, st, d, c.raw);
  }

  lemma RevokedIsRefused(cfg: Config, st: State, d: Draw, c: Call)
    requires c.CallRefresh? && HashToken(c.raw) in st.byHash && st.byHash[HashToken(c.raw)].revokedAt.Some?
    ensures !Step(cfg, st, d, c).1.Pair?
  {
    assert Step(cfg, st, d, c) == Refresh(cfg, st, d, c.raw);
  }

  /** A revoked session can never be refreshed again. */
  lemma RevokedStaysOut(cfg: Config, st: State, run: seq<Event>, i: nat, j: nat, h: Digest)
    requires Inv(st) && FreshRun(cfg, st, run) && i <= j < |run|
    requires var cur := StateAt(cfg, st, run, i); h in cur.byHash && cur.byHash[h].revokedAt.Some?
    requires run[j].call.CallRefresh? && HashToken(run[j].call.raw) == h
    ensures !ReplyAt(cfg, st, run, j).Pair?
  {
    hide Step;
    RunAges(cfg, st, run, i, j);
    var cur, later := StateAt(cfg, st, run, i), StateAt(cfg, st, run, j);
    var id := cur.byHash[h].id;
    assert Ages(cur.sessions[id], later.sessions[id]);
    assert later.byHash[h] == later.sessions[id];
    RevokedIsRefused(cfg, later, run[j].draw, run[j].call);
  }

  /** Over any run, one refresh token yields at most one successful Refresh. */
  lemma RefreshSucceedsAtMostOnce(cfg: Config, st: State, run: seq<Event>, i: nat, j: nat)
    requires Inv(st) && FreshRun(cfg, st, run) && i < j < |run|
    requires run[i].call.CallRefresh? && run[j].call.CallRefresh?
    requires HashToken(run[i].call.raw) == HashToken(run[j].call.raw)
    requires ReplyAt(cfg, st, run, i).Pair?
    ensures !ReplyAt(cfg, st, run, j).Pair?
  {
    hide Step;
    var h := HashToken(run[i].call.raw);
    RunAges(cfg, st, run, i, i + 1);
    var cur, next := StateAt(cfg, st, run, i), StateAt(cfg, st, run, i + 1);
    NextState(cfg, st, run, i);
    SuccessfulRefreshRetires(cfg, cur, run[i].draw, run[i].call);
    assert next.byHash[h] == next.sessions[cur.byHash[h].id];
    RevokedStaysOut(cfg, st, run, i + 1, j, h);
  }

  /** Presenting an already rotated token fails, leaves every session of its user revoked, and leaves
      everything else as it was. */
  lemma ReuseRevokesTheFamily(cfg: Config, st: State, d: Draw, raw: string)
    requires Inv(st)
    requires HashToken(raw) in st.byHash && st.byHash[HashToken(raw)].rotatedTo != ""
    ensures var (st', reply) := Refresh(cfg, st, d, raw);
            var userId := st.byHash[HashToken(raw)].userId;
            && reply == Denied(ReuseDetected)
            && st'.sessions.Keys == st.sessions.Keys
            && (forall id | id in st.sessions && st.sessions[id].userId == userId :: st'.sessions[id].revokedAt.Some?)
            && (forall id | id in st.sessions && st.sessions[id].userId != userId ::
                st'.sessions[id] == st.sessions[id])
            && st'.users == st.users && st'.emails == st.emails && st'.tokens == st.tokens
  {
    var s := st.byHash[HashToken(raw)];
    assert st.sessions[s.id] == s;
  }

  // ---------- out-of-band tokens over runs ----------

  /** Over any run, one out-of-band token is redeemed at most once, whichever calls present it. */
  lemma TokenRedeemedAtMostOnce(cfg: Config, st: State, run: seq<Event>, i: nat, j: nat, h: Digest)
    requires Inv(st) && FreshRun(cfg, st, run) && i < j < |run|
    requires Redeems(run[i].call, ReplyAt(cfg, st, run, i), h)
    ensures !Redeems(run[j].call, ReplyAt(cfg, st, run, j), h)
  {
    hide Step, UsersAgree, SessionsAgree, Evolves, HashToken;
    RunAges(cfg, st, run, i, i + 1);
    RunAges(cfg, st, run, i + 1, j);
    RedemptionIsSound(cfg, StateAt(cfg, st, run, i), run[i].draw, run[i].call, h);
    if Redeems(run[j].call, ReplyAt(cfg, st, run, j), h) {
      RedemptionIsSound(cfg, StateAt(cfg, st, run, j), run[j].draw, run[j].call, h);
    }
  }

  lemma ResetRevokesSessions(cfg: Config, st: State, d: Draw, c: Call, h: Digest)
    requires Inv(st) && Fresh(st, d) && c.CallResetPassword? && Step(cfg, st, d, c).1.Done?
    requires HashToken(c.raw) in st.tokens && h in st.byHash
              && st.byHash[h].userId == st.tokens[HashToken(c.raw)].userId
    ensures var st' := Step(cfg, st, d, c).0; h in st'.byHash && st'.byHash[h].revokedAt.Some?
  {
    RedemptionIsSound(cfg, st, d, c, HashToken(c.raw));
    hide Step;
  }

  /** After a successful password reset no refresh token issued to that user before it succeeds again. */
  lemma ResetEndsEarlierSessions(cfg: Config, st: State, run: seq<Event>, i: nat, j: nat, h: Digest)
    requires Inv(st) && FreshRun(cfg, st, run) && i < j < |run|
    requires run[i].call.CallResetPassword? && ReplyAt(cfg, st, run, i).Done?
    requires var cur := StateAt(cfg, st, run, i);
             && HashToken(run[i].call.raw) in cur.tokens
             && h in cur.byHash && cur.byHash[h].userId == cur.tokens[HashToken(run[i].call.raw)].userId
    requires run[j].call.CallRefresh? && HashToken(run[j].call.raw) == h
    ensures !ReplyAt(cfg, st, run, j).Pair?
  {
    hide Step;
    hide Inv, Fresh, Step;
    RunKeepsInv(cfg, st, run, i);
    NextState(cfg, st, run, i);
    hide StateAt, FreshRun;
    ResetRevokesSessions(cfg, StateAt(cfg, st, run, i), run[i].draw, run[i].call, h);
    RevokedStaysOut(cfg, st, run, i + 1, j, h);
  }
}
