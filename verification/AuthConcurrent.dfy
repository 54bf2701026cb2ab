/** Service calls interleaved at store-method granularity: between two store calls of one goroutine any
    other goroutine may run, so a call works on copies that may be stale when it writes them back. */
module AuthConcurrent {
  import opened Text
  import opened AuthModel
  import R = AuthRuns

  /** Where a goroutine stands between two store calls, with the copies it holds. */
  datatype Local =
    | ReuseSeen(userId: string)
    | Presented(s: Session, now: int)
    | OwnerLost(userId: string)
    | SuccessorDrawn(s: Session, next: Session, draw: Draw)
    | SuccessorStored(s: Session, next: Session, draw: Draw)
    | Closing(s: Session, now: int)
    | ResetToken(tok: Token, password: string)
    | ResetOwner(tok: Token, u: User)
    | ResetMarked(u: User)
    | ResetSaved(userId: string)
    | Finished(reply: Reply)

  /** A call's first store method. */
  function Begin(cfg: Config, st: State, d: Draw, c: Call): Local
    requires c.CallRefresh? || c.CallLogout? || c.CallRevokeSession? || c.CallResetPassword?
  {
    match c
    case CallRefresh(raw) => (
      match GetSessionByHash(st, HashToken(raw))
      case Err(_) => Finished(Denied(InvalidToken))
      case Ok(s) =>
        if s.revokedAt.Some? then
          if s.rotatedTo != "" then ReuseSeen(s.userId) else Finished(Denied(InvalidToken))
        else if !(d.now < s.expiresAt) then Finished(Denied(SessionExpired))
        else Presented(s, d.now))
    case CallLogout(raw) => (
      match GetSessionByHash(st, HashToken(raw))
      case Err(_) => Finished(Done)
      case Ok(s) => Closing(s, d.now))
    case CallRevokeSession(userId, id) => (
      match GetSessionById(st, id)
      case Err(_) => Finished(Denied(InvalidToken))
      case Ok(s) => if s.userId != userId then Finished(Denied(InvalidToken)) else Closing(s, d.now))
    case CallResetPassword(raw, password) => (
      match GetToken(st, HashToken(raw))
      case Err(_) => Finished(Denied(InvalidToken))
      case Ok(tok) =>
        if tok.purpose != ResetPasswordPurpose then Finished(Denied(InvalidToken))
        else if tok.usedAt.Some? then Finished(Denied(TokenUsed))
        else if !(d.now < tok.expiresAt) then Finished(Denied(InvalidToken))
        else ResetToken(tok, password))
  }

  /** A call's next store method. */
  function Advance(cfg: Config, st: State, d: Draw, l: Local): (State, Local) {
    match l
    case ReuseSeen(userId) => (RevokeSessionsForUser(st, userId, d.now), Finished(Denied(ReuseDetected)))
    case Presented(s, now) =>
      var u := GetUserById(st, s.userId);
      if u.Err? || u.value.disabled then (st, OwnerLost(s.userId))
      else if !d.entropyOk then (st, Finished(Denied(Internal)))
      else (st, SuccessorDrawn(s, Successor(cfg, d.(now := now), u.value.id), d.(now := now)))
    case OwnerLost(userId) => (RevokeSessionsForUser(st, userId, d.now), Finished(Denied(InvalidToken)))
    case SuccessorDrawn(s, next, draw) => (PutSession(st, next), SuccessorStored(s, next, draw))
    case SuccessorStored(s, next, draw) =>
      (PutSession(st, Retire(s, draw)),
       Finished(if draw.signOk then Pair(next.userId, draw.raw) else Denied(Internal)))
    case Closing(s, now) => (PutSession(st, s.(revokedAt := Some(now))), Finished(Done))
    case ResetToken(tok, password) => (
      match GetUserById(st, tok.userId)
      case Err(_) => (st, Finished(Denied(InvalidToken)))
      case Ok(u) =>
        if !cfg.passwordAccepted(password, u.email, u.organisation) then (st, Finished(Denied(PasswordRejected)))
        else if d.passwordHash.None? then (st, Finished(Denied(Internal)))
        else (st, ResetOwner(tok, u.(passwordHash := d.passwordHash.value))))
    case ResetOwner(tok, u) => (
      match MarkTokenUsed(st, tok.hash, d.now)
      case Err(e) => (st, Finished(Denied(e)))
      case Ok(st1) => (st1, ResetMarked(u)))
    case ResetMarked(u) => (
      match UpdateUser(st, u)
      case Err(e) => (st, Finished(Denied(e)))
      case Ok(st1) => (st1, ResetSaved(u.id)))
    case ResetSaved(userId) => (RevokeSessionsForUser(st, userId, d.now), Finished(Done))
    case Finished(_) => (st, l)
  }

  datatype World = World(st: State, threads: map<nat, Local>)

  /** One scheduling decision: goroutine `pid` starts `call`, or performs its next store method. */
  datatype Event = Start(pid: nat, draw: Draw, call: Call) | Resume(pid: nat, draw: Draw)

  predicate Enabled(w: World, e: Event) {
    match e
    case Start(pid, d, c) =>
      pid !in w.threads && (c.CallRefresh? || c.CallLogout? || c.CallRevokeSession? || c.CallResetPassword?)
    case Resume(pid, d) => pid in w.threads && Drawable(w, d)
  }

  /** What is drawn collides neither with the store nor with what another goroutine has drawn. */
  predicate Drawable(w: World, d: Draw) {
    && Fresh(w.st, d)
    && forall p | p in w.threads && w.threads[p].SuccessorDrawn? ::
         w.threads[p].next.id != d.id && w.threads[p].next.hash != HashToken(d.raw)
  }

  function Next(cfg: Config, w: World, e: Event): World
    requires Enabled(w, e)
  {
    match e
    case Start(pid, d, c) => w.(threads := w.threads[pid := Begin(cfg, w.st, d, c)])
    case Resume(pid, d) =>
      var (st, l) := Advance(cfg, w.st, d, w.threads[pid]);
      World(st, w.threads[pid := l])
  }

  // ---------- invariant ----------

  /** `s` is a possibly stale copy of a stored session. */
  predicate CopyOf(st: State, s: Session) {
    s.id in st.sessions && st.sessions[s.id].hash == s.hash && st.sessions[s.id].userId == s.userId
  }

  predicate LocalFits(st: State, l: Local) {
    match l
    case Presented(s, _) => CopyOf(st, s)
    case SuccessorDrawn(s, next, _) => CopyOf(st, s) && next.id !in st.sessions && next.hash !in st.byHash
    case SuccessorStored(s, next, _) => CopyOf(st, s)
    case Closing(s, _) => CopyOf(st, s)
    case _ => true
  }

  ghost predicate Fits(w: World) {
    && R.SessionsAgree(w.st)
    && (forall p | p in w.threads :: LocalFits(w.st, w.threads[p]))
    && (forall p, q | p in w.threads && q in w.threads && p != q :: DrawnApart(w.threads[p], w.threads[q]))
  }

  predicate DrawnApart(a: Local, b: Local) {
    a.SuccessorDrawn? && b.SuccessorDrawn? ==> a.next.id != b.next.id && a.next.hash != b.next.hash
  }

  /** No session disappears or changes hands, and no revoked session becomes unrevoked. */
  ghost predicate RevocationsStand(st: State, st': State) {
    forall id | id in st.sessions ::
      && id in st'.sessions
      && st'.sessions[id].hash == st.sessions[id].hash && st'.sessions[id].userId == st.sessions[id].userId
      && (st.sessions[id].revokedAt.Some? ==> st'.sessions[id].revokedAt.Some?)
  }

  lemma PutRevokedStands(st: State, s: Session)
    requires R.SessionsAgree(st) && (CopyOf(st, s) ==> s.revokedAt.Some?)
    requires CopyOf(st, s) || (s.id !in st.sessions && s.hash !in st.byHash)
    ensures R.SessionsAgree(PutSession(st, s)) && RevocationsStand(st, PutSession(st, s))
    ensures PutSession(st, s).byHash.Keys == st.byHash.Keys + {s.hash}
    ensures PutSession(st, s).sessions.Keys == st.sessions.Keys + {s.id}
    ensures CopyOf(st, s) ==> s.hash in st.byHash
  {
    R.PutKeepsAgreement(st, s);
  }

  lemma RevokeAllStands(st: State, userId: string, now: int)
    requires R.SessionsAgree(st)
    ensures var st' := RevokeSessionsForUser(st, userId, now);
            R.SessionsAgree(st') && RevocationsStand(st, st')
            && st'.sessions.Keys == st.sessions.Keys && st'.byHash.Keys == st.byHash.Keys
  {
    R.RevokingKeepsAgreement(st, userId, now);
    hide R.SessionsAgree;
  }

  lemma QuietStands(st: State, st': State)
    requires R.SessionsAgree(st) && SameSessions(st', st)
    ensures R.SessionsAgree(st') && RevocationsStand(st, st')
  {
  }

  /** The store after one store method: the indexes agree, revocations stand, and only a drawn successor is new. */
  ghost predicate StoreFits(st: State, l: Local, st': State) {
    && R.SessionsAgree(st') && RevocationsStand(st, st')
    && (l.SuccessorDrawn? ==>
          st'.sessions.Keys == st.sessions.Keys + {l.next.id} && st'.byHash.Keys == st.byHash.Keys + {l.next.hash})
    && (!l.SuccessorDrawn? ==> st'.sessions.Keys == st.sessions.Keys && st'.byHash.Keys == st.byHash.Keys)
  }

  lemma PutFits(st: State, l: Local, s: Session)
    requires R.SessionsAgree(st) && LocalFits(st, l)
    requires (l.SuccessorDrawn? && s == l.next) || (!l.SuccessorDrawn? && CopyOf(st, s) && s.revokedAt.Some?)
    ensures StoreFits(st, l, PutSession(st, s))
  {
    hide R.SessionsAgree, RevocationsStand, PutSession;
    PutRevokedStands(st, s);
  }

  lemma RevokeAllFits(st: State, l: Local, userId: string, now: int)
    requires R.SessionsAgree(st) && !l.SuccessorDrawn?
    ensures StoreFits(st, l, RevokeSessionsForUser(st, userId, now))
  {
    hide R.SessionsAgree, RevocationsStand, RevokeSessionsForUser;
    RevokeAllStands(st, userId, now);
  }

  /** One store method of one goroutine: the store part. */
  lemma AdvanceStands(cfg: Config, st: State, d: Draw, l: Local)
    requires R.SessionsAgree(st) && LocalFits(st, l)
    ensures StoreFits(st, l, Advance(cfg, st, d, l).0)
  {
    hide PutSession, RevokeSessionsForUser, UpdateUser, MarkTokenUsed, GetUserById, Successor, R.SessionsAgree,
         RevocationsStand;
    match l {
      case ReuseSeen(userId) => RevokeAllFits(st, l, userId, d.now);
      case OwnerLost(userId) => RevokeAllFits(st, l, userId, d.now);
      case ResetSaved(userId) => RevokeAllFits(st, l, userId, d.now);
      case SuccessorDrawn(_, next, _) => PutFits(st, l, next);
      case SuccessorStored(s, next, draw) => PutFits(st, l, Retire(s, draw));
      case Closing(s, now) => PutFits(st, l, s.(revokedAt := Some(now)));
      case _ => QuietStands(st, Advance(cfg, st, d, l).0);
    }
  }

  lemma CopiesSurvive(st: State, st': State, l: Local)
    requires RevocationsStand(st, st') && LocalFits(st, l) && !l.SuccessorDrawn?
    ensures LocalFits(st', l)
  {
  }

  lemma DrawnSurvives(st: State, st': State, l: Local)
    requires RevocationsStand(st, st') && LocalFits(st, l) && l.SuccessorDrawn?
    requires l.next.id !in st'.sessions && l.next.hash !in st'.byHash
    ensures LocalFits(st', l)
  {
  }

  /** What a goroutine holds after its store method fits the new store. */
  lemma AdvanceFits(cfg: Config, st: State, d: Draw, l: Local)
    requires R.SessionsAgree(st) && LocalFits(st, l) && Fresh(st, d)
    ensures var (st', l') := Advance(cfg, st, d, l); LocalFits(st', l')
    ensures var (st', l') := Advance(cfg, st, d, l);
            l'.SuccessorDrawn? ==> l'.next.id == d.id && l'.next.hash == HashToken(d.raw)
  {
  }

  // ---------- every interleaving ----------

  lemma NextFits(cfg: Config, w: World, e: Event)
    requires Fits(w) && Enabled(w, e)
    ensures Fits(Next(cfg, w, e)) && RevocationsStand(w.st, Next(cfg, w, e).st)
  {
    match e {
      case Start(pid, d, c) =>
        BeginFits(cfg, w.st, d, c);
      case Resume(pid, d) => ResumeFits(cfg, w, pid, d);
    }
  }

  lemma ResumeFits(cfg: Config, w: World, pid: nat, d: Draw)
    requires Fits(w) && Enabled(w, Resume(pid, d))
    ensures Fits(Next(cfg, w, Resume(pid, d))) && RevocationsStand(w.st, Next(cfg, w, Resume(pid, d)).st)
  {
    hide Advance, R.SessionsAgree, RevocationsStand, LocalFits, HashToken;
    var w' := Next(cfg, w, Resume(pid, d));
    var l := w.threads[pid];
    AdvanceStands(cfg, w.st, d, l);
    AdvanceFits(cfg, w.st, d, l);
    forall p | p in w'.threads ensures LocalFits(w'.st, w'.threads[p]) {
      if p != pid { OthersFit(w, w', pid, p); }
    }
    forall p, q | p in w'.threads && q in w'.threads && p != q ensures DrawnApart(w'.threads[p], w'.threads[q]) {
      if p != pid && q != pid { assert DrawnApart(w.threads[p], w.threads[q]); }
    }
  }

  lemma BeginFits(cfg: Config, st: State, d: Draw, c: Call)
    requires R.SessionsAgree(st)
    requires c.CallRefresh? || c.CallLogout? || c.CallRevokeSession? || c.CallResetPassword?
    ensures LocalFits(st, Begin(cfg, st, d, c)) && !Begin(cfg, st, d, c).SuccessorDrawn?
  {
  }

  lemma OthersFit(w: World, w': World, pid: nat, p: nat)
    requires Fits(w) && pid in w.threads && p in w.threads && p != pid
    requires StoreFits(w.st, w.threads[pid], w'.st)
    ensures LocalFits(w'.st, w.threads[p])
  {
    var l := w.threads[p];
    assert LocalFits(w.st, l) && DrawnApart(l, w.threads[pid]);
    hide Fits;
    if l.SuccessorDrawn? { DrawnSurvives(w.st, w'.st, l); } else { CopiesSurvive(w.st, w'.st, l); }
  }

  /** The world after the first `i` events of a schedule. */
  ghost function WorldAt(cfg: Config, w: World, schedule: seq<Event>, i: nat): World
    requires i <= |schedule|
  {
    if i == 0 then w else
      var prev := WorldAt(cfg, w, schedule, i - 1);
      if Enabled(prev, schedule[i - 1]) then Next(cfg, prev, schedule[i - 1]) else prev
  }

  /** On every schedule of any number of Refresh, Logout, RevokeSession and ResetPassword calls, the id
      and hash indexes keep holding the same records and no revoked session becomes unrevoked. */
  lemma {:induction false} RevocationIsFinalOnEverySchedule(cfg: Config, w: World, schedule: seq<Event>, i: nat, j: nat)
    requires Fits(w) && i <= j <= |schedule|
    ensures Fits(WorldAt(cfg, w, schedule, j))
    ensures RevocationsStand(WorldAt(cfg, w, schedule, i).st, WorldAt(cfg, w, schedule, j).st)
    decreases j
  {
    hide Fits, Next, Enabled;
    if i < j {
      RevocationIsFinalOnEverySchedule(cfg, w, schedule, i, j - 1);
      var prev := WorldAt(cfg, w, schedule, j - 1);
      if Enabled(prev, schedule[j - 1]) { NextFits(cfg, prev, schedule[j - 1]); }
    } else if j > 0 {
      RevocationIsFinalOnEverySchedule(cfg, w, schedule, j - 1, j - 1);
      var prev := WorldAt(cfg, w, schedule, j - 1);
      if Enabled(prev, schedule[j - 1]) { NextFits(cfg, prev, schedule[j - 1]); }
    }
  }

  // ---------- the fine steps refine the atomic calls ----------

  /** Runs one goroutine alone for at most `n` more store methods, with one draw. */
  function Alone(cfg: Config, st: State, d: Draw, l: Local, n: nat): (State, Local)
    decreases n
  {
    if n == 0 || l.Finished? then (st, l) else
      var (st', l') := Advance(cfg, st, d, l);
      Alone(cfg, st', d, l', n - 1)
  }

  lemma AloneRefresh(cfg: Config, st: State, d: Draw, raw: string)
    requires R.UsersAgree(st) && R.SessionsAgree(st)
    ensures var (st', l) := Alone(cfg, st, d, Begin(cfg, st, d, CallRefresh(raw)), 4);
            l.Finished? && (st', l.reply) == Refresh(cfg, st, d, raw)
  {
    hide HashToken, PutSession, RevokeSessionsForUser, Trim, NormalizeEmail, R.SessionsAgree, UpdateUser, MarkTokenUsed;
    var l0 := Begin(cfg, st, d, CallRefresh(raw));
    var (st1, l1) := Advance(cfg, st, d, l0);
    var (st2, l2) := Advance(cfg, st1, d, l1);
    assert Alone(cfg, st, d, l0, 4) == if l0.Finished? then (st, l0) else Alone(cfg, st1, d, l1, 3);
    assert Alone(cfg, st1, d, l1, 3) == if l1.Finished? then (st1, l1) else Alone(cfg, st2, d, l2, 2);
  }

  lemma AloneReset(cfg: Config, st: State, d: Draw, raw: string, password: string)
    requires R.UsersAgree(st) && TokensKeyed(st)
    ensures var (st', l) := Alone(cfg, st, d, Begin(cfg, st, d, CallResetPassword(raw, password)), 4);
            l.Finished? && (st', l.reply) == ResetPassword(cfg, st, d, raw, password)
  {
    hide HashToken, RevokeSessionsForUser, UpdateUser, MarkTokenUsed, R.UsersAgree;
    var l0 := Begin(cfg, st, d, CallResetPassword(raw, password));
    var (st1, l1) := Advance(cfg, st, d, l0);
    var (st2, l2) := Advance(cfg, st1, d, l1);
    assert Alone(cfg, st, d, l0, 4) == if l0.Finished? then (st, l0) else Alone(cfg, st1, d, l1, 3);
    assert Alone(cfg, st1, d, l1, 3) == if l1.Finished? then (st1, l1) else Alone(cfg, st2, d, l2, 2);
  }

  /** A call no other goroutine interferes with does exactly what the atomic call does. */
  lemma AloneIsAtomic(cfg: Config, st: State, d: Draw, c: Call)
    requires c.CallRefresh? || c.CallLogout? || c.CallRevokeSession? || c.CallResetPassword?
    requires R.UsersAgree(st) && R.SessionsAgree(st) && TokensKeyed(st)
    ensures var (st', l) := Alone(cfg, st, d, Begin(cfg, st, d, c), 4);
            l.Finished? && (st', l.reply) == Step(cfg, st, d, c)
  {
    match c {
      case CallRefresh(raw) => AloneRefresh(cfg, st, d, raw);
      case CallResetPassword(raw, password) => AloneReset(cfg, st, d, raw, password);
      case CallLogout(raw) => hide HashToken, PutSession;
      case CallRevokeSession(_, _) => hide PutSession;
    }
  }
}
