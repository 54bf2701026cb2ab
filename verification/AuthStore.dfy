/** The in-memory store on the heap.  A session record is one object reachable through the id index
    and through the hash index; `RevokeSessionsForUser` mutates it in place. */
module AuthStore {
  import opened Text
  import M = AuthModel

  class SessionRec {
    const id: string
    const userId: string
    const hash: M.Digest
    const createdAt: int
    const expiresAt: int
    const rotatedTo: string
    var revokedAt: Option<int>

    constructor (s: M.Session)
      ensures Value() == s
    {
      id, userId, hash, createdAt, expiresAt, rotatedTo, revokedAt :=
        s.id, s.userId, s.hash, s.createdAt, s.expiresAt, s.rotatedTo, s.revokedAt;
    }

    function Value(): M.Session
      reads this
    {
      M.Session(id, userId, hash, createdAt, expiresAt, rotatedTo, revokedAt)
    }

    method RevokeIfOwned(owner: string, now: int)
      modifies this
      ensures Value() == M.RevokeIfOwned(old(Value()), owner, now)
    {
      if userId == owner && revokedAt.None? {
        revokedAt := Some(now);
      }
    }
  }

  class TokenRec {
    const hash: M.Digest
    const userId: string
    const purpose: M.Purpose
    const expiresAt: int
    var usedAt: Option<int>

    constructor (t: M.Token)
      ensures Value() == t
    {
      hash, userId, purpose, expiresAt, usedAt := t.hash, t.userId, t.purpose, t.expiresAt, t.usedAt;
    }

    function Value(): M.Token
      reads this
    {
      M.Token(hash, userId, purpose, expiresAt, usedAt)
    }
  }

  class MemStore {
    var usersById: map<string, M.User>
    var usersByEmail: map<string, M.User>
    var sessions: map<string, SessionRec>
    var sessionsByHash: map<M.Digest, SessionRec>
    var tokens: map<M.Digest, TokenRec>

    /** Both session indexes lead to the same object, filed under its own id and its own hash. */
    ghost predicate Valid()
      reads this
    {
      && (forall id | id in sessions ::
            && sessions[id].id == id
            && sessions[id].hash in sessionsByHash && sessionsByHash[sessions[id].hash] == sessions[id])
      && (forall h | h in sessionsByHash ::
            && sessionsByHash[h].hash == h
            && sessionsByHash[h].id in sessions && sessions[sessionsByHash[h].id] == sessionsByHash[h])
      && (forall h | h in tokens :: tokens[h].hash == h)
    }

    ghost function AbsSessions(): map<string, M.Session>
      reads this, sessions.Values
    {
      map id | id in sessions :: sessions[id].Value()
    }

    ghost function AbsByHash(): map<M.Digest, M.Session>
      reads this, sessionsByHash.Values
    {
      map h | h in sessionsByHash :: sessionsByHash[h].Value()
    }

    ghost function AbsTokens(): map<M.Digest, M.Token>
      reads this, tokens.Values
    {
      map h | h in tokens :: tokens[h].Value()
    }

    ghost function Abs(): M.State
      reads this, sessions.Values, sessionsByHash.Values, tokens.Values
    {
      M.State(usersById, usersByEmail, AbsSessions(), AbsByHash(), AbsTokens())
    }

    constructor ()
      ensures Valid() && sessions == map[] && tokens == map[]
      ensures Abs() == M.State(map[], map[], map[], map[], map[])
    {
      usersById, usersByEmail, sessions, sessionsByHash, tokens := map[], map[], map[], map[], map[];
    }

    method CreateUser(u: M.User) returns (err: Option<M.Error>)
      requires Valid()
      modifies this`usersById, this`usersByEmail
      ensures Valid()
      ensures match M.CreateUser(old(Abs()), u)
              case Ok(st) => err == None && Abs() == st
              case Err(e) => err == Some(e) && Abs() == old(Abs())
    {
      var key := M.NormalizeEmail(u.email);
      if key in usersByEmail { return Some(M.EmailTaken); }
      usersById := usersById[u.id := u];
      usersByEmail := usersByEmail[key := u];
      assert AbsSessions() == old(AbsSessions()) && AbsByHash() == old(AbsByHash()) && AbsTokens() == old(AbsTokens());
      return None;
    }

    method UpdateUser(u: M.User) returns (err: Option<M.Error>)
      requires Valid()
      modifies this`usersById, this`usersByEmail
      ensures Valid()
      ensures match M.UpdateUser(old(Abs()), u)
              case Ok(st) => err == None && Abs() == st
              case Err(e) => err == Some(e) && Abs() == old(Abs())
    {
      hide M.NormalizeEmail;
      if u.id !in usersById { return Some(M.UserNotFound); }
      var oldKey := M.NormalizeEmail(usersById[u.id].email);
      if oldKey != M.NormalizeEmail(u.email) {
        usersByEmail := usersByEmail - {oldKey};
      }
      usersById := usersById[u.id := u];
      usersByEmail := usersByEmail[M.NormalizeEmail(u.email) := u];
      assert AbsSessions() == old(AbsSessions()) && AbsByHash() == old(AbsByHash()) && AbsTokens() == old(AbsTokens());
      return None;
    }

    function GetUserById(id: string): (r: M.Result<M.User>)
      reads this, sessions.Values, sessionsByHash.Values, tokens.Values
      ensures r == M.GetUserById(Abs(), id)
    {
      if id in usersById then M.Ok(usersById[id]) else M.Err(M.UserNotFound)
    }

    function GetUserByEmail(email: string): (r: M.Result<M.User>)
      reads this, sessions.Values, sessionsByHash.Values, tokens.Values
      ensures r == M.GetUserByEmail(Abs(), email)
    {
      var key := M.NormalizeEmail(email);
      if key in usersByEmail then M.Ok(usersByEmail[key]) else M.Err(M.UserNotFound)
    }

    /** CreateSession and UpdateSession: store a copy under both keys.  The indexes stay on the same records when the id
        and the digest are both new, or both those of one stored session. */
    method PutSession(s: M.Session)
      modifies this`sessions, this`sessionsByHash
      ensures old(Valid() && M.MayPut(Abs(), s)) ==> Valid()
      ensures fresh(sessions.Values - old(sessions.Values))
      ensures Abs() == M.PutSession(old(Abs()), s)
    {
      ghost var mayPut := Valid() && M.MayPut(Abs(), s);
      if mayPut { MayPutRecord(s); }
      hide M.MayPut;
      var stored := new SessionRec(s);
      assert AbsSessions() == old(AbsSessions()) && AbsByHash() == old(AbsByHash()) && AbsTokens() == old(AbsTokens());
      FileRecord(stored);
      hide *;
      assert sessions.Values <= old(sessions.Values) + {stored};
    }

    lemma MayPutRecord(s: M.Session)
      requires Valid() && M.MayPut(Abs(), s)
      ensures Fits(s.id, s.hash)
    {
      if s.hash in sessionsByHash { assert s.hash in AbsByHash(); }
      if s.id in sessions { assert sessions[s.id].Value() == AbsSessions()[s.id]; }
    }

    /** Both keys are new or lead to one record. */
    ghost predicate Fits(id: string, hash: M.Digest)
      reads this
    {
      id in sessions || hash in sessionsByHash ==> id in sessions && sessions[id].hash == hash
    }

    method FileRecord(stored: SessionRec)
      modifies this`sessions, this`sessionsByHash
      ensures old(Valid() && Fits(stored.id, stored.hash)) ==> Valid()
      ensures sessions == old(sessions)[stored.id := stored]
      ensures Abs() == M.PutSession(old(Abs()), stored.Value())
    {
      FileById(stored);
      FileByHash(stored);
    }

    method FileById(stored: SessionRec)
      modifies this`sessions
      ensures sessions == old(sessions)[stored.id := stored]
      ensures AbsSessions() == old(AbsSessions())[stored.id := stored.Value()]
      ensures AbsByHash() == old(AbsByHash()) && AbsTokens() == old(AbsTokens())
    {
      sessions := sessions[stored.id := stored];
    }

    method FileByHash(stored: SessionRec)
      modifies this`sessionsByHash
      ensures sessionsByHash == old(sessionsByHash)[stored.hash := stored]
      ensures AbsByHash() == old(AbsByHash())[stored.hash := stored.Value()]
      ensures AbsSessions() == old(AbsSessions()) && AbsTokens() == old(AbsTokens())
    {
      sessionsByHash := sessionsByHash[stored.hash := stored];
    }

    /** The getters return copies, so callers hold values that later writes do not reach. */
    function GetSessionById(id: string): (r: M.Result<M.Session>)
      requires Valid()
      reads this, sessions.Values, sessionsByHash.Values, tokens.Values
      ensures r.Ok? ==> M.MayPut(Abs(), r.value)
      ensures r == M.GetSessionById(Abs(), id)
    {
      if id in sessions then M.Ok(sessions[id].Value()) else M.Err(M.InvalidToken)
    }

    function GetSessionByHash(h: M.Digest): (r: M.Result<M.Session>)
      requires Valid()
      reads this, sessions.Values, sessionsByHash.Values, tokens.Values
      ensures r.Ok? ==> M.MayPut(Abs(), r.value) && r.value.id in Abs().sessions
      ensures r == M.GetSessionByHash(Abs(), h)
    {
      if h in sessionsByHash then M.Ok(sessionsByHash[h].Value()) else M.Err(M.InvalidToken)
    }

    /** Revokes in place, through the id index; the hash index sees it because it holds the same objects. */
    method RevokeSessionsForUser(userId: string, now: int)
      requires Valid()
      modifies sessions.Values
      ensures Valid()
      ensures Abs() == M.RevokeSessionsForUser(old(Abs()), userId, now)
    {
      hide M.RevokeIfOwned;
      var todo := sessions.Keys;
      while todo != {}
        invariant todo <= sessions.Keys
        invariant forall id | id in sessions ::
                    sessions[id].Value() == if id in todo then old(sessions[id].Value())
                                            else M.RevokeIfOwned(old(sessions[id].Value()), userId, now)
      {
        var id :| id in todo;
        sessions[id].RevokeIfOwned(userId, now);
        todo := todo - {id};
      }
      assert AbsByHash() == M.RevokeSessionsForUser(old(Abs()), userId, now).byHash;
    }

    method CreateToken(t: M.Token)
      requires Valid()
      modifies this`tokens
      ensures Valid() && fresh(tokens.Values - old(tokens.Values))
      ensures Abs() == M.CreateToken(old(Abs()), t)
    {
      var stored := new TokenRec(t);
      tokens := tokens[stored.hash := stored];
      assert tokens.Values <= old(tokens.Values) + {stored};
      assert AbsTokens() == old(AbsTokens())[t.hash := t];
      assert AbsSessions() == old(AbsSessions()) && AbsByHash() == old(AbsByHash());
    }

    function GetToken(h: M.Digest): (r: M.Result<M.Token>)
      reads this, sessions.Values, sessionsByHash.Values, tokens.Values
      ensures r == M.GetToken(Abs(), h)
    {
      if h in tokens then M.Ok(tokens[h].Value()) else M.Err(M.InvalidToken)
    }

    method MarkTokenUsed(h: M.Digest, now: int) returns (err: Option<M.Error>)
      requires Valid()
      modifies tokens.Values
      ensures Valid()
      ensures match M.MarkTokenUsed(old(Abs()), h, now)
              case Ok(st) => err == None && Abs() == st
              case Err(e) => err == Some(e) && Abs() == old(Abs())
    {
      if h !in tokens { return Some(M.InvalidToken); }
      tokens[h].usedAt := Some(now);
      return None;
    }
  }
}
