/** What interleaving does to rotation links: a Logout or RevokeSession that holds a copy taken before the rotation
    writes the missing link back. */
module AuthRotation {
  import opened Text
  import opened AuthModel
  import opened AuthConcurrent
  import R = AuthRuns

  predicate Rotated(st: State, id: string) {
    id in st.sessions && st.sessions[id].rotatedTo != ""
  }

  /** Goroutine `p` is about to close session `id` from a copy without a link. */
  predicate ClosesUnlinked(w: World, p: nat, id: string) {
    p in w.threads && w.threads[p].Closing? && w.threads[p].s.id == id && w.threads[p].s.rotatedTo == ""
  }

  ghost predicate StaleClose(w: World, id: string) {
    exists p :: ClosesUnlinked(w, p, id)
  }

  /** The successors in flight have ids. */
  ghost predicate DrawsNamed(w: World) {
    forall p | p in w.threads :: DrawNamed(w.threads[p])
  }

  predicate DrawNamed(l: Local) {
    l.SuccessorDrawn? || l.SuccessorStored? ==> l.draw.id != ""
  }

  // ---------- a link that no stale copy threatens survives ----------

  lemma StartKeepsLinks(cfg: Config, st: State, d: Draw, c: Call, id: string)
    requires R.SessionsAgree(st) && Rotated(st, id)
    requires c.CallRefresh? || c.CallLogout? || c.CallRevokeSession? || c.CallResetPassword?
    ensures var l := Begin(cfg, st, d, c); DrawNamed(l) && (l.Closing? && l.s.id == id ==> l.s.rotatedTo != "")
  {
    hide HashToken;
  }

  lemma AdvanceKeepsLinks(cfg: Config, st: State, d: Draw, l: Local, id: string)
    requires Rotated(st, id) && LocalFits(st, l) && DrawNamed(l) && d.id != ""
    requires !(l.Closing? && l.s.id == id && l.s.rotatedTo == "")
    ensures var (st', l') := Advance(cfg, st, d, l); Rotated(st', id) && DrawNamed(l') && !l'.Closing?
  {
    hide HashToken, UpdateUser, MarkTokenUsed;
  }

  lemma NextKeepsLink(cfg: Config, w: World, e: Event, id: string)
    requires Fits(w) && DrawsNamed(w) && Enabled(w, e) && Rotated(w.st, id) && !StaleClose(w, id)
    ensures var w' := Next(cfg, w, e); Fits(w') && DrawsNamed(w') && Rotated(w'.st, id) && !StaleClose(w', id)
  {
    NextFits(cfg, w, e);
    hide Fits, Begin, Advance, LocalFits, R.SessionsAgree;
    var w' := Next(cfg, w, e);
    match e {
      case Start(pid, d, c) =>
        FitsAgrees(w);
        StartKeepsLinks(cfg, w.st, d, c, id);
        forall p ensures !ClosesUnlinked(w', p, id) { assert !ClosesUnlinked(w, p, id); }
      case Resume(pid, d) =>
        FitsLocally(w, pid);
        assert !ClosesUnlinked(w, pid, id);
        AdvanceKeepsLinks(cfg, w.st, d, w.threads[pid], id);
        forall p ensures !ClosesUnlinked(w', p, id) { assert !ClosesUnlinked(w, p, id); }
    }
  }

  lemma FitsAgrees(w: World)
    requires Fits(w)
    ensures R.SessionsAgree(w.st)
  {
  }

  lemma FitsLocally(w: World, p: nat)
    requires Fits(w) && p in w.threads
    ensures LocalFits(w.st, w.threads[p])
  {
  }

  lemma {:induction false} LinkSurvives(cfg: Config, w: World, schedule: seq<Event>, i: nat, id: string)
    requires Fits(w) && DrawsNamed(w) && Rotated(w.st, id) && !StaleClose(w, id) && i <= |schedule|
    ensures var w' := WorldAt(cfg, w, schedule, i);
            Fits(w') && DrawsNamed(w') && Rotated(w'.st, id) && !StaleClose(w', id)
  {
    hide Fits, DrawsNamed, StaleClose, Next, Enabled, Rotated;
    if i > 0 {
      LinkSurvives(cfg, w, schedule, i - 1, id);
      var prev := WorldAt(cfg, w, schedule, i - 1);
      if Enabled(prev, schedule[i - 1]) { NextKeepsLink(cfg, prev, schedule[i - 1], id); }
    }
  }

  // ---------- a stale copy can undo it ----------

  lemma {:induction false} LongerThanAll(taken: set<string>) returns (n: nat)
    ensures forall t | t in taken :: |t| <= n
  {
    if taken == {} { return 0; }
    var t :| t in taken;
    n := LongerThanAll(taken - {t});
    if n < |t| { n := |t|; }
  }

  lemma UntakenText(taken: set<string>) returns (s: string)
    ensures s != "" && s !in taken && Trim(s) == s
  {
    var n := LongerThanAll(taken);
    s := seq(n + 1, i => 'a');
    assert s[0] == 'a' && s[|s| - 1] == 'a';
  }

  /** uuids and tokens never run out. */
  lemma SomeDraw(w: World, d: Draw) returns (d': Draw)
    ensures Drawable(w, d') && d' == d.(id := d'.id, raw := d'.raw)
  {
    var drawn := set p | p in w.threads && w.threads[p].SuccessorDrawn? :: w.threads[p].next;
    var ids := w.st.sessions.Keys + w.st.users.Keys + set s | s in drawn :: s.id;
    var hashes := w.st.byHash.Keys + w.st.tokens.Keys + set s | s in drawn :: s.hash;
    var id := UntakenText(ids);
    var raw := UntakenText(set h | h in hashes :: h.text);
    d' := d.(id := id, raw := raw);
    assert HashToken(raw) == Sha256(raw);
    assert forall h | h in hashes :: h.text in set g | g in hashes :: g.text;
    forall p | p in w.threads && w.threads[p].SuccessorDrawn?
      ensures w.threads[p].next.id != id && w.threads[p].next.hash != HashToken(raw)
    {
      assert w.threads[p].next in drawn;
      assert w.threads[p].next.id in ids && w.threads[p].next.hash in hashes;
    }
  }

  lemma OneStep(cfg: Config, w: World, e: Event)
    requires Enabled(w, e)
    ensures WorldAt(cfg, w, [e], 1) == Next(cfg, w, e)
  {
    hide Next, Enabled;
    assert WorldAt(cfg, w, [e], 0) == w;
  }

  lemma StaleCloseUnlinks(cfg: Config, w: World, p: nat, d: Draw, id: string)
    requires ClosesUnlinked(w, p, id) && Drawable(w, d)
    ensures !Rotated(Next(cfg, w, Resume(p, d)).st, id)
  {
    hide HashToken;
  }

  ghost predicate AlwaysRotated(cfg: Config, w: World, id: string) {
    forall schedule :: Rotated(WorldAt(cfg, w, schedule, |schedule|).st, id)
  }

  /** A rotated session stays rotated on every schedule from here exactly when no goroutine is about to close it from a
      copy taken before the rotation. */
  lemma RotationSurvivesIff(cfg: Config, w: World, id: string)
    requires Fits(w) && DrawsNamed(w) && Rotated(w.st, id)
    ensures AlwaysRotated(cfg, w, id) <==> !StaleClose(w, id)
  {
    hide Fits, DrawsNamed, Rotated, Drawable;
    if !StaleClose(w, id) {
      forall schedule ensures Rotated(WorldAt(cfg, w, schedule, |schedule|).st, id) {
        LinkSurvives(cfg, w, schedule, |schedule|, id);
      }
    } else {
      var p :| ClosesUnlinked(w, p, id);
      var d := SomeDraw(w, NO_DRAW);
      var e := Resume(p, d);
      OneStep(cfg, w, e);
      StaleCloseUnlinks(cfg, w, p, d, id);
      assert |[e]| == 1;
      assert !Rotated(WorldAt(cfg, w, [e], |[e]|).st, id);
    }
  }

  const NO_DRAW := Draw(0, "", "", "", true, true, true, None)

  /** Once the link is lost, presenting the rotated token again is refused as merely invalid, where before it was the
      reuse signal that revokes the family. */
  lemma LostLinkHidesReuse(cfg: Config, w: World, p: nat, d: Draw, raw: string, id: string)
    requires Fits(w) && ClosesUnlinked(w, p, id) && Drawable(w, d)
    requires Rotated(w.st, id) && w.st.sessions[id].revokedAt.Some? && w.st.sessions[id].hash == HashToken(raw)
    ensures Begin(cfg, w.st, d, CallRefresh(raw)) == ReuseSeen(w.st.sessions[id].userId)
    ensures Begin(cfg, Next(cfg, w, Resume(p, d)).st, d, CallRefresh(raw)) == Finished(Denied(InvalidToken))
  {
    hide HashToken;
    FitsLocally(w, p);
  }

  lemma NextWorld(cfg: Config, w: World, schedule: seq<Event>, i: nat)
    requires i < |schedule| && Enabled(WorldAt(cfg, w, schedule, i), schedule[i])
    ensures WorldAt(cfg, w, schedule, i + 1) == Next(cfg, WorldAt(cfg, w, schedule, i), schedule[i])
  {
    hide Next, Enabled;
  }

  /** A session that a Refresh could rotate now. */
  predicate Refreshable(st: State, d: Draw, raw: string) {
    var h := HashToken(raw);
    && h in st.byHash && st.byHash[h].revokedAt.None? && st.byHash[h].rotatedTo == "" && d.now < st.byHash[h].expiresAt
    && st.byHash[h].userId in st.users && !st.users[st.byHash[h].userId].disabled
    && d.entropyOk && Fresh(st, d)
  }

  /** The Refresh of goroutine 1 while a Logout of goroutine 0 waits with its copy. */
  lemma RefreshOverLogout(cfg: Config, st: State, d: Draw, raw: string, d': Draw)
    requires R.SessionsAgree(st) && R.UsersAgree(st) && Refreshable(st, d, raw)
    ensures var s := st.byHash[HashToken(raw)];
            var w2 := World(st, map[0 := Begin(cfg, st, d, CallLogout(raw)), 1 := Begin(cfg, st, d, CallRefresh(raw))]);
            var w3 := Next(cfg, w2, Resume(1, d));
            && Enabled(w2, Resume(1, d)) && w3.threads.Keys == {0, 1} && w3.threads[1].SuccessorDrawn?
            && (Drawable(w3, d') ==>
                  var w4 := Next(cfg, w3, Resume(1, d'));
                  w4.threads.Keys == {0, 1} && w4.threads[1].SuccessorStored? && ClosesUnlinked(w4, 0, s.id)
                  && w4.threads[1].s == s && w4.threads[1].draw.id == d.id)
  {
    hide HashToken, PutSession, NormalizeEmail;
  }

  /** From any store with a refreshable session: a Logout reads it, a Refresh rotates it, the Logout writes its copy
      back, and the link is gone. */
  lemma LogoutMayUndoRotation(cfg: Config, st: State, d: Draw, raw: string) returns (schedule: seq<Event>)
    requires R.SessionsAgree(st) && R.UsersAgree(st) && Refreshable(st, d, raw)
    ensures |schedule| == 6
    ensures var w, id := World(st, map[]), st.byHash[HashToken(raw)].id;
            Rotated(WorldAt(cfg, w, schedule, 5).st, id) && !Rotated(WorldAt(cfg, w, schedule, 6).st, id)
  {
    hide Next, Begin, Drawable, Refreshable, Rotated, ClosesUnlinked, Fresh, R.SessionsAgree, R.UsersAgree, HashToken;
    var id := IdOf(st, d, raw);
    var w0, logout, refresh := World(st, map[]), Start(0, d, CallLogout(raw)), Start(1, d, CallRefresh(raw));
    var w1 := Next(cfg, w0, logout);
    TwoStarts(cfg, st, d, raw);
    var w2 := Next(cfg, w1, refresh);
    RefreshOverLogout(cfg, st, d, raw, d);
    var w3 := Next(cfg, w2, Resume(1, d));
    var d3 := SomeDraw(w3, d);
    RefreshOverLogout(cfg, st, d, raw, d3);
    var w4 := Next(cfg, w3, Resume(1, d3));
    var d4 := SomeDraw(w4, d);
    RetiringLinks(cfg, w4, d4, id);
    var w5 := Next(cfg, w4, Resume(1, d4));
    var d5 := SomeDraw(w5, d);
    UnlinkedIsThread(w5, 0, id);
    StaleCloseUnlinks(cfg, w5, 0, d5, id);
    schedule := [logout, refresh, Resume(1, d), Resume(1, d3), Resume(1, d4), Resume(0, d5)];
    FirstWorld(cfg, w0, schedule);
    NextWorld(cfg, w0, schedule, 0);
    NextWorld(cfg, w0, schedule, 1);
    NextWorld(cfg, w0, schedule, 2);
    NextWorld(cfg, w0, schedule, 3);
    NextWorld(cfg, w0, schedule, 4);
    NextWorld(cfg, w0, schedule, 5);
  }

  lemma IdOf(st: State, d: Draw, raw: string) returns (id: string)
    requires Refreshable(st, d, raw)
    ensures HashToken(raw) in st.byHash && id == st.byHash[HashToken(raw)].id && d.id != ""
  {
    id := st.byHash[HashToken(raw)].id;
  }

  lemma UnlinkedIsThread(w: World, p: nat, id: string)
    requires ClosesUnlinked(w, p, id)
    ensures p in w.threads
  {
  }

  lemma TwoStarts(cfg: Config, st: State, d: Draw, raw: string)
    ensures var w0 := World(st, map[]);
            var logout, refresh := Start(0, d, CallLogout(raw)), Start(1, d, CallRefresh(raw));
            && Enabled(w0, logout) && Enabled(Next(cfg, w0, logout), refresh)
            && Next(cfg, Next(cfg, w0, logout), refresh)
               == World(st, map[0 := Begin(cfg, st, d, CallLogout(raw)), 1 := Begin(cfg, st, d, CallRefresh(raw))])
  {
    hide Begin;
  }

  lemma FirstWorld(cfg: Config, w: World, schedule: seq<Event>)
    ensures WorldAt(cfg, w, schedule, 0) == w
  {
  }

  lemma RetiringLinks(cfg: Config, w: World, d: Draw, id: string)
    requires 1 in w.threads && w.threads[1].SuccessorStored? && w.threads[1].s.id == id && w.threads[1].draw.id != ""
    requires ClosesUnlinked(w, 0, id) && Drawable(w, d)
    ensures var w' := Next(cfg, w, Resume(1, d)); Rotated(w'.st, id) && ClosesUnlinked(w', 0, id)
  {
    hide HashToken;
  }
}
