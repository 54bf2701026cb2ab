/** The per-ip request limiter: two fields per visitor and a background cleanup, against a
    specification that remembers every request. */
module RateLimiter {

  // ---------- on values ----------

  datatype Visit = Visit(count: int, lastSeen: int)

  datatype Limits = Limits(limit: int, window: int)

  function AllowStep(c: Limits, vs: map<string, Visit>, ip: string, now: int): (map<string, Visit>, bool) {
    if ip !in vs then (vs[ip := Visit(1, now)], true)
    else if now - vs[ip].lastSeen > c.window then (vs[ip := Visit(1, now)], true)
    else (vs[ip := Visit(vs[ip].count + 1, now)], vs[ip].count + 1 <= c.limit)
  }

  function CleanupStep(c: Limits, vs: map<string, Visit>, now: int): map<string, Visit> {
    map ip | ip in vs && !(now - vs[ip].lastSeen > c.window) :: vs[ip]
  }

  // ---------- on the heap ----------

  class Visitor {
    var count: int
    var lastSeen: int

    constructor (count: int, lastSeen: int)
      ensures this.count == count && this.lastSeen == lastSeen
    {
      this.count, this.lastSeen := count, lastSeen;
    }
  }

  class Limiter {
    const limits: Limits
    var visitors: map<string, Visitor>

    ghost predicate Valid()
      reads this
    {
      forall a, b | a in visitors && b in visitors && a != b :: visitors[a] != visitors[b]
    }

    ghost function Abs(): map<string, Visit>
      reads this, visitors.Values
    {
      map ip | ip in visitors :: Visit(visitors[ip].count, visitors[ip].lastSeen)
    }

    constructor (limit: int, window: int)
      ensures Valid() && Abs() == map[] && limits == Limits(limit, window)
    {
      limits := Limits(limit, window);
      visitors := map[];
    }

    method Allow(ip: string, now: int) returns (ok: bool)
      requires Valid()
      modifies this, visitors.Values
      ensures Valid() && fresh(visitors.Values - old(visitors.Values))
      ensures (Abs(), ok) == AllowStep(limits, old(Abs()), ip, now)
    {
      if ip !in visitors {
        var v := new Visitor(1, now);
        visitors := visitors[ip := v];
        assert Abs() == old(Abs())[ip := Visit(1, now)];
        return true;
      }
      var v := visitors[ip];
      if now - v.lastSeen > limits.window {
        v.count := 1;
        v.lastSeen := now;
        assert Abs() == old(Abs())[ip := Visit(1, now)];
        return true;
      }
      v.lastSeen := now;
      v.count := v.count + 1;
      assert Abs() == old(Abs())[ip := Visit(v.count, now)];
      return v.count <= limits.limit;
    }

    /** One tick of the cleanup loop. */
    method Cleanup(now: int)
      requires Valid()
      modifies this
      ensures Valid() && visitors.Values <= old(visitors.Values)
      ensures Abs() == CleanupStep(limits, old(Abs()), now)
    {
      var todo := visitors.Keys;
      while todo != {}
        invariant todo <= visitors.Keys <= old(visitors.Keys)
        invariant forall ip | ip in visitors :: visitors[ip] == old(visitors)[ip]
        invariant forall ip | ip in old(visitors) ::
                    ip in visitors <==> ip in todo || !(now - old(visitors)[ip].lastSeen > limits.window)
      {
        var ip :| ip in todo;
        todo := todo - {ip};
        if now - visitors[ip].lastSeen > limits.window {
          visitors := visitors - {ip};
        }
      }
    }
  }

  // ---------- runs ----------

  datatype Event = Request(ip: string, now: int) | Tick(now: int)

  ghost predicate Monotone(es: seq<Event>) {
    forall i, j | 0 <= i < j < |es| :: es[i].now <= es[j].now
  }

  ghost function StateAt(c: Limits, es: seq<Event>, n: nat): map<string, Visit>
    requires n <= |es|
  {
    if n == 0 then map[] else
      var prev := StateAt(c, es, n - 1);
      match es[n - 1]
      case Request(ip, now) => AllowStep(c, prev, ip, now).0
      case Tick(now) => CleanupStep(c, prev, now)
  }

  /** The answer to request number `n`. */
  ghost predicate Answer(c: Limits, es: seq<Event>, n: nat)
    requires n < |es| && es[n].Request?
  {
    AllowStep(c, StateAt(c, es, n), es[n].ip, es[n].now).1
  }

  /** The times at which `ip` asked, in order: the full history. */
  ghost function Times(es: seq<Event>, ip: string): seq<int> {
    if es == [] then [] else
      var e := es[|es| - 1];
      Times(es[..|es| - 1], ip) + (if e.Request? && e.ip == ip then [e.now] else [])
  }

  /** The position of the last request in its burst; a burst ends at a gap longer than the window. */
  ghost function BurstPosition(ts: seq<int>, window: int): nat {
    if |ts| <= 1 then |ts|
    else if ts[|ts| - 1] - ts[|ts| - 2] > window then 1
    else BurstPosition(ts[..|ts| - 1], window) + 1
  }

  lemma BurstNext(ts: seq<int>, now: int, window: int)
    ensures BurstPosition(ts + [now], window)
         == if ts == [] || now - ts[|ts| - 1] > window then 1 else BurstPosition(ts, window) + 1
  {
    assert (ts + [now])[..|ts|] == ts;
  }

  ghost predicate Admitted(c: Limits, k: nat) {
    k == 1 || k <= c.limit
  }

  lemma TimesNext(es: seq<Event>, n: nat, ip: string)
    requires n < |es|
    ensures Times(es[..n + 1], ip)
         == Times(es[..n], ip) + (if es[n].Request? && es[n].ip == ip then [es[n].now] else [])
  {
    assert es[..n + 1][..n] == es[..n];
  }

  /** Every recorded time is the time of an event. */
  lemma {:induction false} TimesAreEvents(es: seq<Event>, n: nat, ip: string, now: int)
    requires n <= |es| && (forall i | 0 <= i < n :: es[i].now <= now)
    ensures forall t | t in Times(es[..n], ip) :: t <= now
  {
    if n > 0 {
      TimesAreEvents(es, n - 1, ip, now);
      TimesNext(es, n - 1, ip);
    }
  }

  /** The two fields hold the burst position and the last time; an ip without an entry has been silent
      for longer than the window. */
  ghost predicate Represents(c: Limits, vs: map<string, Visit>, ts: seq<int>, ip: string, clock: int) {
    if ip in vs then
      ts != [] && vs[ip] == Visit(BurstPosition(ts, c.window), ts[|ts| - 1])
    else
      ts != [] ==> clock - ts[|ts| - 1] > c.window
  }

  lemma {:induction false} StateRepresentsHistory(c: Limits, es: seq<Event>, n: nat, ip: string, clock: int)
    requires n <= |es| && Monotone(es) && (forall i | 0 <= i < n :: es[i].now <= clock)
    ensures Represents(c, StateAt(c, es, n), Times(es[..n], ip), ip, clock)
  {
    if n == 0 {
      assert es[..0] == [];
    } else {
      var e := es[n - 1];
      StateRepresentsHistory(c, es, n - 1, ip, e.now);
      TimesNext(es, n - 1, ip);
      TimesAreEvents(es, n - 1, ip, e.now);
      var ts := Times(es[..n - 1], ip);
      assert ts != [] ==> ts[|ts| - 1] in ts;
      BurstNext(ts, e.now, c.window);
      hide BurstPosition, Times, Monotone;
      assert ts + [] == ts;
    }
  }

  /** With a monotone clock, and whenever and however often cleanup runs, each answer is the one the
      full history gives: the first of a burst and every later one up to the limit are admitted. */
  lemma AnswersFollowHistory(c: Limits, es: seq<Event>, n: nat)
    requires n < |es| && Monotone(es) && es[n].Request?
    ensures Answer(c, es, n) <==> Admitted(c, BurstPosition(Times(es[..n + 1], es[n].ip), c.window))
  {
    var ip, now := es[n].ip, es[n].now;
    StateRepresentsHistory(c, es, n, ip, now);
    TimesNext(es, n, ip);
    BurstNext(Times(es[..n], ip), now, c.window);
  }

  /** The last `k` requests follow one another within the window, and the one before them does not. */
  ghost predicate IsBurst(ts: seq<int>, window: int, k: nat) {
    && k <= |ts|
    && (forall i | |ts| - k < i < |ts| :: ts[i] - ts[i - 1] <= window)
    && (0 < k < |ts| ==> ts[|ts| - k] - ts[|ts| - k - 1] > window)
  }

  lemma {:induction false} BurstIsLongest(ts: seq<int>, window: int)
    ensures IsBurst(ts, window, BurstPosition(ts, window)) && (ts != [] ==> BurstPosition(ts, window) > 0)
  {
    if |ts| > 1 {
      var front := ts[..|ts| - 1];
      BurstIsLongest(front, window);
      assert forall i | 0 <= i < |front| :: front[i] == ts[i];
    }
  }

  /** With a monotone clock a request is refused exactly when at least max(1, limit) requests of its ip came before it,
      and from the max(1, limit)-th before it on no two in a row were further apart than the window. */
  lemma RefusedIff(c: Limits, es: seq<Event>, n: nat)
    requires n < |es| && Monotone(es) && es[n].Request?
    ensures var ts := Times(es[..n + 1], es[n].ip);
            !Answer(c, es, n) <==>
            |ts| > Cap(c) && forall i | |ts| - Cap(c) <= i < |ts| :: ts[i] - ts[i - 1] <= c.window
  {
    var ts := Times(es[..n + 1], es[n].ip);
    AnswersFollowHistory(c, es, n);
    BurstIsLongest(ts, c.window);
    TimesNext(es, n, es[n].ip);
    hide Answer, Times, BurstPosition;
    BurstExceeds(ts, c.window, BurstPosition(ts, c.window), Cap(c));
  }

  lemma BurstExceeds(ts: seq<int>, window: int, k: nat, cap: int)
    requires IsBurst(ts, window, k) && 0 < k && cap >= 1
    ensures k > cap <==> |ts| > cap && forall i | |ts| - cap <= i < |ts| :: ts[i] - ts[i - 1] <= window
  {
    if k <= cap < |ts| { assert ts[|ts| - k] - ts[|ts| - k - 1] > window; }
  }

  // ---------- cleanup is unobservable ----------

  function Requests(es: seq<Event>): (rs: seq<Event>)
    ensures forall e | e in rs :: e.Request?
  {
    if es == [] then [] else
      var e := es[|es| - 1];
      Requests(es[..|es| - 1]) + (if e.Request? then [e] else [])
  }

  lemma RequestsNext(es: seq<Event>, n: nat)
    requires n < |es|
    ensures Requests(es[..n + 1]) == Requests(es[..n]) + (if es[n].Request? then [es[n]] else [])
  {
    assert es[..n + 1][..n] == es[..n];
  }

  /** The answers to the requests of a run, in order. */
  ghost function Answers(c: Limits, es: seq<Event>, n: nat): seq<bool>
    requires n <= |es|
  {
    if n == 0 then [] else
      Answers(c, es, n - 1) + (if es[n - 1].Request? then [Answer(c, es, n - 1)] else [])
  }

  /** What the history says of each request. */
  ghost function HistoryAnswers(c: Limits, rs: seq<Event>, n: nat): seq<bool>
    requires n <= |rs| && forall e | e in rs :: e.Request?
  {
    if n == 0 then [] else
      HistoryAnswers(c, rs, n - 1) + [Admitted(c, BurstPosition(Times(rs[..n], rs[n - 1].ip), c.window))]
  }

  lemma {:induction false} TimesIgnoreTicks(es: seq<Event>, ip: string)
    ensures Times(es, ip) == Times(Requests(es), ip)
  {
    if es != [] {
      TimesIgnoreTicks(es[..|es| - 1], ip);
      var rs := Requests(es[..|es| - 1]);
      if es[|es| - 1].Request? {
        assert (rs + [es[|es| - 1]])[..|rs|] == rs;
      } else {
        assert Requests(es) == rs + [] == rs;
      }
    }
  }

  lemma {:induction false} HistoryAnswersExtend(c: Limits, rs: seq<Event>, e: Event, n: nat)
    requires n <= |rs| && e.Request? && forall e' | e' in rs :: e'.Request?
    ensures HistoryAnswers(c, rs + [e], n) == HistoryAnswers(c, rs, n)
  {
    if n > 0 {
      HistoryAnswersExtend(c, rs, e, n - 1);
      assert (rs + [e])[..n] == rs[..n];
    }
  }

  lemma HistoryAnswersNext(c: Limits, rs: seq<Event>, e: Event)
    requires e.Request? && forall e' | e' in rs :: e'.Request?
    ensures HistoryAnswers(c, rs + [e], |rs| + 1)
         == HistoryAnswers(c, rs, |rs|) + [Admitted(c, BurstPosition(Times(rs + [e], e.ip), c.window))]
  {
    hide Times, BurstPosition, Admitted;
    HistoryAnswersExtend(c, rs, e, |rs|);
    assert (rs + [e])[..|rs| + 1] == rs + [e];
  }

  lemma {:induction false} AnswersAreHistory(c: Limits, es: seq<Event>, n: nat)
    requires n <= |es| && Monotone(es)
    ensures Answers(c, es, n) == HistoryAnswers(c, Requests(es[..n]), |Requests(es[..n])|)
  {
    hide Times, BurstPosition, Admitted, Answer, Monotone;
    if n > 0 {
      AnswersAreHistory(c, es, n - 1);
      RequestsNext(es, n - 1);
      var e, rs := es[n - 1], Requests(es[..n - 1]);
      if e.Request? {
        AnswersFollowHistory(c, es, n - 1);
        TimesIgnoreTicks(es[..n], e.ip);
        HistoryAnswersNext(c, rs, e);
      } else {
        assert rs + [] == rs;
      }
    }
  }

  /** Two runs with the same requests give the same answers, wherever cleanup ran in either. */
  lemma CleanupIsUnobservable(c: Limits, es: seq<Event>, fs: seq<Event>)
    requires Monotone(es) && Monotone(fs) && Requests(es) == Requests(fs)
    ensures Answers(c, es, |es|) == Answers(c, fs, |fs|)
  {
    AnswersAreHistory(c, es, |es|);
    AnswersAreHistory(c, fs, |fs|);
    assert es[..|es|] == es && fs[..|fs|] == fs;
  }

  // ---------- the promise ----------

  function Cap(c: Limits): int {
    if c.limit < 1 then 1 else c.limit
  }

  /** How many requests of `ip` among the first `n` events fall into [from, from + window] and are admitted. */
  ghost function AdmittedWithin(c: Limits, es: seq<Event>, n: nat, ip: string, from: int): nat
    requires n <= |es|
  {
    if n == 0 then 0 else
      AdmittedWithin(c, es, n - 1, ip, from)
      + (if es[n - 1].Request? && es[n - 1].ip == ip && from <= es[n - 1].now <= from + c.window && Answer(c, es, n - 1)
         then 1 else 0)
  }

  /** Invariant of the count: below the cap, and below the burst position while the interval lasts. */
  ghost predicate CountFits(c: Limits, ts: seq<int>, from: int, k: nat) {
    && k <= Cap(c)
    && (k > 0 ==> ts != [] && from <= ts[|ts| - 1])
    && (k > 0 && ts[|ts| - 1] <= from + c.window ==> k <= BurstPosition(ts, c.window))
  }

  lemma CountGrows(c: Limits, ts: seq<int>, now: int, from: int, k: nat)
    requires CountFits(c, ts, from, k) && (ts != [] ==> ts[|ts| - 1] <= now)
    ensures CountFits(c, ts + [now], from, k)
    ensures from <= now <= from + c.window && Admitted(c, BurstPosition(ts + [now], c.window)) ==>
              CountFits(c, ts + [now], from, k + 1)
  {
    BurstNext(ts, now, c.window);
    hide BurstPosition;
  }

  lemma AdmittedCountNext(c: Limits, es: seq<Event>, n: nat, ip: string, from: int)
    requires n < |es| && Monotone(es)
    requires CountFits(c, Times(es[..n], ip), from, AdmittedWithin(c, es, n, ip, from))
    ensures CountFits(c, Times(es[..n + 1], ip), from, AdmittedWithin(c, es, n + 1, ip, from))
  {
    var e, ts, k := es[n], Times(es[..n], ip), AdmittedWithin(c, es, n, ip, from);
    TimesAreEvents(es, n, ip, e.now);
    assert ts != [] ==> ts[|ts| - 1] in ts;
    hide CountFits, Times, Admitted, Answer, BurstPosition;
    TimesNext(es, n, ip);
    CountGrows(c, ts, e.now, from, k);
    if e.Request? && e.ip == ip {
      AnswersFollowHistory(c, es, n);
    } else {
      assert ts + [] == ts;
    }
  }

  lemma {:induction false} AdmittedCountFitsBurst(c: Limits, es: seq<Event>, n: nat, ip: string, from: int)
    requires n <= |es| && Monotone(es)
    ensures CountFits(c, Times(es[..n], ip), from, AdmittedWithin(c, es, n, ip, from))
  {
    if n > 0 {
      hide *;
      AdmittedCountFitsBurst(c, es, n - 1, ip, from);
      AdmittedCountNext(c, es, n - 1, ip, from);
    }
  }

  /** Any interval of at most one window admits at most max(1, limit) requests of one ip. */
  lemma WindowAdmitsAtMostCap(c: Limits, es: seq<Event>, ip: string, from: int)
    requires Monotone(es)
    ensures AdmittedWithin(c, es, |es|, ip, from) <= Cap(c)
  {
    AdmittedCountFitsBurst(c, es, |es|, ip, from);
    assert es[..|es|] == es;
  }
}
