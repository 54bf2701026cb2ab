/** Several instances migrating one database at the same time: each works from the ledger it read when it started, and
    their transactions interleave. */
module MigrateConcurrent {
  import opened Text
  import opened Migrate

  /** An instance between two transactions: `next` migrations of its list lie behind it, and `seen` ledger rows were
      there when it read the ledger. */
  datatype Runner = Runner(list: seq<Migration>, applied: map<string, Checksum>, next: nat, seen: nat,
                           outcome: Option<Outcome>)

  datatype World<!S> = World(db: Db<S>, runners: map<nat, Runner>)

  datatype Event = Launch(pid: nat, list: seq<Migration>, setupFails: bool) | Proceed(pid: nat, fault: Fault)

  /** One round of the loop, with the transaction it may contain. */
  function Round<S>(exec: Executor<S>, db: Db<S>, r: Runner, fault: Fault): (Db<S>, Runner) {
    if r.outcome.Some? then (db, r)
    else if r.next >= |r.list| then (db, r.(outcome := Some(Success)))
    else
      var m := r.list[r.next];
      if m.id in r.applied then
        (db, if r.applied[m.id] != ChecksumOf(m) then r.(outcome := Some(Drift(m.id))) else r.(next := r.next + 1))
      else
        var (db', ok) := Attempt(exec, db, m, fault);
        (db', if ok then r.(next := r.next + 1) else r.(outcome := Some(Failed(m.id))))
  }

  function Begun<S>(db: Db<S>, list: seq<Migration>, setupFails: bool): Runner {
    Runner(list, Applied(db.ledger), 0, |db.ledger|, if setupFails then Some(SetupFailed) else None)
  }

  function Next<S>(exec: Executor<S>, w: World<S>, e: Event): World<S> {
    match e
    case Launch(pid, list, setupFails) =>
      if pid in w.runners then w else w.(runners := w.runners[pid := Begun(w.db, list, setupFails)])
    case Proceed(pid, fault) =>
      if pid !in w.runners then w else
      var (db, r) := Round(exec, w.db, w.runners[pid], fault);
      World(db, w.runners[pid := r])
  }

  ghost function WorldAt<S>(exec: Executor<S>, w: World<S>, schedule: seq<Event>, i: nat): World<S>
    requires i <= |schedule|
  {
    if i == 0 then w else Next(exec, WorldAt(exec, w, schedule, i - 1), schedule[i - 1])
  }

  // ---------- one instance alone ----------

  /** A round of an undisturbed instance is a step of the sequential run. */
  lemma RoundIsRunStep<S>(exec: Executor<S>, db: Db<S>, r: Runner, during: string -> Fault)
    requires r.outcome.None? && r.next < |r.list|
    ensures var whole := RunFrom(exec, db, r.applied, r.list[r.next..], during);
            var (db', r') := Round(exec, db, r, during(r.list[r.next].id));
            match r'.outcome
            case Some(outcome) => whole.0 == db' && whole.1 == outcome
            case None =>
              var rest := RunFrom(exec, db', r.applied, r.list[r.next + 1..], during);
              r' == r.(next := r.next + 1) && whole.0 == rest.0 && whole.1 == rest.1
  {
    hide Attempt, ChecksumOf;
    assert r.list[r.next..][0] == r.list[r.next] && r.list[r.next..][1..] == r.list[r.next + 1..];
  }

  /** The instance left alone until it ends. */
  ghost function Solo<S>(exec: Executor<S>, db: Db<S>, r: Runner, during: string -> Fault): (Db<S>, Runner)
    requires r.next <= |r.list|
    decreases |r.list| - r.next, r.outcome.None?
  {
    if r.outcome.Some? then (db, r) else
      var fault := if r.next < |r.list| then during(r.list[r.next].id) else NoFault;
      var (db', r') := Round(exec, db, r, fault);
      RoundAdvances(exec, db, r, fault);
      Solo(exec, db', r', during)
  }

  lemma RoundAdvances<S>(exec: Executor<S>, db: Db<S>, r: Runner, fault: Fault)
    requires r.next <= |r.list| && r.outcome.None?
    ensures var r' := Round(exec, db, r, fault).1;
            && r'.list == r.list && r'.applied == r.applied && r'.seen == r.seen && r'.next <= |r'.list|
            && (r'.outcome.None? ==> r'.next == r.next + 1) && (r'.outcome.Some? ==> r'.next == r.next)
  {
    hide Attempt, ChecksumOf;
  }

  /** Undisturbed rounds give exactly the sequential run. */
  lemma {:induction false} SoloIsRun<S>(exec: Executor<S>, db: Db<S>, r: Runner, during: string -> Fault)
    requires r.next <= |r.list| && r.outcome.None?
    ensures var whole := RunFrom(exec, db, r.applied, r.list[r.next..], during);
            var (last, r') := Solo(exec, db, r, during);
            last == whole.0 && r'.outcome == Some(whole.1)
    decreases |r.list| - r.next
  {
    hide Round, Attempt, ChecksumOf, RunFrom;
    if r.next < |r.list| {
      var fault := during(r.list[r.next].id);
      var (db', r') := Round(exec, db, r, fault);
      RoundIsRunStep(exec, db, r, during);
      RoundAdvances(exec, db, r, fault);
      if r'.outcome.None? { SoloIsRun(exec, db', r', during); }
    } else {
      LastRound(exec, db, r, during);
    }
  }

  lemma LastRound<S>(exec: Executor<S>, db: Db<S>, r: Runner, during: string -> Fault)
    requires r.next == |r.list| && r.outcome.None?
    ensures Round(exec, db, r, NoFault) == (db, r.(outcome := Some(Success)))
    ensures RunFrom(exec, db, r.applied, r.list[r.next..], during) == (db, Success, [])
  {
  }

  // ---------- every interleaving ----------

  /** Where an instance may stand: its list is a release of the common one, what it read is a prefix of the ledger, and
      all it has passed is applied. */
  ghost predicate RunnerFits(ledger: seq<Row>, r: Runner, list: seq<Migration>) {
    && r.list <= list && r.seen <= |ledger| && r.applied == Applied(ledger[..r.seen])
    && r.next <= |r.list| && r.next <= |ledger|
    && (r.outcome.Some? ==> !r.outcome.value.Drift?)
    && (r.outcome == Some(Success) ==> r.next == |r.list|)
  }

  ghost predicate Orderly<S>(exec: Executor<S>, start: S, w: World<S>, list: seq<Migration>) {
    && AtPrefix(exec, start, w.db, list)
    && forall pid | pid in w.runners :: RunnerFits(w.db.ledger, w.runners[pid], list)
  }

  lemma LedgerGrows(ledger: seq<Row>, ledger': seq<Row>, r: Runner, list: seq<Migration>)
    requires RunnerFits(ledger, r, list) && ledger <= ledger'
    ensures RunnerFits(ledger', r, list)
  {
    assert ledger'[..r.seen] == ledger[..r.seen];
  }

  lemma RowsGrow(list: seq<Migration>, n: nat, m: nat)
    requires n <= m <= |list|
    ensures Rows(list[..n]) <= Rows(list[..m])
  {
    assert Rows(list[..m])[..n] == Rows(list[..n]);
  }

  /** A transaction for a migration that is in the ledger already violates its primary key. */
  lemma AppliedIsRefused<S>(exec: Executor<S>, db: Db<S>, list: seq<Migration>, k: nat, fault: Fault)
    requires k < |db.ledger| <= |list| && db.ledger == Rows(list[..|db.ledger|])
    ensures Attempt(exec, db, list[k], fault) == (db, false)
  {
    hide ChecksumOf;
    assert db.ledger[k] == RowOf(list[k]) && db.ledger[k] in db.ledger;
  }

  /** One round of one instance, however stale what it read. */
  lemma RoundFits<S>(exec: Executor<S>, start: S, db: Db<S>, r: Runner, list: seq<Migration>, fault: Fault)
    requires Distinct(list) && AtPrefix(exec, start, db, list) && RunnerFits(db.ledger, r, list)
    ensures var (db', r') := Round(exec, db, r, fault);
            AtPrefix(exec, start, db', list) && db.ledger <= db'.ledger && RunnerFits(db'.ledger, r', list)
  {
    hide Attempt, Fold, ChecksumOf;
    if r.outcome.None? && r.next < |r.list| {
      var k := r.next;
      assert r.list[k] == list[k];
      SeenRecords(db, r, list);
      if k >= r.seen {
        if k < |db.ledger| {
          AppliedIsRefused(exec, db, list, k, fault);
        } else {
          AttemptExtendsPrefix(exec, start, db, list, fault);
          var db' := Attempt(exec, db, list[k], fault).0;
          RowsGrow(list, |db.ledger|, |db'.ledger|);
          LedgerGrows(db.ledger, db'.ledger, r, list);
        }
      }
    }
  }

  lemma SeenRecords<S>(db: Db<S>, r: Runner, list: seq<Migration>)
    requires Distinct(list) && RunnerFits(db.ledger, r, list)
    requires |db.ledger| <= |list| && db.ledger == Rows(list[..|db.ledger|])
    ensures Records(r.applied, list, r.seen)
  {
    hide ChecksumOf;
    AppliedRecordsPrefix(list, r.seen);
    assert db.ledger[..r.seen] == Rows(list[..r.seen]);
  }

  /** Every instance deploys a release of one append-only list. */
  ghost predicate OneList(schedule: seq<Event>, list: seq<Migration>) {
    Distinct(list) && forall e | e in schedule && e.Launch? :: e.list <= list
  }

  lemma NextOrderly<S>(exec: Executor<S>, start: S, w: World<S>, e: Event, list: seq<Migration>)
    requires Distinct(list) && (e.Launch? ==> e.list <= list) && Orderly(exec, start, w, list)
    ensures Orderly(exec, start, Next(exec, w, e), list)
    ensures w.db.ledger <= Next(exec, w, e).db.ledger
  {
    hide Round, AtPrefix, RunnerFits, Distinct, Rows;
    match e {
      case Launch(pid, release, setupFails) =>
        if pid !in w.runners { BegunFits(w.db, release, setupFails, list); }
      case Proceed(pid, fault) =>
        if pid in w.runners {
          RoundFits(exec, start, w.db, w.runners[pid], list, fault);
          var w' := Next(exec, w, e);
          forall p | p in w'.runners ensures RunnerFits(w'.db.ledger, w'.runners[p], list) {
            if p != pid { LedgerGrows(w.db.ledger, w'.db.ledger, w.runners[p], list); }
          }
        }
    }
  }

  lemma BegunFits<S>(db: Db<S>, release: seq<Migration>, setupFails: bool, list: seq<Migration>)
    requires release <= list
    ensures RunnerFits(db.ledger, Begun(db, release, setupFails), list)
  {
    assert db.ledger[..|db.ledger|] == db.ledger;
  }

  /** With any number of instances launched and interrupted anywhere, each with what it read of the ledger at its start,
      and transactions interleaved in any order, ledger and schema stay in step: the ledger is a prefix of the list, the
      schema the fold of exactly that prefix, no instance reports drift, and one that succeeds has its whole release
      applied. */
  lemma {:induction false} LedgerIsAPrefixOnEverySchedule<S>(exec: Executor<S>, start: S, schedule: seq<Event>, i: nat,
                                                             list: seq<Migration>)
    requires OneList(schedule, list) && i <= |schedule|
    ensures Orderly(exec, start, WorldAt(exec, World(Db(start, []), map[]), schedule, i), list)
  {
    hide Next, Distinct;
    var empty := World(Db(start, []), map[]);
    if i == 0 {
      assert list[..0] == [];
    } else {
      LedgerIsAPrefixOnEverySchedule(exec, start, schedule, i - 1, list);
      hide Orderly;
      NextOrderly(exec, start, WorldAt(exec, empty, schedule, i - 1), schedule[i - 1], list);
    }
  }

  /** When an instance deploying the whole list succeeds, on whatever schedule, the database is the one that a single
      fault-free run makes of an empty one. */
  lemma SuccessOnEverySchedule<S>(exec: Executor<S>, start: S, schedule: seq<Event>, i: nat, list: seq<Migration>,
                                  pid: nat)
    requires OneList(schedule, list) && i <= |schedule|
    requires var w := WorldAt(exec, World(Db(start, []), map[]), schedule, i);
             pid in w.runners && w.runners[pid].list == list && w.runners[pid].outcome == Some(Success)
    ensures var single := Run(exec, Db(start, []), list, NO_FAULTS);
            single.1.Success? && single.0 == WorldAt(exec, World(Db(start, []), map[]), schedule, i).db
  {
    hide WorldAt, Run, Rows;
    var w := WorldAt(exec, World(Db(start, []), map[]), schedule, i);
    LedgerIsAPrefixOnEverySchedule(exec, start, schedule, i, list);
    assert RunnerFits(w.db.ledger, w.runners[pid], list);
    CompleteIsAFaultFreeRun(exec, start, w.db, list);
  }
}
