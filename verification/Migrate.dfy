/** The migration runner: an ordered list, a ledger of what was applied with checksums, one transaction
    per migration, and failures anywhere. */
module Migrate {
  import opened Text
  import NormalizeSql

  datatype Migration = Migration(id: string, name: string, statements: seq<string>)

  /** SHA-256 over the normalised statements, as an injective function of them. */
  datatype Checksum = Sum(statements: seq<string>)

  function ChecksumOf(m: Migration): Checksum {
    Sum(seq(|m.statements|, i requires 0 <= i < |m.statements| => NormalizeSql.Normalized(m.statements[i])))
  }

  datatype Row = Row(id: string, name: string, checksum: Checksum)

  function RowOf(m: Migration): Row {
    Row(m.id, m.name, ChecksumOf(m))
  }

  /** `ledger` is schema_migrations in insertion order; its id column is the primary key. */
  datatype Db<S> = Db(schema: S, ledger: seq<Row>)

  /** How a statement changes the schema, or None when the database refuses it. */
  type Executor<!S> = (S, string) -> Option<S>

  /** What goes wrong with one migration's transaction.  A commit may report an error although it took
      effect. */
  datatype Fault = NoFault | BeginFails | StatementFails(at: nat) | RecordFails | CommitRejected | CommitAmbiguous

  datatype Outcome = Success | SetupFailed | Drift(id: string) | Failed(id: string)

  /** Creating or reading the ledger may fail too. */
  datatype Faults = Faults(setupFails: bool, during: string -> Fault)

  // ---------- one migration ----------

  function ExecAll<S>(exec: Executor<S>, schema: S, statements: seq<string>): Option<S> {
    if statements == [] then Some(schema) else
    match ExecAll(exec, schema, statements[..|statements| - 1])
    case None => None
    case Some(s) => exec(s, statements[|statements| - 1])
  }

  /** One transaction: its statements, the ledger row, the commit. */
  function Attempt<S>(exec: Executor<S>, db: Db<S>, m: Migration, fault: Fault): (Db<S>, bool) {
    if fault.BeginFails? || (fault.StatementFails? && fault.at < |m.statements|) then (db, false)
    else match ExecAll(exec, db.schema, m.statements)
      case None => (db, false)
      case Some(schema) =>
        if fault.RecordFails? || (exists row | row in db.ledger :: row.id == m.id) then (db, false)
        else if fault.CommitRejected? then (db, false)
        else (Db(schema, db.ledger + [RowOf(m)]), !fault.CommitAmbiguous?)
  }

  // ---------- one run ----------

  function Applied(ledger: seq<Row>): map<string, Checksum> {
    if ledger == [] then map[] else
      var last := ledger[|ledger| - 1];
      Applied(ledger[..|ledger| - 1])[last.id := last.checksum]
  }

  /** The rest of a run; `executed` collects the ids whose transaction was attempted. */
  function RunFrom<S>(exec: Executor<S>, db: Db<S>, applied: map<string, Checksum>, list: seq<Migration>,
                      during: string -> Fault): (Db<S>, Outcome, seq<string>)
    decreases |list|
  {
    if list == [] then (db, Success, []) else
    var m := list[0];
    if m.id in applied then
      if applied[m.id] != ChecksumOf(m) then (db, Drift(m.id), [])
      else RunFrom(exec, db, applied, list[1..], during)
    else
      var (db', ok) := Attempt(exec, db, m, during(m.id));
      if !ok then (db', Failed(m.id), [m.id])
      else
        var (last, outcome, executed) := RunFrom(exec, db', applied, list[1..], during);
        (last, outcome, [m.id] + executed)
  }

  function Run<S>(exec: Executor<S>, db: Db<S>, list: seq<Migration>, faults: Faults): (Db<S>, Outcome, seq<string>) {
    if faults.setupFails then (db, SetupFailed, []) else RunFrom(exec, db, Applied(db.ledger), list, faults.during)
  }

  // ---------- the imperative runner ----------

  class Database<S> {
    var db: Db<S>
    const exec: Executor<S>

    constructor (db: Db<S>, exec: Executor<S>)
      ensures this.db == db && this.exec == exec
    {
      this.db, this.exec := db, exec;
    }

    method ReadLedger() returns (applied: map<string, Checksum>)
      ensures applied == Applied(db.ledger)
    {
      applied := map[];
      for i := 0 to |db.ledger|
        invariant applied == Applied(db.ledger[..i])
      {
        assert db.ledger[..i + 1][..i] == db.ledger[..i];
        applied := applied[db.ledger[i].id := db.ledger[i].checksum];
      }
      assert db.ledger[..|db.ledger|] == db.ledger;
    }

    /** Runs one migration in a transaction; on an error before the commit the transaction is dropped. */
    method Apply(m: Migration, fault: Fault) returns (ok: bool)
      modifies this`db
      ensures (db, ok) == Attempt(exec, old(db), m, fault)
    {
      if fault.BeginFails? { return false; }
      var tx := db.schema;
      for i := 0 to |m.statements|
        invariant ExecAll(exec, db.schema, m.statements[..i]) == Some(tx)
        invariant !(fault.StatementFails? && fault.at < i)
      {
        if fault == StatementFails(i) { return false; }
        assert m.statements[..i + 1][..i] == m.statements[..i];
        var next := exec(tx, m.statements[i]);
        if next.None? {
          ExecFailureStays(exec, db.schema, m.statements, i + 1);
          return false;
        }
        tx := next.value;
      }
      assert m.statements[..|m.statements|] == m.statements;
      if fault.RecordFails? || (exists row | row in db.ledger :: row.id == m.id) { return false; }
      if fault.CommitRejected? { return false; }
      db := Db(tx, db.ledger + [RowOf(m)]);
      return !fault.CommitAmbiguous?;
    }

    method ApplyMigrations(list: seq<Migration>, faults: Faults) returns (outcome: Outcome, executed: seq<string>)
      modifies this`db
      ensures (db, outcome, executed) == Run(exec, old(db), list, faults)
    {
      executed := [];
      if faults.setupFails { return SetupFailed, executed; }
      var applied := ReadLedger();
      var i := 0;
      assert list[i..] == list;
      assert forall rest: seq<string> :: executed + rest == rest;
      while i < |list|
        invariant 0 <= i <= |list|
        invariant var (last, o, rest) := RunFrom(exec, db, applied, list[i..], faults.during);
                  RunFrom(exec, old(db), applied, list, faults.during) == (last, o, executed + rest)
      {
        var m := list[i];
        assert list[i..][0] == m && list[i..][1..] == list[i + 1..];
        if m.id in applied {
          if applied[m.id] != ChecksumOf(m) {
            assert executed + [] == executed;
            return Drift(m.id), executed;
          }
        } else {
          ghost var before := executed;
          executed := executed + [m.id];
          var ok := Apply(m, faults.during(m.id));
          if !ok { return Failed(m.id), executed; }
          ghost var rest := RunFrom(exec, db, applied, list[i + 1..], faults.during).2;
          assert before + ([m.id] + rest) == executed + rest;
        }
        i := i + 1;
      }
      assert executed + [] == executed;
      return Success, executed;
    }
  }

  lemma {:induction false} ExecFailureStays<S>(exec: Executor<S>, schema: S, statements: seq<string>, n: nat)
    requires n <= |statements| && ExecAll(exec, schema, statements[..n]) == None
    ensures ExecAll(exec, schema, statements) == None
    decreases |statements|
  {
    if n == |statements| {
      assert statements[..n] == statements;
    } else {
      var front := statements[..|statements| - 1];
      assert front[..n] == statements[..n];
      ExecFailureStays(exec, schema, front, n);
    }
  }

  // ---------- ledger and schema in step ----------

  ghost predicate Distinct(list: seq<Migration>) {
    forall i, j | 0 <= i < j < |list| :: list[i].id != list[j].id
  }

  function Rows(list: seq<Migration>): (rows: seq<Row>)
    ensures |rows| == |list|
  {
    seq(|list|, i requires 0 <= i < |list| => RowOf(list[i]))
  }

  /** Applying whole migrations in order, without faults. */
  function Fold<S>(exec: Executor<S>, schema: S, list: seq<Migration>): Option<S> {
    if list == [] then Some(schema) else
    match Fold(exec, schema, list[..|list| - 1])
    case None => None
    case Some(s) => ExecAll(exec, s, list[|list| - 1].statements)
  }

  /** The ledger is a prefix of the list and the schema is the fold of exactly that prefix. */
  ghost predicate AtPrefix<S>(exec: Executor<S>, start: S, db: Db<S>, list: seq<Migration>) {
    var n := |db.ledger|;
    n <= |list| && db.ledger == Rows(list[..n]) && Fold(exec, start, list[..n]) == Some(db.schema)
  }

  /** `applied` records the first `n` migrations with their checksums. */
  ghost predicate Records(applied: map<string, Checksum>, list: seq<Migration>, n: nat) {
    && n <= |list|
    && (forall i | 0 <= i < n :: list[i].id in applied && applied[list[i].id] == ChecksumOf(list[i]))
    && (forall i | n <= i < |list| :: list[i].id !in applied)
  }

  lemma {:induction false} AppliedOfLedger(ledger: seq<Row>)
    requires forall i, j | 0 <= i < j < |ledger| :: ledger[i].id != ledger[j].id
    ensures forall id :: id in Applied(ledger) <==> exists i :: 0 <= i < |ledger| && ledger[i].id == id
    ensures forall i | 0 <= i < |ledger| ::
              ledger[i].id in Applied(ledger) && Applied(ledger)[ledger[i].id] == ledger[i].checksum
  {
    if ledger != [] {
      var front, last := ledger[..|ledger| - 1], ledger[|ledger| - 1];
      AppliedOfLedger(front);
      forall id ensures id in Applied(ledger) <==> exists i :: 0 <= i < |ledger| && ledger[i].id == id {
        if id in Applied(front) {
          var i :| 0 <= i < |front| && front[i].id == id;
          assert ledger[i].id == id;
        } else if id == last.id {
          assert ledger[|ledger| - 1].id == id;
        } else {
          assert forall i | 0 <= i < |front| :: front[i] == ledger[i];
        }
      }
    }
  }

  lemma AppliedRecordsPrefix(list: seq<Migration>, n: nat)
    requires Distinct(list) && n <= |list|
    ensures Records(Applied(Rows(list[..n])), list, n)
  {
    var ledger := Rows(list[..n]);
    AppliedOfLedger(ledger);
    forall i | 0 <= i < n ensures list[i].id in Applied(ledger) && Applied(ledger)[list[i].id] == ChecksumOf(list[i]) {
      assert ledger[i].id == list[i].id && ledger[i].checksum == ChecksumOf(list[i]);
    }
  }

  /** A transaction at the end of the applied prefix either leaves the database alone or applies exactly
      the next migration; it reports success only in the second case. */
  lemma AttemptExtendsPrefix<S>(exec: Executor<S>, start: S, db: Db<S>, list: seq<Migration>, fault: Fault)
    requires AtPrefix(exec, start, db, list) && |db.ledger| < |list| && Distinct(list)
    ensures var n := |db.ledger|;
            var (db', ok) := Attempt(exec, db, list[n], fault);
            && AtPrefix(exec, start, db', list)
            && (db' == db || |db'.ledger| == n + 1)
            && (ok ==> |db'.ledger| == n + 1)
            && (fault.NoFault? && ExecAll(exec, db.schema, list[n].statements).Some? ==> ok)
  {
    var n := |db.ledger|;
    assert list[..n + 1][..n] == list[..n];
    forall row | row in db.ledger ensures row.id != list[n].id {
      var i :| 0 <= i < n && row == db.ledger[i];
      assert row.id == list[i].id;
    }
    assert Rows(list[..n + 1]) == Rows(list[..n]) + [RowOf(list[n])];
  }

  ghost function Ids(list: seq<Migration>): (ids: seq<string>)
    ensures |ids| == |list|
  {
    seq(|list|, i requires 0 <= i < |list| => list[i].id)
  }

  /** What a run does to a database whose ledger is a prefix of its list. */
  ghost predicate RunsOn<S>(exec: Executor<S>, start: S, db: Db<S>, list: seq<Migration>,
                            result: (Db<S>, Outcome, seq<string>))
    requires |db.ledger| <= |list|
  {
    var (last, outcome, executed) := result;
    && AtPrefix(exec, start, last, list) && |db.ledger| <= |last.ledger|
    && (outcome.Success? ==> |last.ledger| == |list|)
    && !outcome.Drift?
    && executed <= Ids(list[|db.ledger|..])
  }

  /** Past the applied prefix the runner works through the list in order. */
  lemma {:induction false} RunAppends<S>(exec: Executor<S>, start: S, db: Db<S>, applied: map<string, Checksum>,
                                         list: seq<Migration>, n: nat, during: string -> Fault)
    requires Distinct(list) && Records(applied, list, n) && n <= |db.ledger| && AtPrefix(exec, start, db, list)
    ensures RunsOn(exec, start, db, list, RunFrom(exec, db, applied, list[|db.ledger|..], during))
    decreases |list| - |db.ledger|
  {
    var k := |db.ledger|;
    if k < |list| {
      var (db', ok) := Attempt(exec, db, list[k], during(list[k].id));
      AttemptExtendsPrefix(exec, start, db, list, during(list[k].id));
      assert list[k..][0] == list[k] && list[k..][1..] == list[k + 1..];
      assert Ids(list[k..]) == [list[k].id] + Ids(list[k + 1..]);
      hide Attempt, AtPrefix, Fold, Records, Distinct;
      if ok { RunAppends(exec, start, db', applied, list, n, during); }
    }
  }

  lemma {:induction false} FaultFreeRunSucceeds<S>(exec: Executor<S>, start: S, db: Db<S>,
                                                   applied: map<string, Checksum>, list: seq<Migration>, n: nat,
                                                   during: string -> Fault)
    requires Distinct(list) && Records(applied, list, n) && n <= |db.ledger| && AtPrefix(exec, start, db, list)
    requires (forall id :: during(id).NoFault?) && Fold(exec, start, list).Some?
    ensures RunFrom(exec, db, applied, list[|db.ledger|..], during).1.Success?
    decreases |list| - |db.ledger|
  {
    var k := |db.ledger|;
    if k < |list| {
      var (db', ok) := Attempt(exec, db, list[k], during(list[k].id));
      FoldPrefix(exec, start, list, k + 1);
      assert list[..k + 1][..k] == list[..k];
      AttemptExtendsPrefix(exec, start, db, list, during(list[k].id));
      assert list[k..][0] == list[k] && list[k..][1..] == list[k + 1..];
      hide Attempt, AtPrefix, Fold, Records, Distinct;
      FaultFreeRunSucceeds(exec, start, db', applied, list, n, during);
    }
  }

  lemma {:induction false} FoldPrefix<S>(exec: Executor<S>, start: S, list: seq<Migration>, n: nat)
    requires n <= |list| && Fold(exec, start, list).Some?
    ensures Fold(exec, start, list[..n]).Some?
    decreases |list|
  {
    if n == |list| {
      assert list[..n] == list;
    } else {
      var front := list[..|list| - 1];
      assert front[..n] == list[..n];
      FoldPrefix(exec, start, front, n);
    }
  }

  /** Applied migrations with unchanged checksums are skipped. */
  lemma {:induction false} RunSkips<S>(exec: Executor<S>, db: Db<S>, applied: map<string, Checksum>,
                                       list: seq<Migration>, j: nat, n: nat, during: string -> Fault)
    requires Records(applied, list, n) && j <= n
    ensures RunFrom(exec, db, applied, list[j..], during) == RunFrom(exec, db, applied, list[n..], during)
    decreases n - j
  {
    if j < n {
      assert list[j..][0] == list[j] && list[j..][1..] == list[j + 1..];
      RunSkips(exec, db, applied, list, j + 1, n, during);
    }
  }

  lemma RunIsRunFromPrefix<S>(exec: Executor<S>, start: S, db: Db<S>, list: seq<Migration>, faults: Faults)
    requires Distinct(list) && AtPrefix(exec, start, db, list) && !faults.setupFails
    ensures Run(exec, db, list, faults)
         == RunFrom(exec, db, Applied(db.ledger), list[|db.ledger|..], faults.during)
    ensures Records(Applied(db.ledger), list, |db.ledger|)
  {
    AppliedRecordsPrefix(list, |db.ledger|);
    hide Records, Fold;
    assert list[0..] == list;
    RunSkips(exec, db, Applied(db.ledger), list, 0, |db.ledger|, faults.during);
  }

  /** One run, failing anywhere, keeps ledger and schema in step; success means the whole list. */
  lemma RunKeepsPrefix<S>(exec: Executor<S>, start: S, db: Db<S>, list: seq<Migration>, faults: Faults)
    requires Distinct(list) && AtPrefix(exec, start, db, list)
    ensures RunsOn(exec, start, db, list, Run(exec, db, list, faults))
  {
    if !faults.setupFails {
      RunIsRunFromPrefix(exec, start, db, list, faults);
      RunAppends(exec, start, db, Applied(db.ledger), list, |db.ledger|, faults.during);
    }
  }

  // ---------- sequences of runs ----------

  datatype Deployment = Deployment(list: seq<Migration>, faults: Faults)

  ghost function AfterRuns<S>(exec: Executor<S>, start: S, runs: seq<Deployment>, i: nat): Db<S>
    requires i <= |runs|
  {
    if i == 0 then Db(start, []) else
      Run(exec, AfterRuns(exec, start, runs, i - 1), runs[i - 1].list, runs[i - 1].faults).0
  }

  /** Each release ships the migrations of the one before and possibly more; ids are never reused. */
  ghost predicate AppendOnly(runs: seq<Deployment>) {
    && (forall i | 0 <= i < |runs| :: Distinct(runs[i].list))
    && (forall i, j | 0 <= i < j < |runs| :: runs[i].list <= runs[j].list)
  }

  lemma LongerListKeepsPrefix<S>(exec: Executor<S>, start: S, db: Db<S>, list: seq<Migration>, longer: seq<Migration>)
    requires AtPrefix(exec, start, db, list) && list <= longer
    ensures AtPrefix(exec, start, db, longer)
  {
    assert longer[..|db.ledger|] == list[..|db.ledger|];
  }

  /** Over any sequence of runs from an empty ledger, each failing anywhere, the ledger is a prefix of
      the list and the schema is the fold of exactly that prefix; no run reports drift. */
  lemma {:induction false} LedgerIsAlwaysAPrefix<S>(exec: Executor<S>, start: S, runs: seq<Deployment>, i: nat)
    requires AppendOnly(runs) && i < |runs|
    ensures AtPrefix(exec, start, AfterRuns(exec, start, runs, i), runs[i].list)
    ensures AtPrefix(exec, start, AfterRuns(exec, start, runs, i + 1), runs[i].list)
    ensures !Run(exec, AfterRuns(exec, start, runs, i), runs[i].list, runs[i].faults).1.Drift?
  {
    var before := AfterRuns(exec, start, runs, i);
    if i > 0 {
      LedgerIsAlwaysAPrefix(exec, start, runs, i - 1);
      LongerListKeepsPrefix(exec, start, before, runs[i - 1].list, runs[i].list);
    }
    RunKeepsPrefix(exec, start, before, runs[i].list, runs[i].faults);
  }

  const NO_FAULTS := Faults(false, (id: string) => NoFault)

  /** A complete ledger goes with the database that a single fault-free run makes of an empty one. */
  lemma CompleteIsAFaultFreeRun<S>(exec: Executor<S>, start: S, db: Db<S>, list: seq<Migration>)
    requires Distinct(list) && AtPrefix(exec, start, db, list) && |db.ledger| == |list|
    ensures db.ledger == Rows(list)
    ensures var single := Run(exec, Db(start, []), list, NO_FAULTS); single.1.Success? && single.0 == db
  {
    var empty := Db(start, []);
    assert list[..|list|] == list;
    assert AtPrefix(exec, start, empty, list) by { assert list[..0] == []; }
    RunIsRunFromPrefix(exec, start, empty, list, NO_FAULTS);
    FaultFreeRunSucceeds(exec, start, empty, Applied(empty.ledger), list, 0, NO_FAULTS.during);
    RunKeepsPrefix(exec, start, empty, list, NO_FAULTS);
  }

  /** However many runs failed before, one that succeeds leaves exactly what a single fault-free run on
      an empty database leaves. */
  lemma SuccessIsAFaultFreeRun<S>(exec: Executor<S>, start: S, runs: seq<Deployment>, i: nat)
    requires AppendOnly(runs) && i < |runs|
    requires Run(exec, AfterRuns(exec, start, runs, i), runs[i].list, runs[i].faults).1.Success?
    ensures AfterRuns(exec, start, runs, i + 1).ledger == Rows(runs[i].list)
    ensures var single := Run(exec, Db(start, []), runs[i].list, NO_FAULTS);
            single.1.Success? && single.0 == AfterRuns(exec, start, runs, i + 1)
  {
    var list, final := runs[i].list, AfterRuns(exec, start, runs, i + 1);
    LedgerIsAlwaysAPrefix(exec, start, runs, i);
    RunKeepsPrefix(exec, start, AfterRuns(exec, start, runs, i), list, runs[i].faults);
    CompleteIsAFaultFreeRun(exec, start, final, list);
  }

  /** Once everything is applied a further run executes nothing and changes nothing. */
  lemma FurtherRunIsIdle<S>(exec: Executor<S>, start: S, db: Db<S>, list: seq<Migration>, faults: Faults)
    requires Distinct(list) && AtPrefix(exec, start, db, list) && |db.ledger| == |list|
    ensures Run(exec, db, list, faults) == (db, if faults.setupFails then SetupFailed else Success, [])
  {
    if !faults.setupFails { RunIsRunFromPrefix(exec, start, db, list, faults); }
  }

  // ---------- drift ----------

  /** The first applied migration of the list whose checksum differs, or |list|. */
  function FirstDrift(applied: map<string, Checksum>, list: seq<Migration>): (d: nat)
    ensures d <= |list|
    ensures d < |list| ==> list[d].id in applied && applied[list[d].id] != ChecksumOf(list[d])
    ensures forall i | 0 <= i < d :: list[i].id in applied ==> applied[list[i].id] == ChecksumOf(list[i])
  {
    if list == [] then 0
    else if list[0].id in applied && applied[list[0].id] != ChecksumOf(list[0]) then 0
    else 1 + FirstDrift(applied, list[1..])
  }

  predicate AllApplied(applied: map<string, Checksum>, list: seq<Migration>, n: nat)
    requires n <= |list|
  {
    forall i | 0 <= i < n :: list[i].id in applied
  }

  lemma {:induction false} DriftFrom<S>(exec: Executor<S>, db: Db<S>, applied: map<string, Checksum>,
                                        list: seq<Migration>, during: string -> Fault)
    requires RunFrom(exec, db, applied, list, during).1.Drift?
    ensures var (last, outcome, executed) := RunFrom(exec, db, applied, list, during);
            var d := FirstDrift(applied, list);
            && d < |list| && outcome == Drift(list[d].id)
            && (AllApplied(applied, list, d) ==> executed == [] && last == db)
            && (!AllApplied(applied, list, d) ==> executed != [] && |last.ledger| > |db.ledger|)
    decreases |list|
  {
    var m, rest := list[0], list[1..];
    if m.id in applied {
      if applied[m.id] == ChecksumOf(m) {
        DriftFrom(exec, db, applied, rest, during);
        AllAppliedShifts(applied, list, FirstDrift(applied, list));
      }
    } else {
      var (db', ok) := Attempt(exec, db, m, during(m.id));
      DriftFrom(exec, db', applied, rest, during);
    }
  }

  lemma AllAppliedShifts(applied: map<string, Checksum>, list: seq<Migration>, n: nat)
    requires 0 < n <= |list| && list[0].id in applied
    ensures AllApplied(applied, list, n) <==> AllApplied(applied, list[1..], n - 1)
  {
    if AllApplied(applied, list[1..], n - 1) {
      forall i | 0 <= i < n ensures list[i].id in applied {
        if i > 0 { assert list[1..][i - 1] == list[i]; }
      }
    }
    if AllApplied(applied, list, n) {
      forall i | 0 <= i < n - 1 ensures list[1..][i].id in applied {
        assert list[1..][i] == list[i + 1];
      }
    }
  }

  /** A run that reports drift names the first changed migration, and it has executed nothing exactly
      when every migration before that one had been applied already. */
  lemma DriftRunExecutedNothingIff<S>(exec: Executor<S>, db: Db<S>, list: seq<Migration>, faults: Faults)
    requires Run(exec, db, list, faults).1.Drift?
    ensures var (last, outcome, executed) := Run(exec, db, list, faults);
            var d := FirstDrift(Applied(db.ledger), list);
            && d < |list| && outcome == Drift(list[d].id)
            && (executed == [] <==> AllApplied(Applied(db.ledger), list, d))
            && (last == db <==> AllApplied(Applied(db.ledger), list, d))
  {
    DriftFrom(exec, db, Applied(db.ledger), list, faults.during);
  }

  /** Editing applied migrations in place, without moving them, is therefore caught before anything runs. */
  lemma EditInPlaceDriftIsClean<S>(exec: Executor<S>, start: S, db: Db<S>, list: seq<Migration>, edited: seq<Migration>,
                                   faults: Faults)
    requires Distinct(list) && Distinct(edited) && AtPrefix(exec, start, db, list)
    requires |db.ledger| <= |edited| && forall i | 0 <= i < |db.ledger| :: edited[i].id == list[i].id
    requires Run(exec, db, edited, faults).1.Drift?
    ensures Run(exec, db, edited, faults).0 == db && Run(exec, db, edited, faults).2 == []
  {
    hide Run, ChecksumOf;
    DriftRunExecutedNothingIff(exec, db, edited, faults);
    var n, applied := |db.ledger|, Applied(db.ledger);
    forall i, j | 0 <= i < j < n ensures db.ledger[i].id != db.ledger[j].id {
      assert db.ledger[i] == RowOf(list[i]) && db.ledger[j] == RowOf(list[j]);
    }
    AppliedOfLedger(db.ledger);
    var d := FirstDrift(applied, edited);
    var found :| 0 <= found < n && db.ledger[found].id == edited[d].id;
    assert db.ledger[found] == RowOf(list[found]);
    assert found == d;
    forall i | 0 <= i < d ensures edited[i].id in applied {
      assert db.ledger[i] == RowOf(list[i]);
    }
  }

  /** With a new migration placed before a changed one the run has already executed it when it reports
      drift. */
  lemma DriftAfterExecution()
    ensures var exec: Executor<int> := (s: int, q: string) => Some(s + 1);
            var changed := Migration("b", "", ["y"]);
            var db := Db(1, [RowOf(Migration("b", "", ["x"]))]);
            Run(exec, db, [Migration("a", "", ["z"]), changed], NO_FAULTS)
            == (Db(2, db.ledger + [RowOf(Migration("a", "", ["z"]))]), Drift("b"), ["a"])
  {
    var exec: Executor<int> := (s: int, q: string) => Some(s + 1);
    var a, applied, changed := Migration("a", "", ["z"]), Migration("b", "", ["x"]), Migration("b", "", ["y"]);
    var db, db' := Db(1, [RowOf(applied)]), Db(2, [RowOf(applied)] + [RowOf(a)]);
    assert Applied(db.ledger) == map["b" := ChecksumOf(applied)] by { assert db.ledger[..0] == []; }
    NormalizeSql.LetterIsNormal('x');
    NormalizeSql.LetterIsNormal('y');
    assert ChecksumOf(applied).statements[0] == "x" && ChecksumOf(changed).statements[0] == "y";
    hide ChecksumOf;
    assert ExecAll(exec, 1, ["z"]) == Some(2) by { assert ["z"][..0] == []; }
    assert Attempt(exec, db, a, NoFault) == (db', true);
    assert [a, changed][1..] == [changed];
    assert RunFrom(exec, db', Applied(db.ledger), [changed], NO_FAULTS.during) == (db', Drift("b"), []);
    assert "a" !in Applied(db.ledger) && ["a"] + [] == ["a"];
    assert RunFrom(exec, db, Applied(db.ledger), [a, changed], NO_FAULTS.during) == (db', Drift("b"), ["a"]);
  }

  // ---------- reformatting ----------

  /** Re-indenting one statement outside comments and dollar quotes does not change the checksum. */
  lemma ReflowKeepsChecksum(m: Migration, k: nat, a: string, w: string, w': string, b: string)
    requires k < |m.statements| && m.statements[k] == a + w + b
    requires NormalizeSql.Run(a, NormalizeSql.Plain, false).mode == NormalizeSql.Plain
    requires w != "" && NormalizeSql.AllBlank(w) && w' != "" && NormalizeSql.AllBlank(w')
    ensures ChecksumOf(m.(statements := m.statements[k := a + w' + b])) == ChecksumOf(m)
  {
    NormalizeSql.ReflowingKeepsNormalForm(a, w, w', b);
    hide NormalizeSql.Normalized;
    assert ChecksumOf(m.(statements := m.statements[k := a + w' + b])).statements == ChecksumOf(m).statements;
  }

  /** A fully migrated database accepts any list with the same ids and checksums, whatever its layout. */
  lemma SameChecksumsAreIdle<S>(exec: Executor<S>, start: S, db: Db<S>, list: seq<Migration>,
                                reformatted: seq<Migration>)
    requires Distinct(list) && AtPrefix(exec, start, db, list) && |db.ledger| == |list| == |reformatted|
    requires forall i | 0 <= i < |list| ::
               reformatted[i].id == list[i].id && ChecksumOf(reformatted[i]) == ChecksumOf(list[i])
    ensures Run(exec, db, reformatted, NO_FAULTS) == (db, Success, [])
  {
    AppliedRecordsPrefix(list, |list|);
    assert list[..|list|] == list && reformatted[0..] == reformatted && reformatted[|list|..] == [];
    hide ChecksumOf;
    assert Records(Applied(db.ledger), reformatted, |list|);
    RunSkips(exec, db, Applied(db.ledger), reformatted, 0, |list|, NO_FAULTS.during);
  }
}
