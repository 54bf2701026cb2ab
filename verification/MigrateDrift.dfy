/** Exactly when the migration runner reports drift, what a checksum stands for, and what one transaction does. */
module MigrateDrift {
  import opened Text
  import opened Migrate
  import NormalizeSql
  import SqlComments

  // ---------- one transaction ----------

  lemma {:induction false} ExecInOrder<S>(exec: Executor<S>, schema: S, a: seq<string>, b: seq<string>)
    ensures ExecAll(exec, schema, a + b)
         == if ExecAll(exec, schema, a).None? then None else ExecAll(exec, ExecAll(exec, schema, a).value, b)
    decreases |b|
  {
    if b == [] {
      assert a + b == a;
    } else {
      assert (a + b)[..|a + b| - 1] == a + b[..|b| - 1];
      ExecInOrder(exec, schema, a, b[..|b| - 1]);
    }
  }

  /** Statements run one after another on what the ones before them made; the first refusal ends it. */
  lemma ExecOneByOne<S>(exec: Executor<S>, schema: S, first: string, rest: seq<string>)
    ensures ExecAll(exec, schema, []) == Some(schema)
    ensures ExecAll(exec, schema, [first] + rest)
         == if exec(schema, first).None? then None else ExecAll(exec, exec(schema, first).value, rest)
  {
    ExecInOrder(exec, schema, [first], rest);
    assert [first][..0] == [];
    assert ExecAll(exec, schema, [first]) == exec(schema, first);
  }

  /** Whole migrations run one after another in the same way. */
  lemma {:induction false} FoldInOrder<S>(exec: Executor<S>, schema: S, a: seq<Migration>, b: seq<Migration>)
    ensures Fold(exec, schema, a + b)
         == if Fold(exec, schema, a).None? then None else Fold(exec, Fold(exec, schema, a).value, b)
    decreases |b|
  {
    if b == [] {
      assert a + b == a;
    } else {
      assert (a + b)[..|a + b| - 1] == a + b[..|b| - 1];
      FoldInOrder(exec, schema, a, b[..|b| - 1]);
    }
  }

  /** Every statement of every migration, in order. */
  function AllStatements(list: seq<Migration>): seq<string> {
    if list == [] then [] else AllStatements(list[..|list| - 1]) + list[|list| - 1].statements
  }

  /** The schema of an applied prefix is what its statements make, all of them in order and nothing else. */
  lemma {:induction false} FoldIsItsStatements<S>(exec: Executor<S>, schema: S, list: seq<Migration>)
    ensures Fold(exec, schema, list) == ExecAll(exec, schema, AllStatements(list))
  {
    if list != [] {
      var front, last := list[..|list| - 1], list[|list| - 1];
      FoldIsItsStatements(exec, schema, front);
      ExecInOrder(exec, schema, AllStatements(front), last.statements);
    }
  }

  /** Nothing stands in the way of the transaction. */
  predicate Commits<S>(exec: Executor<S>, db: Db<S>, m: Migration, fault: Fault) {
    && !fault.BeginFails? && !(fault.StatementFails? && fault.at < |m.statements|)
    && ExecAll(exec, db.schema, m.statements).Some?
    && !fault.RecordFails? && (forall row | row in db.ledger :: row.id != m.id)
    && !fault.CommitRejected?
  }

  /** A transaction is all or nothing: schema and ledger row together, or neither. */
  lemma AttemptIsAtomic<S>(exec: Executor<S>, db: Db<S>, m: Migration, fault: Fault)
    ensures var (db', ok) := Attempt(exec, db, m, fault);
            && (!Commits(exec, db, m, fault) ==> db' == db && !ok)
            && (Commits(exec, db, m, fault) ==>
                  && Some(db'.schema) == ExecAll(exec, db.schema, m.statements)
                  && db'.ledger == db.ledger + [Row(m.id, m.name, ChecksumOf(m))]
                  && (ok <==> !fault.CommitAmbiguous?))
  {
    hide ChecksumOf;
  }

  // ---------- checksums ----------

  /** Two migrations have one checksum exactly when they have as many statements and these pairwise the same normal
      form. */
  lemma ChecksumsAgreeIff(m: Migration, n: Migration)
    ensures ChecksumOf(m) == ChecksumOf(n) <==>
            && |m.statements| == |n.statements|
            && forall i | 0 <= i < |m.statements| ::
                 NormalizeSql.Normalized(m.statements[i]) == NormalizeSql.Normalized(n.statements[i])
  {
    hide NormalizeSql.Normalized;
    var a, b := ChecksumOf(m).statements, ChecksumOf(n).statements;
    if ChecksumOf(m) == ChecksumOf(n) {
      forall i | 0 <= i < |a|
        ensures NormalizeSql.Normalized(m.statements[i]) == NormalizeSql.Normalized(n.statements[i])
      {
        assert a[i] == b[i];
      }
    } else {
      assert a != b;
    }
  }

  // ---------- drift ----------

  /** A run past a prefix without drift is a run of the rest on what the prefix left. */
  lemma {:induction false} RunToDrift<S>(exec: Executor<S>, db: Db<S>, applied: map<string, Checksum>,
                                         list: seq<Migration>, during: string -> Fault)
    requires FirstDrift(applied, list) < |list|
    ensures var d := FirstDrift(applied, list);
            var (before, outcome, executed) := RunFrom(exec, db, applied, list[..d], during);
            RunFrom(exec, db, applied, list, during)
            == (before, if outcome.Success? then Drift(list[d].id) else outcome, executed)
    decreases |list|
  {
    hide Attempt, ChecksumOf;
    var d, m, rest := FirstDrift(applied, list), list[0], list[1..];
    if d > 0 {
      var db' := if m.id in applied then db else Attempt(exec, db, m, during(m.id)).0;
      RunToDrift(exec, db', applied, rest, during);
      assert list[..d][1..] == rest[..d - 1] && list[..d][0] == m;
    } else {
      assert list[..0] == [];
    }
  }

  lemma {:induction false} NoDriftNoReport<S>(exec: Executor<S>, db: Db<S>, applied: map<string, Checksum>,
                                              list: seq<Migration>, during: string -> Fault)
    requires FirstDrift(applied, list) == |list|
    ensures !RunFrom(exec, db, applied, list, during).1.Drift?
    decreases |list|
  {
    hide Attempt, ChecksumOf;
    if list != [] {
      var m := list[0];
      var db' := if m.id in applied then db else Attempt(exec, db, m, during(m.id)).0;
      NoDriftNoReport(exec, db', applied, list[1..], during);
    }
  }

  /** A run reports drift exactly when a changed migration is listed and the run of the list up to it succeeds; the
      report names the first one, and the database is as that shorter run leaves it. */
  lemma DriftIsReportedIff<S>(exec: Executor<S>, db: Db<S>, list: seq<Migration>, faults: Faults)
    ensures var d := FirstDrift(Applied(db.ledger), list);
            var shorter := Run(exec, db, list[..d], faults);
            && (Run(exec, db, list, faults).1.Drift? <==> d < |list| && shorter.1.Success?)
            && (d < |list| && shorter.1.Success? ==>
                  Run(exec, db, list, faults) == (shorter.0, Drift(list[d].id), shorter.2))
  {
    hide RunFrom, Attempt, ChecksumOf;
    var applied := Applied(db.ledger);
    var d := FirstDrift(applied, list);
    if d < |list| {
      RunToDrift(exec, db, applied, list, faults.during);
      FrontHasNoDrift(applied, list);
      NoDriftNoReport(exec, db, applied, list[..d], faults.during);
    } else {
      NoDriftNoReport(exec, db, applied, list, faults.during);
    }
  }

  lemma {:induction false} FrontHasNoDrift(applied: map<string, Checksum>, list: seq<Migration>)
    ensures FirstDrift(applied, list[..FirstDrift(applied, list)]) == FirstDrift(applied, list)
  {
    hide ChecksumOf;
    var d := FirstDrift(applied, list);
    if d > 0 {
      FrontHasNoDrift(applied, list[1..]);
      assert list[..d][1..] == list[1..][..d - 1] && list[..d][0] == list[0];
    } else {
      assert list[..0] == [];
    }
  }

  /** With every migration before it applied and unchanged, a changed one is reported before anything is executed. */
  lemma ChangedMigrationIsReported<S>(exec: Executor<S>, db: Db<S>, list: seq<Migration>, d: nat, faults: Faults)
    requires d < |list| && !faults.setupFails
    requires list[d].id in Applied(db.ledger) && Applied(db.ledger)[list[d].id] != ChecksumOf(list[d])
    requires forall i | 0 <= i < d ::
               list[i].id in Applied(db.ledger) && Applied(db.ledger)[list[i].id] == ChecksumOf(list[i])
    ensures Run(exec, db, list, faults) == (db, Drift(list[d].id), [])
  {
    hide ChecksumOf;
    var applied := Applied(db.ledger);
    SkipsTo(exec, db, applied, list, d, faults.during);
    assert list[d..][0] == list[d];
  }

  lemma {:induction false} SkipsTo<S>(exec: Executor<S>, db: Db<S>, applied: map<string, Checksum>,
                                      list: seq<Migration>, d: nat, during: string -> Fault)
    requires d <= |list|
    requires forall i | 0 <= i < d :: list[i].id in applied && applied[list[i].id] == ChecksumOf(list[i])
    ensures RunFrom(exec, db, applied, list, during) == RunFrom(exec, db, applied, list[d..], during)
  {
    hide ChecksumOf, Attempt;
    if d == 0 {
      assert list[0..] == list;
    } else {
      SkipsTo(exec, db, applied, list[1..], d - 1, during);
      assert list[1..][d - 1..] == list[d..];
    }
  }

  /** Adding a comment to an applied statement may be reported as drift: it stood after a space. */
  lemma CommentMayDrift<S>(exec: Executor<S>, schema: S, id: string, name: string)
    ensures var applied, commented := Migration(id, name, ["a \nb"]), Migration(id, name, ["a --c\nb"]);
            var db := Db(schema, [Row(id, name, ChecksumOf(applied))]);
            Run(exec, db, [commented], NO_FAULTS) == (db, Drift(id), [])
  {
    var applied, commented := Migration(id, name, ["a \nb"]), Migration(id, name, ["a --c\nb"]);
    hide NormalizeSql.Normalized, ChecksumOf;
    SqlComments.CommentMayChangeNormalForm();
    ChecksumsAgreeIff(applied, commented);
    assert applied.statements[0] == "a \nb" && commented.statements[0] == "a --c\nb";
    var db := Db(schema, [Row(id, name, ChecksumOf(applied))]);
    assert db.ledger[..0] == [];
    assert Applied(db.ledger) == map[id := ChecksumOf(applied)];
    ChangedMigrationIsReported(exec, db, [commented], 0, NO_FAULTS);
  }
}
