/**
 * The schema import script: the SQL file is cut into statements on ';',
 * each piece trimmed and the falsy ones dropped; the statements run inside
 * one transaction, where an error that says "already exists" is skipped
 * and any other error aborts the import and rolls it back.
 *
 * The database is a `Connection` object whose answer to each statement is
 * a parameter; it keeps the statements of the open transaction apart from
 * the committed ones, as PDO's transaction methods do.
 */
module SchemaImport {
  import opened Outcomes
  import opened Strings
  import opened PhpRuntime

  // ------------------------------------------------------------ splitting

  /** `array_map('trim', $pieces)`. */
  function TrimAll(pieces: seq<string>): seq<string> {
    Map(pieces, Trim)
  }

  /** What `array_filter` without a callback keeps: a string that is neither "" nor "0". */
  function Truthy(s: string): bool {
    !IsEmptyString(s)
  }

  /** `array_filter(array_map('trim', explode(';', $sql)))`. */
  function SplitStatements(sql: string): seq<string> {
    Filter(TrimAll(Split(sql, ';')), Truthy)
  }

  /**
   * Every statement is the trimmed text of one piece between semicolons,
   * contains no ';' and is neither empty nor "0".
   */
  lemma StatementsWellFormed(sql: string)
    ensures forall st :: st in SplitStatements(sql) ==>
      && (exists piece :: piece in Split(sql, ';') && st == Trim(piece))
      && ';' !in st
      && !IsEmptyString(st)
  {
    forall st | st in SplitStatements(sql)
      ensures (exists piece :: piece in Split(sql, ';') && st == Trim(piece)) && ';' !in st && !IsEmptyString(st)
    {
      StatementWellFormed(sql, st);
    }
  }

  lemma StatementWellFormed(sql: string, st: string)
    requires st in SplitStatements(sql)
    ensures exists piece :: piece in Split(sql, ';') && st == Trim(piece)
    ensures ';' !in st && !IsEmptyString(st)
  {
    var pieces := Split(sql, ';');
    var trimmed := TrimAll(pieces);
    FilterMembers(trimmed, Truthy);
    assert st in trimmed && Truthy(st);
    var k :| 0 <= k < |trimmed| && trimmed[k] == st;
    TrimmedPiece(pieces, k);
  }

  lemma TrimmedPiece(pieces: seq<string>, k: nat)
    requires k < |pieces| && ';' !in pieces[k]
    ensures pieces[k] in pieces && ';' !in TrimAll(pieces)[k] && TrimAll(pieces)[k] == Trim(pieces[k])
  {
    assert TrimAll(pieces)[k] == Trim(pieces[k]);
    TrimKeepsOut(pieces[k], ';');
  }

  /** Splitting around a ';' splits each side. */
  lemma {:induction false} SplitAround(a: string, b: string, c: char)
    ensures Split(a + [c] + b, c) == Split(a, c) + Split(b, c)
    decreases |a|
  {
    var s := a + [c] + b;
    if |a| == 0 {
      assert s == [c] + b;
      assert s[1..] == b;
      assert Split(s, c) == [""] + Split(b, c);
    } else {
      var t := a[1..] + [c] + b;
      assert s[0] == a[0] && s[1..] == t;
      SplitAround(a[1..], b, c);
      var rest := Split(a[1..], c);
      if a[0] != c {
        SplitCons(a[0], t, c);
        assert s == [a[0]] + t;
        ConsFirstPiece(a[0], rest, Split(b, c));
      } else {
        assert Split(s, c) == [""] + Split(t, c);
      }
    }
  }

  /** A character other than the separator joins the first piece. */
  lemma SplitCons(x: char, t: string, c: char)
    requires x != c
    ensures Split([x] + t, c) == [[x] + Split(t, c)[0]] + Split(t, c)[1..]
  {
    assert ([x] + t)[0] == x && ([x] + t)[1..] == t;
  }

  /** Putting a character in front of the first piece of a concatenation of pieces. */
  lemma ConsFirstPiece(x: char, rest: seq<string>, more: seq<string>)
    requires |rest| >= 1
    ensures [[x] + (rest + more)[0]] + (rest + more)[1..] == [[x] + rest[0]] + rest[1..] + more
  {
    assert (rest + more)[1..] == rest[1..] + more;
  }

  /** The statements before a ';' come first, in order, then those after it. */
  lemma StatementsInOrder(a: string, b: string)
    ensures SplitStatements(a + ";" + b) == SplitStatements(a) + SplitStatements(b)
  {
    assert a + ";" + b == a + [';'] + b;
    SplitAround(a, b, ';');
    MapAppend(Split(a, ';'), Split(b, ';'), Trim);
    FilterAppend(TrimAll(Split(a, ';')), TrimAll(Split(b, ';')), Truthy);
  }

  /** Text without a ';' is one statement, or none when it trims to "" or "0". */
  lemma SingleStatement(sql: string)
    requires ';' !in sql
    ensures SplitStatements(sql) == if Truthy(Trim(sql)) then [Trim(sql)] else []
  {
    SplitWithoutSeparator(sql, ';');
    assert TrimAll([sql]) == [Trim(sql)];
    assert [Trim(sql)][..0] == [];
  }

  // ------------------------------------------------------------ the database

  /** What the database answers to one statement. */
  datatype ExecResult = Done | Failed(message: string)

  /** The database as the script drives it. */
  class Connection {
    /** The answer the database gives to each statement. */
    const answer: string -> ExecResult
    var inTransaction: bool
    /** Statements applied in the open transaction. */
    var pending: seq<string>
    /** Statements made durable. */
    var committed: seq<string>

    constructor(answer: string -> ExecResult)
      ensures this.answer == answer
      ensures !inTransaction && pending == [] && committed == []
    {
      this.answer := answer;
      inTransaction := false;
      pending := [];
      committed := [];
    }

    /** `beginTransaction`. */
    method BeginTransaction()
      requires !inTransaction
      modifies this
      ensures inTransaction && pending == [] && committed == old(committed)
    {
      inTransaction := true;
      pending := [];
    }

    /** `exec`: a statement that succeeds inside the transaction is pending, outside it is committed at once. */
    method Exec(statement: string) returns (r: ExecResult)
      modifies this
      ensures r == answer(statement)
      ensures inTransaction == old(inTransaction)
      ensures r.Done? && inTransaction ==> pending == old(pending) + [statement] && committed == old(committed)
      ensures r.Done? && !inTransaction ==> pending == old(pending) && committed == old(committed) + [statement]
      ensures r.Failed? ==> pending == old(pending) && committed == old(committed)
    {
      r := answer(statement);
      if r.Done? {
        if inTransaction {
          pending := pending + [statement];
        } else {
          committed := committed + [statement];
        }
      }
    }

    /** `commit`: the pending statements become durable. */
    method Commit()
      requires inTransaction
      modifies this
      ensures !inTransaction && pending == [] && committed == old(committed) + old(pending)
    {
      committed := committed + pending;
      pending := [];
      inTransaction := false;
    }

    /** `rollBack`: false, with nothing changed, when no transaction is open (PDO throws there). */
    method RollBack() returns (ok: bool)
      modifies this
      ensures ok == old(inTransaction)
      ensures !inTransaction && committed == old(committed)
      ensures ok ==> pending == []
      ensures !ok ==> pending == old(pending)
    {
      ok := inTransaction;
      if ok {
        pending := [];
        inTransaction := false;
      }
    }
  }

  // ------------------------------------------------------------ the statement loop

  const AlreadyExists := "already exists"
  const PreviewLength := 50

  /** An answer that ends the import: an error whose message does not say "already exists". */
  predicate IsFatal(r: ExecResult) {
    r.Failed? && !Contains(r.message, AlreadyExists)
  }

  /** A line the loop echoes, with `substr($statement, 0, 50)`. */
  datatype LogLine = Executed(preview: string) | Skipped(preview: string)

  /** How far the loop got: the fatal error if one was met, the lines echoed and the statements applied. */
  datatype Progress = Progress(failure: Option<string>, log: seq<LogLine>, applied: seq<string>)

  /** The loop over `statements`, statement by statement; it stops at the first fatal error. */
  function Run(statements: seq<string>, answer: string -> ExecResult): Progress
    decreases |statements|
  {
    if |statements| == 0 then Progress(None, [], [])
    else
      var p := Run(statements[..|statements| - 1], answer);
      var s := statements[|statements| - 1];
      if p.failure.Some? || IsEmptyString(s) then p
      else match answer(s)
        case Done => Progress(None, p.log + [Executed(Take(s, PreviewLength))], p.applied + [s])
        case Failed(m) =>
          if Contains(m, AlreadyExists) then Progress(None, p.log + [Skipped(Take(s, PreviewLength))], p.applied)
          else Progress(Some(m), p.log, p.applied)
  }

  /** Once the loop has failed, later statements change nothing. */
  lemma {:induction false} RunStaysFailed(statements: seq<string>, answer: string -> ExecResult, i: nat)
    requires i <= |statements| && Run(statements[..i], answer).failure.Some?
    ensures Run(statements, answer) == Run(statements[..i], answer)
    decreases |statements| - i
  {
    if i < |statements| {
      assert statements[..i + 1][..i] == statements[..i];
      RunStaysFailed(statements, answer, i + 1);
    } else {
      assert statements[..i] == statements;
    }
  }

  /** The statements the database answers `Done`. */
  function Succeeds(answer: string -> ExecResult): string -> bool {
    s => answer(s).Done?
  }

  /** The statements the loop reaches: the non-empty ones. */
  function Reached(statements: seq<string>): seq<string> {
    Filter(statements, Truthy)
  }

  /** The loop gets through iff no statement it reaches fails fatally. */
  lemma {:induction false} RunSucceedsIff(statements: seq<string>, answer: string -> ExecResult)
    ensures Run(statements, answer).failure.None? <==>
      forall k :: 0 <= k < |statements| && Truthy(statements[k]) ==> !IsFatal(answer(statements[k]))
    decreases |statements|
  {
    if |statements| > 0 {
      var init := statements[..|statements| - 1];
      RunSucceedsIff(init, answer);
      assert forall k :: 0 <= k < |init| ==> statements[k] == init[k];
    }
  }

  /** When the loop gets through it has applied exactly the reached statements that succeed, in order. */
  lemma {:induction false} RunApplied(statements: seq<string>, answer: string -> ExecResult)
    ensures Run(statements, answer).failure.None? ==>
      Run(statements, answer).applied == Filter(Reached(statements), Succeeds(answer))
    decreases |statements|
  {
    if |statements| > 0 && Run(statements, answer).failure.None? {
      var init := statements[..|statements| - 1];
      var s := statements[|statements| - 1];
      var p := Run(init, answer);
      assert p.failure.None?;
      RunApplied(init, answer);
      assert statements == init + [s];
      FilterSnoc(init, s, Truthy);
      if Truthy(s) {
        assert Reached(statements) == Reached(init) + [s];
        FilterSnoc(Reached(init), s, Succeeds(answer));
        if answer(s).Done? {
          assert Run(statements, answer).applied == p.applied + [s];
        } else {
          assert Run(statements, answer).applied == p.applied;
        }
      } else {
        assert Reached(statements) == Reached(init);
        assert Run(statements, answer) == p;
      }
    }
  }

  /** When the loop fails, the error is that of the first statement that fails fatally. */
  lemma {:induction false} RunFirstFailure(statements: seq<string>, answer: string -> ExecResult)
    ensures Run(statements, answer).failure.Some? ==>
      exists k :: 0 <= k < |statements| && Truthy(statements[k]) && IsFatal(answer(statements[k]))
        && Run(statements, answer).failure == Some(answer(statements[k]).message)
        && forall j :: 0 <= j < k && Truthy(statements[j]) ==> !IsFatal(answer(statements[j]))
    decreases |statements|
  {
    if |statements| > 0 && Run(statements, answer).failure.Some? {
      var init := statements[..|statements| - 1];
      RunFirstFailure(init, answer);
      RunSucceedsIff(init, answer);
      assert forall k :: 0 <= k < |init| ==> statements[k] == init[k];
      if Run(init, answer).failure.None? {
        var k := |statements| - 1;
        assert Truthy(statements[k]) && IsFatal(answer(statements[k]));
      }
    }
  }

  /** The split never yields a statement the loop's own emptiness test would skip. */
  lemma SplitStatementsAllReached(sql: string)
    ensures Reached(SplitStatements(sql)) == SplitStatements(sql)
  {
    StatementsWellFormed(sql);
    var sts := SplitStatements(sql);
    forall i | 0 <= i < |sts| ensures Truthy(sts[i]) {
      assert sts[i] in sts;
    }
    FilterAllPass(sts, Truthy);
  }

  /**
   * The `foreach` over the statements inside the open transaction: each
   * non-empty statement is executed; an error that says "already exists"
   * is echoed as skipped, any other one ends the loop.
   */
  method RunStatements(db: Connection, statements: seq<string>) returns (failure: Option<string>, log: seq<LogLine>)
    requires db.inTransaction
    modifies db
    ensures failure == Run(statements, db.answer).failure && log == Run(statements, db.answer).log
    ensures db.inTransaction && db.committed == old(db.committed)
    ensures db.pending == old(db.pending) + Run(statements, db.answer).applied
  {
    failure := None;
    log := [];
    ghost var applied: seq<string> := [];
    var i := 0;
    while i < |statements|
      invariant 0 <= i <= |statements|
      invariant Run(statements[..i], db.answer) == Progress(None, log, applied)
      invariant db.inTransaction && db.committed == old(db.committed)
      invariant db.pending == old(db.pending) + applied
    {
      var statement := statements[i];
      assert statements[..i + 1][..i] == statements[..i];
      if !IsEmptyString(statement) {
        var r := db.Exec(statement);
        match r {
          case Done =>
            log := log + [Executed(Take(statement, PreviewLength))];
            applied := applied + [statement];
          case Failed(m) =>
            if !Contains(m, AlreadyExists) {
              failure := Some(m);
              RunStaysFailed(statements, db.answer, i + 1);
              return;
            }
            log := log + [Skipped(Take(statement, PreviewLength))];
        }
      }
      i := i + 1;
    }
    assert statements[..i] == statements;
  }

  // ------------------------------------------------------------ the script

  /** The SQL file: absent, present but unreadable, or its text. */
  datatype SqlFile = Missing | Unreadable | Contents(sql: string)

  /**
   * How the script ends: the schema imported; an error caught and echoed
   * after "Error: "; or an exception escaping the catch block, so that the
   * error message is never echoed.
   */
  datatype ScriptEnd = Imported(log: seq<LogLine>) | Reported(message: string, log: seq<LogLine>) | Fatal(message: string, log: seq<LogLine>)

  const FileNotFound := "SQL file not found: admin/database/database.sql"
  const ReadFailed := "Failed to read SQL file"
  const NoActiveTransaction := "There is no active transaction"

  /**
   * The script as written. `connectError` is the error of
   * `DatabaseConfig::getConnection()`, if any; `testError` that of the
   * first failing sample-data query after the commit, if any. The catch
   * block calls `rollBack()` whenever the connection exists, and that call
   * throws when no transaction is open.
   */
  function ScriptAsWritten(connectError: Option<string>, file: SqlFile, answer: string -> ExecResult,
                           testError: Option<string>): ScriptEnd
  {
    if connectError.Some? then Reported(connectError.value, [])
    else if !file.Contents? then Fatal(NoActiveTransaction, [])
    else
      var p := Run(SplitStatements(file.sql), answer);
      if p.failure.Some? then Reported(p.failure.value, p.log)
      else if testError.Some? then Fatal(NoActiveTransaction, p.log)
      else Imported(p.log)
  }

  /** The script with the rollback guarded by `inTransaction()`. */
  function Script(connectError: Option<string>, file: SqlFile, answer: string -> ExecResult,
                  testError: Option<string>): ScriptEnd
  {
    if connectError.Some? then Reported(connectError.value, [])
    else if file.Missing? then Reported(FileNotFound, [])
    else if file.Unreadable? then Reported(ReadFailed, [])
    else
      var p := Run(SplitStatements(file.sql), answer);
      if p.failure.Some? then Reported(p.failure.value, p.log)
      else if testError.Some? then Reported(testError.value, p.log)
      else Imported(p.log)
  }

  /**
   * The statements the script leaves committed: those applied by a loop
   * that got through; nothing when it did not get that far or failed.
   */
  function Committed(connectError: Option<string>, file: SqlFile, answer: string -> ExecResult): seq<string> {
    if connectError.None? && file.Contents? && Run(SplitStatements(file.sql), answer).failure.None?
    then Run(SplitStatements(file.sql), answer).applied
    else []
  }

  lemma EmptyPrefix(applied: seq<string>)
    ensures [] + applied == applied
  {
  }

  /**
   * The `try` block's work on the file's statements: open a transaction,
   * run the statements, and commit when none of them failed fatally.
   */
  method ApplyStatements(db: Connection, statements: seq<string>) returns (failure: Option<string>, log: seq<LogLine>)
    requires !db.inTransaction
    modifies db
    ensures failure == Run(statements, db.answer).failure && log == Run(statements, db.answer).log
    ensures failure.Some? ==>
      db.inTransaction && db.pending == Run(statements, db.answer).applied && db.committed == old(db.committed)
    ensures failure.None? ==>
      !db.inTransaction && db.pending == [] && db.committed == old(db.committed) + Run(statements, db.answer).applied
  {
    db.BeginTransaction();
    failure, log := RunStatements(db, statements);
    EmptyPrefix(Run(statements, db.answer).applied);
    if failure.None? {
      db.Commit();
    }
  }

  /**
   * The `try` block up to the point where it throws or finishes: the
   * exception it throws, if any (the file errors, the first fatal
   * statement error, then the sample-data test), and the log it printed.
   */
  method TryImport(db: Connection, file: SqlFile, testError: Option<string>)
    returns (thrown: Option<string>, log: seq<LogLine>)
    requires !db.inTransaction
    modifies db
    ensures !file.Contents? ==>
      thrown == Some(if file.Missing? then FileNotFound else ReadFailed) && log == []
      && !db.inTransaction && db.pending == old(db.pending) && db.committed == old(db.committed)
    ensures file.Contents? ==>
      var run := Run(SplitStatements(file.sql), db.answer);
      thrown == (if run.failure.Some? then run.failure else testError) && log == run.log
      && db.inTransaction == run.failure.Some?
      && (run.failure.Some? ==> db.pending == run.applied && db.committed == old(db.committed))
      && (run.failure.None? ==> db.pending == [] && db.committed == old(db.committed) + run.applied)
    ensures Script(None, file, db.answer, testError) == if thrown.Some? then Reported(thrown.value, log) else Imported(log)
    ensures ScriptAsWritten(None, file, db.answer, testError) ==
      if thrown.None? then Imported(log) else if db.inTransaction then Reported(thrown.value, log) else Fatal(NoActiveTransaction, log)
    ensures db.inTransaction ==> db.committed == old(db.committed) && Committed(None, file, db.answer) == []
    ensures !db.inTransaction ==> db.committed == old(db.committed) + Committed(None, file, db.answer)
  {
    log := [];
    match file {
      case Missing => thrown := Some(FileNotFound);
      case Unreadable => thrown := Some(ReadFailed);
      case Contents(sql) =>
        var failure;
        failure, log := ApplyStatements(db, SplitStatements(sql));
        thrown := if failure.Some? then failure else testError;
    }
  }

  /** `import-schema.php` as written. */
  method ImportSchemaAsWritten(connectError: Option<string>, db: Connection, file: SqlFile, testError: Option<string>)
    returns (end: ScriptEnd)
    requires !db.inTransaction
    modifies db
    ensures end == ScriptAsWritten(connectError, file, db.answer, testError)
  {
    if connectError.Some? {
      return Reported(connectError.value, []);
    }
    var thrown, log := TryImport(db, file, testError);
    if thrown.None? {
      return Imported(log);
    }
    var rolledBack := db.RollBack();
    if !rolledBack {
      return Fatal(NoActiveTransaction, log);
    }
    end := Reported(thrown.value, log);
  }

  /** The script with the rollback guarded by `inTransaction()`. */
  method ImportSchema(connectError: Option<string>, db: Connection, file: SqlFile, testError: Option<string>)
    returns (end: ScriptEnd)
    requires !db.inTransaction && db.pending == []
    modifies db
    ensures end == Script(connectError, file, db.answer, testError)
    ensures !db.inTransaction && db.pending == []
    ensures db.committed == old(db.committed) + Committed(connectError, file, db.answer)
  {
    if connectError.Some? {
      return Reported(connectError.value, []);
    }
    var thrown, log := TryImport(db, file, testError);
    if thrown.None? {
      return Imported(log);
    }
    if db.inTransaction {
      var _ := db.RollBack();
    }
    end := Reported(thrown.value, log);
  }

  /**
   * As written, a missing or unreadable SQL file, and a failure of the
   * sample-data test after the commit, end with the rollback's own
   * exception: the script's error message is never echoed.
   */
  lemma RollbackWithoutTransaction(answer: string -> ExecResult, sql: string, testError: string)
    ensures ScriptAsWritten(None, Missing, answer, None) == Fatal(NoActiveTransaction, [])
    ensures ScriptAsWritten(None, Unreadable, answer, None) == Fatal(NoActiveTransaction, [])
    ensures Run(SplitStatements(sql), answer).failure.None? ==>
      ScriptAsWritten(None, Contents(sql), answer, Some(testError)).Fatal?
  {
  }

  /**
   * With the guarded rollback every error is echoed with its own message:
   * the script never ends in an escaping exception, it reports exactly when
   * some step failed, and a statement error is that of the first fatal
   * statement.
   */
  lemma EveryErrorReported(connectError: Option<string>, file: SqlFile, answer: string -> ExecResult,
                           testError: Option<string>)
    ensures !Script(connectError, file, answer, testError).Fatal?
    ensures Script(connectError, file, answer, testError).Imported? <==>
      connectError.None? && file.Contents? && testError.None?
      && forall k :: 0 <= k < |SplitStatements(file.sql)| ==> !IsFatal(answer(SplitStatements(file.sql)[k]))
    ensures connectError.None? && file.Missing? ==> Script(connectError, file, answer, testError) == Reported(FileNotFound, [])
    ensures connectError.None? && file.Unreadable? ==> Script(connectError, file, answer, testError) == Reported(ReadFailed, [])
  {
    if connectError.None? && file.Contents? {
      var sts := SplitStatements(file.sql);
      StatementsTruthy(file.sql);
      EveryStatementReached(sts, answer);
      var p := Run(sts, answer);
      assert Script(connectError, file, answer, testError) ==
        if p.failure.Some? then Reported(p.failure.value, p.log)
        else if testError.Some? then Reported(testError.value, p.log)
        else Imported(p.log);
    }
  }

  /** No statement of the file is "" or "0". */
  lemma StatementsTruthy(sql: string)
    ensures forall k :: 0 <= k < |SplitStatements(sql)| ==> Truthy(SplitStatements(sql)[k])
  {
    var sts := SplitStatements(sql);
    StatementsWellFormed(sql);
    forall k | 0 <= k < |sts| ensures Truthy(sts[k]) {
      assert sts[k] in sts;
    }
  }

  /** When every statement is reached, the loop gets through iff none of them fails fatally. */
  lemma EveryStatementReached(statements: seq<string>, answer: string -> ExecResult)
    requires forall k :: 0 <= k < |statements| ==> Truthy(statements[k])
    ensures Run(statements, answer).failure.None? <==> forall k :: 0 <= k < |statements| ==> !IsFatal(answer(statements[k]))
  {
    RunSucceedsIff(statements, answer);
  }

  /**
   * Where both scripts report, they report the same thing; they differ
   * exactly where the script as written lets the rollback's exception escape.
   */
  lemma ScriptsAgreeWhenReported(connectError: Option<string>, file: SqlFile, answer: string -> ExecResult,
                                 testError: Option<string>)
    ensures !ScriptAsWritten(connectError, file, answer, testError).Fatal? ==>
      ScriptAsWritten(connectError, file, answer, testError) == Script(connectError, file, answer, testError)
    ensures ScriptAsWritten(connectError, file, answer, testError).Fatal? <==>
      connectError.None? && (!file.Contents? || (Run(SplitStatements(file.sql), answer).failure.None? && testError.Some?))
  {
  }
}
