/** What every call answers, and what a call that is answered an error leaves behind: the
    error of each refusal, the rows and columns of each success, the connection after. */
module Calls {
  import opened Prelude
  import opened Ascii
  import opened Values
  import opened Rows
  import opened Storage
  import opened Sqlite
  import opened Policy
  import opened Durable

  // ---------------------------------------------------------------- refused statements

  ghost predicate AllBind(req: Request) {
    forall i :: 0 <= i < |req.params| ==> Bindable(req.params[i])
  }

  ghost predicate FirstUnbindable(params: seq<Json>, i: nat) {
    i < |params| && !Bindable(params[i]) && forall j :: 0 <= j < i ==> Bindable(params[j])
  }

  lemma FirstIsUnique(params: seq<Json>, i: nat, k: nat)
    requires FirstUnbindable(params, i) && FirstUnbindable(params, k)
    ensures i == k
  {
  }

  // SQLite compiles the statement, and no action it takes is forbidden.
  ghost predicate Prepares(req: Request) {
    req.sql.Compiled? && forall i :: 0 <= i < |req.sql.actions| ==> !Forbidden(req.sql.actions[i])
  }

  lemma StepsExactly(c: Conn, req: Request)
    ensures Steps(c, req) <==> AllBind(req) && Prepares(req) && |req.params| == req.sql.placeholders && Runnable(c.txn, req.sql.stmt)
  {
    if req.sql.Compiled? {
      PermittedExactly(req.sql.actions);
    }
  }

  // Which error each refusal is answered, and that a refused statement touches nothing: an
  // unbindable value, a statement that does not compile or is denied, a list of the wrong
  // length, a statement SQLite will not step in this transaction state.
  lemma RefusedTouchesNothing(c: Conn, req: Request, a: Attempt, cap: Option<nat>)
    requires Bounded(c.store)
    ensures var (d, r) := Execute(c, req, a, cap);
            && (forall i: nat :: FirstUnbindable(req.params, i) ==> r == Err(BindFailed(req.params[i])))
            && (AllBind(req) <==> !(r.Err? && r.error.BindFailed?))
            && (AllBind(req) ==> (r == Err(PrepareFailed) <==> !Prepares(req)))
            && (AllBind(req) && Prepares(req) ==> (r == Err(ExecuteFailed) <==> |req.params| != req.sql.placeholders))
            && (AllBind(req) && Prepares(req) && |req.params| == req.sql.placeholders && !Runnable(c.txn, req.sql.stmt)
                ==> r == Err(FetchFailed(false)))
            && (!Steps(c, req) ==> d == c && r.Err?)
  {
    StepsExactly(c, req);
    if req.sql.Compiled? {
      PermittedExactly(req.sql.actions);
    }
    var bound := BindAll(req.params);
    forall i: nat | FirstUnbindable(req.params, i) ensures bound == Err(req.params[i]) {
      var k: nat :| FirstUnbindable(req.params, k) && bound.error == req.params[k];
      FirstIsUnique(req.params, i, k);
    }
  }

  // ---------------------------------------------------------------- stepped statements

  ghost predicate ClientCheckpointFails(req: Request, a: Attempt) {
    req.sql.Compiled? && req.sql.stmt.WalCheckpoint? && a.flush.Fails?
  }

  // The outcome has the cursor's columns and every one of its rows in the format asked for,
  // whatever kind of statement yielded them.
  ghost predicate Delivers(req: Request, cursor: ResultSet, out: ExecOutcome) {
    out.columns == cursor.columns && Renders(cursor, req.format, out.rows)
  }

  lemma FetchedExactly(c: Conn, req: Request, a: Attempt, cap: Option<nat>)
    requires Bounded(c.store) && Steps(c, req)
    ensures var r := Execute(c, req, a, cap).1;
            if ClientCheckpointFails(req, a) then r == Err(FetchFailed(false))
            else if cap.Some? && |a.cursor.rows| > cap.value then r == Err(RowCapExceeded(cap.value))
            else if a.cursor.end.Faults? then r == Err(FetchFailed(a.cursor.end.interrupt))
            else r.Ok? && Delivers(req, a.cursor, r.value) && r.value.readonly == Readonly(req.sql.stmt)
  {
    if Materialize(a.cursor, cap, req.format).Ok? {
      MaterializedRenders(a.cursor, cap, req.format);
    }
  }

  // What an error met while stepping leaves behind is what became of the statement: nothing
  // happened, the transaction was rolled back, or it took effect exactly as if it had been
  // answered Ok.
  lemma AbortedExactly(c: Conn, req: Request, a: Attempt, cap: Option<nat>)
    requires Bounded(c.store) && ValidTxn(c.txn) && Steps(c, req) && Execute(c, req, a, cap).1.Err?
    ensures var d := Execute(c, req, a, cap).0;
            && d.counters == a.fate.counters
            && (a.fate.effect.Untouched? ==> d == c.(counters := d.counters))
            && (a.fate.effect.RolledBack? ==> d == c.(counters := d.counters, txn := Auto))
            && (a.fate.effect.Applied? ==> d == Perform(c, req.sql.stmt, a).(counters := d.counters))
  {
    PermittedKeepsConfig(c.config, req.sql.actions, a.left);
    PerformTxn(c, req.sql.stmt, a);
  }

  // A success commits exactly: outside a transaction a write its own pages, inside one the
  // statement that ends it (unless ROLLBACK) all pending pages, anything else nothing.
  lemma CommitsExactly(c: Conn, req: Request, a: Attempt, cap: Option<nat>)
    requires Sqlite.Valid(c) && Execute(c, req, a, cap).1.Ok?
    ensures var d := Execute(c, req, a, cap).0;
            var s := req.sql.stmt;
            var batch := if c.txn.Auto? then (if s.Dml? || s.Ddl? then a.writes else map[])
                         else if d.txn.Auto? && !s.Rollback? then c.txn.pending else map[];
            d.store.committed == c.store.committed + (if batch == map[] then [] else [batch])
  {
    OkMeansPerformed(c, req, a, cap);
    PerformTxn(c, req.sql.stmt, a);
    if req.sql.stmt.WalCheckpoint? {
      CheckpointSpec(c, req.sql.stmt.arg, a.flush);
    } else {
      CommitBatchSpec(c, Batch(c, a));
    }
  }

  // What a statement leaves the next one to see.
  function Seen(c: Conn, s: Stmt, a: Attempt): Pages
    requires Runnable(c.txn, s)
  {
    if s.Dml? || s.Ddl? then View(c) + a.writes
    else if s.Rollback? then Overlay(c.store.committed)
    else if s.RollbackTo? then Overlay(c.store.committed) + c.txn.saves[LastSave(c.txn.saves, s.name)].pending
    else View(c)
  }

  lemma NothingPending(v: Pages)
    ensures v + map[] == v
  {
  }

  lemma SeenAfterControl(c: Conn, s: Stmt, a: Attempt)
    requires Sqlite.Valid(c) && Runnable(c.txn, s) && (s.Query? || s.Begin? || s.Savepoint? || s.Rollback? || s.RollbackTo?)
    ensures View(Perform(c, s, a)) == Seen(c, s, a)
  {
    VisibleIsCommitted(c.store);
    NothingPending(Visible(c.store));
  }

  lemma SeenAfterPerform(c: Conn, s: Stmt, a: Attempt)
    requires Sqlite.Valid(c) && Runnable(c.txn, s)
    ensures View(Perform(c, s, a)) == Seen(c, s, a)
  {
    match s {
      case Dml => SeenAfterWrite(c, a.writes);
      case Ddl => SeenAfterWrite(c, a.writes);
      case WalCheckpoint(arg) => CheckpointSpec(c, arg, a.flush);
      case Commit => SeenAfterCommit(c);
      case Release(_) => SeenAfterCommit(c);
      case _ => SeenAfterControl(c, s, a);
    }
  }

  // What the next statement sees after a successful one: a write at once shows its pages,
  // ROLLBACK what is committed, ROLLBACK TO what was there at the savepoint; no other
  // statement, COMMIT and checkpoints included, changes what is seen.
  lemma SeenExactly(c: Conn, req: Request, a: Attempt, cap: Option<nat>)
    requires Sqlite.Valid(c) && Execute(c, req, a, cap).1.Ok?
    ensures Runnable(c.txn, req.sql.stmt)
    ensures View(Execute(c, req, a, cap).0) == Seen(c, req.sql.stmt, a)
  {
    OkMeansPerformed(c, req, a, cap);
    SeenAfterPerform(c, req.sql.stmt, a);
  }

  lemma SeenAfterWrite(c: Conn, writes: Pages)
    requires Sqlite.Valid(c)
    ensures View(Write(c, writes)) == View(c) + writes
  {
    VisibleIsCommitted(c.store);
    if c.txn.Auto? {
      SeenAfterBatch(c, writes);
    } else {
      MergeAssoc(Visible(c.store), c.txn.pending, writes);
    }
  }

  lemma SeenAfterCommit(c: Conn)
    requires Sqlite.Valid(c) && c.txn.Open?
    ensures View(CommitBatch(c, c.txn.pending).(txn := Auto)) == View(c)
  {
    SeenAfterBatch(c, c.txn.pending);
  }

  lemma OverlaySnoc(batches: seq<Pages>, batch: Pages)
    ensures Overlay(batches + [batch]) == Overlay(batches) + batch
  {
  }

  lemma SeenAfterBatch(c: Conn, batch: Pages)
    requires Sqlite.Valid(c)
    ensures Visible(CommitBatch(c, batch).store) == Visible(c.store) + batch
  {
    CommitBatchSpec(c, batch);
    VisibleIsCommitted(c.store);
    VisibleIsCommitted(CommitBatch(c, batch).store);
    OverlaySnoc(c.store.committed, batch);
    NothingPending(Visible(c.store));
  }

  // Which statements end a transaction: COMMIT and ROLLBACK; and, if it was opened by a
  // SAVEPOINT, the RELEASE of that savepoint, unless a later one has the same name.
  lemma EndsExactly(c: Conn, req: Request, a: Attempt, cap: Option<nat>)
    requires Bounded(c.store) && c.txn.Open? && ValidTxn(c.txn) && Execute(c, req, a, cap).1.Ok?
    ensures var s, t := req.sql.stmt, c.txn;
            Execute(c, req, a, cap).0.txn.Auto? <==>
            || s.Commit? || s.Rollback?
            || (s.Release? && !t.explicit && EqIgnoreCase(t.saves[0].name, s.name)
                && forall i :: 0 < i < |t.saves| ==> !EqIgnoreCase(t.saves[i].name, s.name))
  {
    OkMeansPerformed(c, req, a, cap);
    PerformTxn(c, req.sql.stmt, a);
  }

  // ---------------------------------------------------------------- the whole call

  lemma DeadlineDoesNotMatter(c: Conn, deadline: Option<int>, req: Request, a: Attempt, cap: Option<nat>)
    requires Bounded(c.store)
    ensures Execute(c.(deadline := deadline), req, a, cap).1 == Execute(c, req, a, cap).1
  {
  }

  // The statement's result under its deadline: the same, except that an interrupt, with a
  // time limit set, is called a timeout.
  lemma TimedExactly(c: Conn, req: Request, a: Attempt, settings: DbSettings, now: int)
    requires Bounded(c.store)
    ensures var r := Execute(c, req, a, settings.maxRows).1;
            ExecuteTimed(c, req, a, settings, now).1 ==
            if r == Err(FetchFailed(true)) && settings.queryTimeoutMs.Some? then Err(TimedOut(settings.queryTimeoutMs.value)) else r
  {
    DeadlineDoesNotMatter(c, Arm(c, settings, now).deadline, req, a, settings.maxRows);
  }

  // Whether the checkpoint after the statement fails or is busy.
  ghost predicate FlushFails(c: Conn, req: Request, mode: CheckpointMode, f: Flush)
    requires req.sql.Compiled? && Runnable(c.txn, req.sql.stmt)
  {
    GateOpensFor(c.txn, req.sql.stmt) && !mode.Off? && (f.Fails? || (c.config.journal.Wal? && f.busy != 0))
  }

  lemma ConcludedExactly(c: Conn, wasInTxn: bool, r: Result<ExecOutcome, SqlError>, mode: CheckpointMode, f: Flush)
    requires Bounded(c.store)
    ensures var ans := Conclude(c, wasInTxn, r, mode, f).1;
            if r.Err? then ans == Err(ExecError.Sql(r.error))
            else if !NeedsCheckpoint(c, wasInTxn, r.value.readonly) || mode.Off? then ans == Ok(r.value)
            else if f.Fails? then ans == Err(ExecError.Checkpoint(PragmaFailed))
            else if c.config.journal.Wal? && f.busy != 0
              then ans == Err(ExecError.Checkpoint(Incomplete(CheckpointStats(f.busy, f.log, f.checkpointed))))
            else ans == Ok(r.value)
  {
    if mode.Arg().Some? {
      InternalCheckpointAllowed(mode.Arg().value);
    }
  }

  lemma GateOfServe(c: Conn, req: Request, settings: DbSettings, o: Oracle)
    requires Sqlite.Valid(c)
    ensures var d := AtGate(c, req, settings, o);
            var r := ExecuteTimed(c, req, o.attempt, settings, o.now).1;
            && (r.Err? <==> StatementFails(c, req, o.attempt, settings.maxRows))
            && d.config == c.config
            && (r.Ok? ==> (NeedsCheckpoint(d, c.txn.Open?, r.value.readonly) <==> GateOpensFor(c.txn, req.sql.stmt)))
  {
    var armed := Arm(c, settings, o.now);
    StatementFailsExactly(armed, req, o.attempt, settings.maxRows);
    TimedSpec(c, req, o.attempt, settings, o.now);
    if Execute(armed, req, o.attempt, settings.maxRows).1.Ok? {
      GateExact(armed, req, o.attempt, settings.maxRows);
    }
  }

  // What one call answers: the statement's error; or, if its gate opens and the checkpoint
  // fails or is busy, that; or the statement's outcome unchanged.
  lemma ServeAnswersExactly(c: Conn, req: Request, settings: DbSettings, mode: CheckpointMode, o: Oracle)
    requires Sqlite.Valid(c)
    ensures var r := Execute(c, req, o.attempt, settings.maxRows).1;
            var ans := Serve(c, req, settings, mode, o).1;
            if r == Err(FetchFailed(true)) && settings.queryTimeoutMs.Some?
            then ans == Err(ExecError.Sql(TimedOut(settings.queryTimeoutMs.value)))
            else if r.Err? then ans == Err(ExecError.Sql(r.error))
            else && Steps(c, req)
                 && (if !FlushFails(c, req, mode, o.flush) then ans == Ok(r.value)
                     else if o.flush.Fails? then ans == Err(ExecError.Checkpoint(PragmaFailed))
                     else ans == Err(ExecError.Checkpoint(Incomplete(CheckpointStats(o.flush.busy, o.flush.log, o.flush.checkpointed)))))
  {
    TimedExactly(c, req, o.attempt, settings, o.now);
    GateOfServe(c, req, settings, o);
    RefusedTouchesNothing(c, req, o.attempt, settings.maxRows);
    ConcludedExactly(AtGate(c, req, settings, o), c.txn.Open?, ExecuteTimed(c, req, o.attempt, settings, o.now).1, mode, o.flush);
  }

  // Every successful answer carries the rows the statement yielded.
  lemma AnswerDelivers(c: Conn, req: Request, settings: DbSettings, mode: CheckpointMode, o: Oracle)
    requires Sqlite.Valid(c) && Serve(c, req, settings, mode, o).1.Ok?
    ensures Delivers(req, o.attempt.cursor, Serve(c, req, settings, mode, o).1.value)
  {
    ServeAnswersExactly(c, req, settings, mode, o);
    FetchedExactly(c, req, o.attempt, settings.maxRows);
  }

  // A whole call whose statement is refused: an SQL error, and the connection as it was but
  // for the deadline, cleared, and what was copied in the background.
  lemma RefusedCall(c: Conn, req: Request, settings: DbSettings, mode: CheckpointMode, o: Oracle)
    requires Sqlite.Valid(c) && !Steps(c, req)
    ensures var (d, ans) := Serve(c, req, settings, mode, o);
            && ans == Err(ExecError.Sql(Execute(c, req, o.attempt, settings.maxRows).1.error))
            && d == Background(c, o.after).(deadline := d.deadline)
            && d.deadline == (if settings.queryTimeoutMs.Some? then None else c.deadline)
            && d.txn == c.txn && d.counters == c.counters
            && d.store.committed == c.store.committed && Visible(d.store) == Visible(c.store)
  {
    RefusedTouchesNothing(c, req, o.attempt, settings.maxRows);
    RefusedTimed(c, req, settings, o);
    BackgroundSpec(c, o.after);
  }

  lemma RefusedTimed(c: Conn, req: Request, settings: DbSettings, o: Oracle)
    requires Bounded(c.store) && !Steps(c, req)
    ensures var (d, r) := ExecuteTimed(c, req, o.attempt, settings, o.now);
            && r == Execute(c, req, o.attempt, settings.maxRows).1 && r.Err?
            && d == c.(deadline := if settings.queryTimeoutMs.Some? then None else c.deadline)
  {
    var armed := Arm(c, settings, o.now);
    assert Steps(armed, req) == Steps(c, req);
    RefusedTouchesNothing(armed, req, o.attempt, settings.maxRows);
    DeadlineDoesNotMatter(c, armed.deadline, req, o.attempt, settings.maxRows);
  }

  // The mode's name in the pragma.
  lemma PragmaText(mode: CheckpointMode)
    ensures mode.Off? <==> mode.Arg() == None
    ensures mode.Truncate? ==> ArgText(mode.Arg().value) == "TRUNCATE"
    ensures mode.Restart? ==> ArgText(mode.Arg().value) == "RESTART"
    ensures mode.Full? ==> ArgText(mode.Arg().value) == "FULL"
    ensures mode.Passive? ==> ArgText(mode.Arg().value) == "PASSIVE"
  {
  }
}
