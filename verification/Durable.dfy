/** The durable-execution protocol of one request, as functions of the connection
    state: what `run_exec`, `run_exec_with_settings`, `run_checkpoint` and
    `exec_durable` compute. Module Engine holds the methods that compute it. */
module Durable {
  import opened Prelude
  import opened Values
  import opened Rows
  import opened Storage
  import opened Sqlite
  import opened Policy

  datatype CheckpointMode = Truncate | Restart | Full | Passive | Off {
    // `as_pragma_arg`
    function Arg(): Option<CheckpointArg> {
      match this
      case Truncate => Some(TRUNCATE)
      case Restart => Some(RESTART)
      case Full => Some(FULL)
      case Passive => Some(PASSIVE)
      case Off => None
    }
  }

  datatype DbSettings = DbSettings(maxRows: Option<nat>, queryTimeoutMs: Option<nat>)

  datatype Request = Request(sql: Sql, params: seq<Json>, format: RowsFormat)

  datatype ExecOutcome = ExecOutcome(columns: seq<string>, rows: seq<Json>, rowcount: I64, lastrowid: I64, readonly: bool)

  datatype SqlError =
    | BindFailed(value: Json)
    | PrepareFailed
    | ExecuteFailed
    | RowCapExceeded(cap: nat)
    | FetchFailed(interrupt: bool)
    | TimedOut(ms: nat)
  datatype CheckpointError = PragmaFailed | Incomplete(stats: CheckpointStats)
  datatype InternalError = MutexPoisoned | WorkerPanicked
  datatype ExecError = Sql(sql: SqlError) | Checkpoint(checkpoint: CheckpointError) | Internal(reason: InternalError)

  type Answer = Result<ExecOutcome, ExecError>

  // The choices the environment makes while one request holds the lock: the clock, the
  // statement, background copying after it, and the checkpoint.
  datatype Oracle = Oracle(now: int, attempt: Attempt, after: nat, flush: Flush)

  function Saturate(n: nat): I64 {
    if n <= I64_MAX then n else I64_MAX
  }

  // The cursor a statement steps; a client checkpoint that fails faults it.
  function Stepped(s: Stmt, a: Attempt): ResultSet {
    if s.WalCheckpoint? && a.flush.Fails? then Cursor(a.cursor.columns, [], Faults(false)) else a.cursor
  }

  function Fetched(s: Stmt, a: Attempt, cap: Option<nat>, format: RowsFormat): Result<seq<Json>, SqlError> {
    match Materialize(Stepped(s, a), cap, format)
    case Ok(rows) => Ok(rows)
    case Err(RowCap(n)) => Err(RowCapExceeded(n))
    case Err(Fetch(interrupt)) => Err(FetchFailed(interrupt))
  }

  function Complete(c: Conn, s: Stmt, actions: seq<AuthAction>, a: Attempt): Conn
    requires Runnable(c.txn, s) && Bounded(c.store)
  {
    var d := Perform(c, s, a);
    d.(config := Configure(d.config, actions, a.left))
  }

  // A statement abandoned midway: nothing, everything, or the whole transaction undone.
  function Abort(c: Conn, s: Stmt, actions: seq<AuthAction>, a: Attempt): Conn
    requires Runnable(c.txn, s) && Bounded(c.store)
  {
    var d := match a.fate.effect
             case Untouched => c
             case Applied => Complete(c, s, actions, a)
             case RolledBack => c.(txn := Auto);
    d.(counters := a.fate.counters)
  }

  // `run_exec`
  function Execute(c: Conn, req: Request, a: Attempt, cap: Option<nat>): (Conn, Result<ExecOutcome, SqlError>)
    requires Bounded(c.store)
  {
    match BindAll(req.params)
    case Err(v) => (c, Err(BindFailed(v)))
    case Ok(_) =>
      if req.sql.Invalid? || !Permitted(req.sql.actions) then (c, Err(PrepareFailed))
      else
        var s := req.sql.stmt;
        if |req.params| != req.sql.placeholders then (c, Err(ExecuteFailed))
        else if !Runnable(c.txn, s) then (c, Err(FetchFailed(false)))
        else
          match Fetched(s, a, cap, req.format)
          case Err(e) => (Abort(c, s, req.sql.actions, a), Err(e))
          case Ok(rows) =>
            var d := Complete(c, s, req.sql.actions, a);
            var readonly := Readonly(s);
            (d, Ok(ExecOutcome(a.cursor.columns, rows, if readonly then 0 else Saturate(d.counters.changes),
                               if readonly then 0 else d.counters.lastRowid, readonly)))
  }

  function Arm(c: Conn, settings: DbSettings, now: int): Conn {
    if settings.queryTimeoutMs.Some? then c.(deadline := Some(now + settings.queryTimeoutMs.value)) else c
  }

  function Disarm(c: Conn, settings: DbSettings): Conn {
    if settings.queryTimeoutMs.Some? then c.(deadline := None) else c
  }

  function TimeoutShaped(r: Result<ExecOutcome, SqlError>, settings: DbSettings): Result<ExecOutcome, SqlError> {
    if r == Err(FetchFailed(true)) && settings.queryTimeoutMs.Some? then Err(TimedOut(settings.queryTimeoutMs.value)) else r
  }

  // `run_exec_with_settings`
  function ExecuteTimed(c: Conn, req: Request, a: Attempt, settings: DbSettings, now: int): (Conn, Result<ExecOutcome, SqlError>)
    requires Bounded(c.store)
  {
    var (d, r) := Execute(Arm(c, settings, now), req, a, settings.maxRows);
    (Disarm(d, settings), TimeoutShaped(r, settings))
  }

  function NeedsCheckpoint(c: Conn, wasInTxn: bool, readonly: bool): bool {
    c.txn.Auto? && (!readonly || wasInTxn)
  }

  // `run_checkpoint`: the pragma is prepared like any other statement.
  function RunCheckpoint(c: Conn, arg: CheckpointArg, f: Flush): (Conn, Result<CheckpointStats, ()>)
    requires Bounded(c.store)
  {
    if !Permitted([Pragma("wal_checkpoint", Some(ArgText(arg)))]) then (c, Err(())) else Sqlite.Checkpoint(c, arg, f)
  }

  // From the statement's result to the answer.
  function Conclude(c: Conn, wasInTxn: bool, r: Result<ExecOutcome, SqlError>, mode: CheckpointMode, f: Flush): (Conn, Answer)
    requires Bounded(c.store)
  {
    match r
    case Err(e) => (c, Err(Sql(e)))
    case Ok(out) =>
      if NeedsCheckpoint(c, wasInTxn, out.readonly) && mode.Arg().Some? then
        match RunCheckpoint(c, mode.Arg().value, f)
        case (d, Err(_)) => (d, Err(Checkpoint(PragmaFailed)))
        case (d, Ok(stats)) => (d, if stats.busy != 0 then Err(Checkpoint(Incomplete(stats))) else Ok(out))
      else (c, Ok(out))
  }

  lemma ExecuteBounded(c: Conn, req: Request, a: Attempt, cap: Option<nat>)
    requires Bounded(c.store)
    ensures Bounded(Execute(c, req, a, cap).0.store)
  {
    if req.sql.Compiled? && Runnable(c.txn, req.sql.stmt) {
      PerformBounded(c, req.sql.stmt, a);
    }
  }

  // `exec_durable`
  function Serve(c: Conn, req: Request, settings: DbSettings, mode: CheckpointMode, o: Oracle): (Conn, Answer)
    requires Bounded(c.store)
  {
    ExecuteBounded(Arm(c, settings, o.now), req, o.attempt, settings.maxRows);
    var (d, r) := ExecuteTimed(c, req, o.attempt, settings, o.now);
    Conclude(Background(d, o.after), c.txn.Open?, r, mode, o.flush)
  }

  lemma ConcludeBounded(c: Conn, wasInTxn: bool, r: Result<ExecOutcome, SqlError>, mode: CheckpointMode, f: Flush)
    requires Bounded(c.store)
    ensures Bounded(Conclude(c, wasInTxn, r, mode, f).0.store)
  {
  }

  lemma ServeBounded(c: Conn, req: Request, settings: DbSettings, mode: CheckpointMode, o: Oracle)
    requires Bounded(c.store)
    ensures Bounded(Serve(c, req, settings, mode, o).0.store)
  {
    ExecuteBounded(Arm(c, settings, o.now), req, o.attempt, settings.maxRows);
    var (d, r) := ExecuteTimed(c, req, o.attempt, settings, o.now);
    ConcludeBounded(Background(d, o.after), c.txn.Open?, r, mode, o.flush);
  }

  // ---------------------------------------------------------------- one statement

  ghost predicate Extends(c: Conn, d: Conn, batch: Pages)
  {
    && Sqlite.Valid(c) && Sqlite.Valid(d)
    && DurableHistory(c.store) <= DurableHistory(d.store)
    && (d.store.committed == c.store.committed || d.store.committed == c.store.committed + [batch])
  }

  lemma CompleteSpec(c: Conn, s: Stmt, actions: seq<AuthAction>, a: Attempt)
    requires Sqlite.Valid(c) && Runnable(c.txn, s) && Permitted(actions)
    ensures var d := Complete(c, s, actions, a);
            d == Perform(c, s, a) && StatementSpec(c, d, a)
  {
    PerformSpec(c, s, a);
    PermittedKeepsConfig(c.config, actions, a.left);
  }

  lemma AbortSpec(c: Conn, s: Stmt, actions: seq<AuthAction>, a: Attempt)
    requires Sqlite.Valid(c) && Runnable(c.txn, s) && Permitted(actions)
    ensures StatementSpec(c, Abort(c, s, actions, a), a)
  {
    if a.fate.effect.Applied? {
      CompleteSpec(c, s, actions, a);
    }
  }

  ghost predicate StatementSpec(c: Conn, d: Conn, a: Attempt) {
    && Extends(c, d, Batch(c, a))
    && d.config == c.config && d.deadline == c.deadline
    && (d.store.committed != c.store.committed ==> d.txn.Auto?)
  }

  // The statement gets as far as its first step, and SQLite takes that step.
  predicate Steps(c: Conn, req: Request) {
    && BindAll(req.params).Ok? && req.sql.Compiled? && Permitted(req.sql.actions)
    && |req.params| == req.sql.placeholders && Runnable(c.txn, req.sql.stmt)
  }

  // Whatever a statement's outcome, it commits nothing or one whole batch, keeps the
  // configuration, and never takes anything back from the durable state.
  lemma ExecuteSpec(c: Conn, req: Request, a: Attempt, cap: Option<nat>)
    requires Sqlite.Valid(c)
    ensures StatementSpec(c, Execute(c, req, a, cap).0, a)
  {
    if Steps(c, req) {
      if Fetched(req.sql.stmt, a, cap, req.format).Ok? {
        CompleteSpec(c, req.sql.stmt, req.sql.actions, a);
      } else {
        AbortSpec(c, req.sql.stmt, req.sql.actions, a);
      }
    }
  }

  // Writes and client checkpoints outside a transaction, and whatever ends one.
  predicate GateOpensFor(t: Txn, s: Stmt)
    requires Runnable(t, s)
  {
    if t.Auto? then s.Dml? || s.Ddl? || s.WalCheckpoint? else Closes(t, s)
  }

  // Gate exactness: over every statement kind, which successful statements open the gate.
  // Every kind that may commit does, and so does every actual commit (ROLLBACK and client
  // checkpoints do too, harmlessly); it never opens inside an open transaction or for a
  // read outside one.
  lemma GateExact(c: Conn, req: Request, a: Attempt, cap: Option<nat>)
    requires Sqlite.Valid(c) && Execute(c, req, a, cap).1.Ok?
    ensures Runnable(c.txn, req.sql.stmt)
    ensures var (d, r) := Execute(c, req, a, cap);
            var gate := NeedsCheckpoint(d, c.txn.Open?, r.value.readonly);
            && (gate <==> GateOpensFor(c.txn, req.sql.stmt))
            && (MayCommit(c.txn, req.sql.stmt) ==> gate)
            && (d.store.committed != c.store.committed ==> gate)
            && (gate ==> d.txn.Auto?)
            && (c.txn.Auto? && req.sql.stmt.Query? ==> !gate)
  {
    PerformSpec(c, req.sql.stmt, a);
  }

  lemma OkMeansPerformed(c: Conn, req: Request, a: Attempt, cap: Option<nat>)
    requires Bounded(c.store) && ValidTxn(c.txn) && Execute(c, req, a, cap).1.Ok?
    ensures req.sql.Compiled? && Runnable(c.txn, req.sql.stmt)
    ensures Execute(c, req, a, cap).0 == Perform(c, req.sql.stmt, a)
    ensures Execute(c, req, a, cap).1.value.readonly == Readonly(req.sql.stmt)
  {
    PerformTxn(c, req.sql.stmt, a);
    PermittedKeepsConfig(c.config, req.sql.actions, a.left);
  }

  ghost predicate Succeeds(c: Conn, req: Request, a: Attempt, cap: Option<nat>, d: Conn, out: ExecOutcome) {
    Bounded(c.store) && Execute(c, req, a, cap) == (d, Ok(out))
  }

  const BEGIN: Request := Request(Compiled(Begin(false), [], 0), [], Objects)
  const COMMIT: Request := Request(Compiled(Commit, [], 0), [], Objects)

  // BEGIN and one write: the transaction is open, holding the write, and nothing else moved.
  lemma BeginThenWrite(c: Conn, begun: Conn, wrote: Conn, write: Request, a: Attempt, b: Attempt,
                       x: ExecOutcome, y: ExecOutcome, cap: Option<nat>)
    requires Sqlite.Valid(c) && c.txn.Auto? && write.sql.Compiled? && write.sql.stmt.Dml?
    requires Succeeds(c, BEGIN, b, cap, begun, x) && Succeeds(begun, write, a, cap, wrote, y)
    ensures wrote.txn == Open(a.writes, true, []) && wrote.store == c.store && wrote.config == c.config
  {
    OkMeansPerformed(c, BEGIN, b, cap);
    assert begun == c.(txn := Open(map[], true, []));
    OkMeansPerformed(begun, write, a, cap);
    assert map[] + a.writes == a.writes;
  }

  // Gating on the read-only flag alone would miss every explicit transaction: after BEGIN
  // and a write, COMMIT appends the batch to the history and reports itself read-only.
  lemma ReadonlyAloneMissesCommit(c: Conn, begun: Conn, wrote: Conn, ended: Conn, write: Request, a: Attempt, b: Attempt, d: Attempt,
                                  x: ExecOutcome, y: ExecOutcome, z: ExecOutcome, cap: Option<nat>)
    requires Sqlite.Valid(c) && c.txn.Auto? && a.writes != map[]
    requires write.sql.Compiled? && write.sql.stmt.Dml?
    requires Succeeds(c, BEGIN, b, cap, begun, x) && Succeeds(begun, write, a, cap, wrote, y) && Succeeds(wrote, COMMIT, d, cap, ended, z)
    ensures ended.store.committed == c.store.committed + [a.writes]
    ensures z.readonly && NeedsCheckpoint(ended, wrote.txn.Open?, z.readonly)
  {
    BeginThenWrite(c, begun, wrote, write, a, b, x, y, cap);
    OkMeansPerformed(wrote, COMMIT, d, cap);
    assert ended == CommitBatch(wrote, a.writes).(txn := Auto);
    CommitBatchSpec(wrote, a.writes);
  }

  // ---------------------------------------------------------------- one request

  // Checkpoint modes whose successful answer promises durability.
  predicate Safe(mode: CheckpointMode, journal: JournalMode) {
    mode.Truncate? || journal.RollbackJournal?
  }

  lemma ConcludeSpec(c: Conn, wasInTxn: bool, r: Result<ExecOutcome, SqlError>, mode: CheckpointMode, f: Flush)
    requires Sqlite.Valid(c)
    ensures var (d, ans) := Conclude(c, wasInTxn, r, mode, f);
            && Sqlite.Valid(d) && d == c.(store := d.store)
            && d.store.committed == c.store.committed && Visible(d.store) == Visible(c.store)
            && DurableHistory(c.store) <= DurableHistory(d.store)
            && (ans.Ok? ==> r == Ok(ans.value))
            && (ans.Ok? && NeedsCheckpoint(c, wasInTxn, ans.value.readonly) && Safe(mode, c.config.journal)
                ==> DurableHistory(d.store) == d.store.committed)
  {
    if c.config.journal.RollbackJournal? {
      assert DurableHistory(c.store) == c.store.committed;
    }
    if r.Ok? && NeedsCheckpoint(c, wasInTxn, r.value.readonly) && mode.Arg().Some? {
      InternalCheckpointAllowed(mode.Arg().value);
      CheckpointSpec(c, mode.Arg().value, f);
    }
  }

  lemma TimedSpec(c: Conn, req: Request, a: Attempt, settings: DbSettings, now: int)
    requires Sqlite.Valid(c)
    ensures var (d, r) := ExecuteTimed(c, req, a, settings, now);
            && Extends(c, d, Batch(c, a)) && d.config == c.config
            && (d.store.committed != c.store.committed ==> d.txn.Auto?)
            && (r.Ok? && d.store.committed != c.store.committed ==> NeedsCheckpoint(d, c.txn.Open?, r.value.readonly))
  {
    var armed := Arm(c, settings, now);
    ExecuteSpec(armed, req, a, settings.maxRows);
    var (d, r) := Execute(armed, req, a, settings.maxRows);
    if r.Ok? {
      GateExact(armed, req, a, settings.maxRows);
    }
  }

  // A successful answer means durability: when `exec_durable` answers Ok and the call
  // committed anything, every commit so far, this one last, is in the durable state.
  lemma AckedIsDurable(c: Conn, req: Request, settings: DbSettings, mode: CheckpointMode, o: Oracle)
    requires Sqlite.Valid(c) && Safe(mode, c.config.journal)
    ensures var (d, ans) := Serve(c, req, settings, mode, o);
            && Extends(c, d, Batch(c, o.attempt))
            && (ans.Ok? && d.store.committed != c.store.committed ==>
                  DurableHistory(d.store) == c.store.committed + [Batch(c, o.attempt)])
  {
    TimedSpec(c, req, o.attempt, settings, o.now);
    var (d, r) := ExecuteTimed(c, req, o.attempt, settings, o.now);
    AckedAfter(c, d, o.attempt, r, mode, o.after, o.flush);
  }

  lemma AckedAfter(c: Conn, d: Conn, a: Attempt, r: Result<ExecOutcome, SqlError>, mode: CheckpointMode, after: nat, f: Flush)
    requires Extends(c, d, Batch(c, a)) && d.config == c.config && Safe(mode, c.config.journal)
    requires r.Ok? && d.store.committed != c.store.committed ==> NeedsCheckpoint(d, c.txn.Open?, r.value.readonly)
    ensures var (e, ans) := Conclude(Background(d, after), c.txn.Open?, r, mode, f);
            && Extends(c, e, Batch(c, a))
            && (ans.Ok? && e.store.committed != c.store.committed ==>
                  DurableHistory(e.store) == c.store.committed + [Batch(c, a)])
  {
    BackgroundSpec(d, after);
    ConcludeSpec(Background(d, after), c.txn.Open?, r, mode, f);
  }

  // A refused checkpoint undoes nothing: the commit stays, exactly once, and is what the
  // next reader sees.
  lemma RefusedCheckpointKeepsTheWrite(c: Conn, wasInTxn: bool, r: Result<ExecOutcome, SqlError>, mode: CheckpointMode, f: Flush)
    requires Sqlite.Valid(c) && Conclude(c, wasInTxn, r, mode, f).1.Err?
    ensures var d := Conclude(c, wasInTxn, r, mode, f).0;
            && Sqlite.Valid(d)
            && d.store.committed == c.store.committed
            && Visible(d.store) == Visible(c.store) == Overlay(c.store.committed)
  {
    ConcludeSpec(c, wasInTxn, r, mode, f);
    VisibleIsCommitted(c.store);
  }

  // The next TRUNCATE checkpoint that completes makes all of it durable, still once.
  lemma NextCheckpointMakesItDurable(d: Conn, retry: Flush)
    requires Sqlite.Valid(d) && retry.Row? && retry.busy == 0
    ensures var e := RunCheckpoint(d, TRUNCATE, retry).0;
            && Sqlite.Valid(e)
            && e.store.committed == DurableHistory(e.store) == d.store.committed
            && e.store.durable == Visible(d.store)
  {
    InternalCheckpointAllowed(TRUNCATE);
    CheckpointSpec(d, TRUNCATE, retry);
    VisibleIsCommitted(d.store);
  }

  // An unbindable parameter, a statement that cannot be prepared, the wrong number of
  // parameters, a statement that cannot be stepped, a client checkpoint that fails, or rows
  // that fault or overflow.
  predicate StatementFails(c: Conn, req: Request, a: Attempt, cap: Option<nat>) {
    || (exists i :: 0 <= i < |req.params| && !Bindable(req.params[i]))
    || req.sql.Invalid? || !Permitted(req.sql.actions) || |req.params| != req.sql.placeholders
    || !Runnable(c.txn, req.sql.stmt)
    || (req.sql.stmt.WalCheckpoint? && a.flush.Fails?) || !Fits(a.cursor, cap)
  }

  // Exactly when `run_exec` answers an error.
  lemma StatementFailsExactly(c: Conn, req: Request, a: Attempt, cap: Option<nat>)
    requires Bounded(c.store)
    ensures Execute(c, req, a, cap).1.Err? <==> StatementFails(c, req, a, cap)
  {
  }

  // A commit whose gate opens is one whose rows all arrived and fit.
  lemma CommitGatedExactly(c: Conn, req: Request, a: Attempt, cap: Option<nat>)
    requires Sqlite.Valid(c)
    requires Execute(c, req, a, cap).0.store.committed != c.store.committed
    ensures var (d, r) := Execute(c, req, a, cap);
            && (r.Ok? <==> Fits(a.cursor, cap))
            && (r.Ok? ==> NeedsCheckpoint(d, c.txn.Open?, r.value.readonly))
  {
    StatementFailsExactly(c, req, a, cap);
    var s := req.sql.stmt;
    assert Runnable(c.txn, s);
    if s.WalCheckpoint? {
      CheckpointSpec(c, s.arg, a.flush);
    }
    if Execute(c, req, a, cap).1.Ok? {
      GateExact(c, req, a, cap);
    }
  }

  // The connection when the request reaches the gate.
  function AtGate(c: Conn, req: Request, settings: DbSettings, o: Oracle): (d: Conn)
    requires Bounded(c.store)
    ensures Bounded(d.store)
  {
    ExecuteBounded(Arm(c, settings, o.now), req, o.attempt, settings.maxRows);
    Background(ExecuteTimed(c, req, o.attempt, settings, o.now).0, o.after)
  }

  lemma TimedCommitGatedExactly(c: Conn, req: Request, a: Attempt, settings: DbSettings, now: int)
    requires Sqlite.Valid(c)
    requires ExecuteTimed(c, req, a, settings, now).0.store.committed != c.store.committed
    ensures var (d, r) := ExecuteTimed(c, req, a, settings, now);
            && (r.Ok? <==> Fits(a.cursor, settings.maxRows))
            && (r.Ok? ==> NeedsCheckpoint(d, c.txn.Open?, r.value.readonly))
  {
    CommitGatedExactly(Arm(c, settings, now), req, a, settings.maxRows);
  }

  lemma ConcludeFlushes(c: Conn, wasInTxn: bool, r: Result<ExecOutcome, SqlError>, mode: CheckpointMode, f: Flush)
    requires Bounded(c.store) && mode.Arg().Some?
    requires r.Ok? ==> NeedsCheckpoint(c, wasInTxn, r.value.readonly)
    ensures var (d, ans) := Conclude(c, wasInTxn, r, mode, f);
            if r.Ok? then d == RunCheckpoint(c, mode.Arg().value, f).0 && (ans.Err? ==> ans.error.Checkpoint?)
            else d == c && ans.Err? && ans.error.Sql?
  {
  }

  // The documentation promises the flush for every call that leaves durable work in the
  // WAL. A call that committed is flushed if and only if its whole result arrived and fits
  // under the row cap; otherwise the caller gets an SQL error and the commit waits in the
  // WAL, however well a checkpoint would have gone.
  lemma FlushedExactlyWhenRowsFit(c: Conn, req: Request, settings: DbSettings, mode: CheckpointMode, o: Oracle)
    requires Sqlite.Valid(c) && mode.Arg().Some?
    requires AtGate(c, req, settings, o).store.committed != c.store.committed
    ensures var (d, ans) := Serve(c, req, settings, mode, o);
            var gate := AtGate(c, req, settings, o);
            if Fits(o.attempt.cursor, settings.maxRows)
            then d == RunCheckpoint(gate, mode.Arg().value, o.flush).0 && (ans.Err? ==> ans.error.Checkpoint?)
            else d == gate && ans.Err? && ans.error.Sql?
  {
    TimedCommitGatedExactly(c, req, o.attempt, settings, o.now);
    var r := ExecuteTimed(c, req, o.attempt, settings, o.now).1;
    ConcludeFlushes(AtGate(c, req, settings, o), c.txn.Open?, r, mode, o.flush);
  }

  // ---------------------------------------------------------------- reads and counters

  // What a statement reads: the committed pages, under the open transaction's own writes.
  function View(c: Conn): Pages {
    if c.txn.Auto? then Visible(c.store) else Visible(c.store) + c.txn.pending
  }

  // A read's result, as a function of its rows only.
  function ReadResult(req: Request, cursor: ResultSet, cap: Option<nat>): Result<ExecOutcome, SqlError>
    requires req.sql.Compiled?
  {
    match BindAll(req.params)
    case Err(v) => Err(BindFailed(v))
    case Ok(_) =>
      if !Permitted(req.sql.actions) then Err(PrepareFailed)
      else if |req.params| != req.sql.placeholders then Err(ExecuteFailed)
      else
        match Materialize(cursor, cap, req.format)
        case Ok(rows) => Ok(ExecOutcome(cursor.columns, rows, 0, 0, true))
        case Err(RowCap(n)) => Err(RowCapExceeded(n))
        case Err(Fetch(interrupt)) => Err(FetchFailed(interrupt))
  }

  function ReadAnswer(req: Request, cursor: ResultSet, settings: DbSettings): Answer
    requires req.sql.Compiled?
  {
    match TimeoutShaped(ReadResult(req, cursor, settings.maxRows), settings)
    case Err(e) => Err(Sql(e))
    case Ok(out) => Ok(out)
  }

  // A read's answer is a function of its rows, with zero counters.
  lemma ReadServed(c: Conn, req: Request, settings: DbSettings, mode: CheckpointMode, o: Oracle)
    requires Bounded(c.store) && req.sql.Compiled? && req.sql.stmt.Query?
    ensures var ans := Serve(c, req, settings, mode, o).1;
            && ans == ReadAnswer(req, o.attempt.cursor, settings)
            && (ans.Ok? ==> ans.value.rowcount == 0 && ans.value.lastrowid == 0)
  {
  }

  // What a read's rows may depend on: the pages it sees and the connection's counters,
  // which it can ask for (`SELECT last_insert_rowid()`).
  type Reading = (Pages, Counters) -> ResultSet

  // The answer does not show the counters.
  ghost predicate IgnoresCounters(req: Request, query: Reading, settings: DbSettings)
    requires req.sql.Compiled?
  {
    forall v, m, n :: ReadAnswer(req, query(v, m), settings) == ReadAnswer(req, query(v, n), settings)
  }

  // On this connection the statement yields the rows of `query`.
  predicate Yields(c: Conn, query: Reading, cursor: ResultSet) {
    cursor == query(View(c), c.counters)
  }

  ghost predicate ServedAlike(c: Conn, d: Conn, req: Request, settings: DbSettings, mode: CheckpointMode, o: Oracle, p: Oracle)
    requires Bounded(c.store) && Bounded(d.store)
  {
    Serve(c, req, settings, mode, o).1 == Serve(d, req, settings, mode, p).1
  }

  // A fresh connection on a database of these pages.
  function Showing(v: Pages, n: Counters): Conn {
    Conn(Config(Wal, map[], {}), Store(v, [], 0, if v == map[] then [] else [v]), Auto, n, None)
  }

  function ReadOracle(cursor: ResultSet): Oracle {
    Oracle(0, Attempt(map[], 0, None, 0, cursor, Flush.Fails(0), Fate(Untouched, Counters(0, 0, 0)), Config(Wal, map[], {})), 0, Flush.Fails(0))
  }

  lemma ShowingSpec(v: Pages, n: Counters)
    ensures Sqlite.Valid(Showing(v, n)) && View(Showing(v, n)) == v
  {
    var s := Showing(v, n).store;
    if v != map[] {
      assert DurableHistory(s) == [v];
      assert Overlay([v]) == Overlay([]) + v;
    }
    assert v + map[] == v;
  }

  // History independence of reads, exactly: connections with any past whose databases show
  // a read the same pages answer it alike, in all cases, if and only if its answer does not
  // show the connection's counters.
  lemma ReadsAreHistoryIndependent(req: Request, query: Reading, settings: DbSettings, mode: CheckpointMode)
    requires req.sql.Compiled? && req.sql.stmt.Query?
    ensures IgnoresCounters(req, query, settings) <==>
            forall c: Conn, d: Conn, o: Oracle, p: Oracle ::
              Sqlite.Valid(c) && Sqlite.Valid(d) && View(c) == View(d)
              && Yields(c, query, o.attempt.cursor) && Yields(d, query, p.attempt.cursor)
              ==> ServedAlike(c, d, req, settings, mode, o, p)
  {
    if IgnoresCounters(req, query, settings) {
      forall c: Conn, d: Conn, o: Oracle, p: Oracle
        | Sqlite.Valid(c) && Sqlite.Valid(d) && View(c) == View(d)
          && Yields(c, query, o.attempt.cursor) && Yields(d, query, p.attempt.cursor)
        ensures ServedAlike(c, d, req, settings, mode, o, p)
      {
        ReadServed(c, req, settings, mode, o);
        ReadServed(d, req, settings, mode, p);
      }
    } else {
      var v, m, n :| ReadAnswer(req, query(v, m), settings) != ReadAnswer(req, query(v, n), settings);
      var c, d, o, p := Showing(v, m), Showing(v, n), ReadOracle(query(v, m)), ReadOracle(query(v, n));
      ShowingSpec(v, m);
      ShowingSpec(v, n);
      ReadServed(c, req, settings, mode, o);
      ReadServed(d, req, settings, mode, p);
      assert !ServedAlike(c, d, req, settings, mode, o, p);
    }
  }

  lemma ReportedCounters(c: Conn, req: Request, a: Attempt, cap: Option<nat>)
    requires Bounded(c.store) && Execute(c, req, a, cap).1.Ok?
    ensures var (d, r) := Execute(c, req, a, cap);
            && r.value.rowcount == (if Readonly(req.sql.stmt) then 0 else Saturate(d.counters.changes))
            && r.value.lastrowid == (if Readonly(req.sql.stmt) then 0 else d.counters.lastRowid)
  {
  }

  lemma StatementCounters(c: Conn, s: Stmt, a: Attempt)
    requires Bounded(c.store) && Runnable(c.txn, s)
    ensures var d := Perform(c, s, a);
            if s.Dml? then d.counters == Counters(a.changed, if a.inserted.Some? then a.inserted.value else c.counters.lastRowid, a.total)
            else d.counters == c.counters
  {
  }

  // `ExecOutcome` documents the rows changed by the statement, 0 for DDL. A write reports
  // its own row count (saturating), and the row id of the latest insert, its own or not.
  // Only writes move the connection's counters, so any other statement reports 0 exactly
  // when it is read-only or the counter already was 0: DDL, BEGIN IMMEDIATE and client
  // checkpoints repeat an earlier request's counts.
  lemma CountsExactly(c: Conn, req: Request, a: Attempt, cap: Option<nat>)
    requires Sqlite.Valid(c) && Execute(c, req, a, cap).1.Ok?
    ensures var out := Execute(c, req, a, cap).1.value;
            if req.sql.stmt.Dml? then
              && (out.rowcount == a.changed || (a.changed > I64_MAX && out.rowcount == I64_MAX))
              && out.lastrowid == (if a.inserted.Some? then a.inserted.value else c.counters.lastRowid)
            else
              && (out.rowcount == 0 <==> Readonly(req.sql.stmt) || c.counters.changes == 0)
              && (out.lastrowid == 0 <==> Readonly(req.sql.stmt) || c.counters.lastRowid == 0)
              && (!Readonly(req.sql.stmt) ==> out.rowcount == Saturate(c.counters.changes) && out.lastrowid == c.counters.lastRowid)
  {
    OkMeansPerformed(c, req, a, cap);
    ReportedCounters(c, req, a, cap);
    StatementCounters(c, req.sql.stmt, a);
  }
}
