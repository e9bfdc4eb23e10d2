/** The SQLite connection as rustyhip uses it: transaction state, statement effects,
    counters, configuration and checkpoints. This is the environment's contract;
    every choice SQLite or its caller's data makes is an argument. */
module Sqlite {
  import opened Prelude
  import opened Ascii
  import opened Values
  import opened Rows
  import opened Storage

  datatype JournalMode = Wal | RollbackJournal

  datatype CheckpointArg = TRUNCATE | RESTART | FULL | PASSIVE

  // What the authorizer is asked about while a statement is prepared.
  datatype AuthAction =
    | Attach(file: string)
    | Detach(file: string)
    | Pragma(name: string, value: Option<string>)
    | Other

  datatype Stmt =
    | Query
    | Dml
    | Ddl
    | Begin(immediate: bool)
    | Commit
    | Rollback
    | Savepoint(name: string)
    | Release(name: string)
    | RollbackTo(name: string)
    | WalCheckpoint(arg: CheckpointArg)

  // `placeholders` is the number of parameters the statement takes.
  datatype Sql = Invalid | Compiled(stmt: Stmt, actions: seq<AuthAction>, placeholders: nat)

  datatype Save = Save(name: string, pending: Pages)

  // `explicit` is false for a transaction opened by an outermost SAVEPOINT.
  datatype Txn = Auto | Open(pending: Pages, explicit: bool, saves: seq<Save>)

  datatype Config = Config(journal: JournalMode, settings: map<string, string>, attached: set<string>)

  // The connection-scoped counters, as SQL functions of these names report them:
  // changes(), last_insert_rowid() and total_changes().
  datatype Counters = Counters(changes: nat, lastRowid: I64, total: nat)

  // `deadline` is the
  // progress handler, if one is installed.
  datatype Conn = Conn(config: Config, store: Store, txn: Txn, counters: Counters, deadline: Option<int>)

  // The result row of a checkpoint, or its failure; `reach` is how far it copied.
  datatype Flush = Fails(reach: nat) | Row(busy: I64, log: I64, checkpointed: I64, reach: nat)
  datatype CheckpointStats = CheckpointStats(busy: I64, log: I64, checkpointed: I64)

  // What a statement that ended in an error left behind.
  datatype Effect = Untouched | Applied | RolledBack
  datatype Fate = Fate(effect: Effect, counters: Counters)

  type ResultSet = c: Cursor | WellFormed(c) witness Cursor([], [], Exhausted)

  // `total` is what total_changes() becomes: triggers count there too. `left` is the configuration the statement leaves behind if it is one that may change it.
  datatype Attempt = Attempt(writes: Pages, changed: nat, inserted: Option<I64>, total: nat, cursor: ResultSet, flush: Flush, fate: Fate, left: Config)

  ghost predicate ValidTxn(t: Txn) {
    t.Open? && !t.explicit ==> |t.saves| > 0
  }

  ghost predicate Valid(c: Conn) {
    && Storage.Valid(c.store)
    && ValidTxn(c.txn)
    && (c.config.journal.RollbackJournal? ==> c.store.wal == [])
  }

  // `sqlite3_stmt_readonly`: transaction control is read-only, except BEGIN IMMEDIATE.
  predicate Readonly(s: Stmt) {
    !s.Dml? && !s.Ddl? && !s.WalCheckpoint? && !(s.Begin? && s.immediate)
  }

  // SQLite compares savepoint names without regard to ASCII case.
  predicate HasSave(saves: seq<Save>, name: string) {
    exists i :: 0 <= i < |saves| && EqIgnoreCase(saves[i].name, name)
  }

  // The most recent savepoint of that name.
  function LastSave(saves: seq<Save>, name: string): (i: nat)
    requires HasSave(saves, name)
    ensures i < |saves| && EqIgnoreCase(saves[i].name, name)
    ensures forall j :: i < j < |saves| ==> !EqIgnoreCase(saves[j].name, name)
  {
    var n := |saves| - 1;
    if EqIgnoreCase(saves[n].name, name) then n else LastSave(saves[..n], name)
  }

  // Statements SQLite refuses to step in this transaction state.
  predicate Runnable(t: Txn, s: Stmt) {
    match s
    case Begin(_) => t.Auto?
    case Commit => t.Open?
    case Rollback => t.Open?
    case Release(name) => t.Open? && HasSave(t.saves, name)
    case RollbackTo(name) => t.Open? && HasSave(t.saves, name)
    case WalCheckpoint(_) => t.Auto?
    case _ => true
  }

  // Does this statement end the transaction it runs in?
  predicate Closes(t: Txn, s: Stmt)
    requires Runnable(t, s)
  {
    t.Open? &&
    (s.Commit? || s.Rollback? || (s.Release? && !t.explicit && LastSave(t.saves, s.name) == 0))
  }

  function CommitBatch(c: Conn, batch: Pages): Conn {
    c.(store := if c.config.journal.Wal? then CommitToWal(c.store, batch) else CommitToMain(c.store, batch))
  }

  function Write(c: Conn, writes: Pages): Conn {
    if c.txn.Auto? then CommitBatch(c, writes) else c.(txn := c.txn.(pending := c.txn.pending + writes))
  }

  function Perform(c: Conn, s: Stmt, a: Attempt): Conn
    requires Runnable(c.txn, s) && Bounded(c.store)
  {
    match s
    case Query => c
    case Dml => Write(c, a.writes).(counters := Counters(a.changed, if a.inserted.Some? then a.inserted.value else c.counters.lastRowid, a.total))
    case Ddl => Write(c, a.writes)
    case Begin(_) => c.(txn := Open(map[], true, []))
    case Commit => CommitBatch(c, c.txn.pending).(txn := Auto)
    case Rollback => c.(txn := Auto)
    case Savepoint(name) =>
      if c.txn.Auto? then c.(txn := Open(map[], false, [Save(name, map[])]))
      else c.(txn := c.txn.(saves := c.txn.saves + [Save(name, c.txn.pending)]))
    case Release(name) =>
      if Closes(c.txn, s) then CommitBatch(c, c.txn.pending).(txn := Auto)
      else c.(txn := c.txn.(saves := c.txn.saves[..LastSave(c.txn.saves, name)]))
    case RollbackTo(name) =>
      var i := LastSave(c.txn.saves, name);
      c.(txn := c.txn.(pending := c.txn.saves[i].pending, saves := c.txn.saves[..i + 1]))
    case WalCheckpoint(arg) => Checkpoint(c, arg, a.flush).0
  }

  // TRUNCATE answering busy = 0 moved everything; no other answer promises more than a
  // prefix. Outside WAL mode the row is (0, -1, -1).
  function Checkpoint(c: Conn, arg: CheckpointArg, f: Flush): (Conn, Result<CheckpointStats, ()>)
    requires Bounded(c.store)
  {
    if f.Fails? then (Background(c, f.reach), Err(()))
    else if c.config.journal.RollbackJournal? then (c, Ok(CheckpointStats(0, -1, -1)))
    else if f.busy == 0 && arg.TRUNCATE? then
      (c.(store := TruncateWal(c.store)), Ok(CheckpointStats(0, f.log, f.checkpointed)))
    else (Background(c, f.reach), Ok(CheckpointStats(f.busy, f.log, f.checkpointed)))
  }

  // SQLite's automatic checkpoint, or anything else that copies committed frames.
  function Background(c: Conn, reach: nat): Conn
    requires Bounded(c.store)
  {
    c.(store := Backfill(c.store, reach))
  }

  // The pragmas whose argument names a table, an index, a budget or a checkpoint mode.
  const WITHOUT_SETTING: seq<string> :=
    ["foreign_key_check", "foreign_key_list", "incremental_vacuum", "index_info", "index_list", "index_xinfo", "integrity_check",
     "optimize", "quick_check", "table_info", "table_list", "table_xinfo", "wal_checkpoint"]

  // Only ATTACH, DETACH and the value form of a pragma that is a setting may change the
  // configuration. SQLite folds the case of pragma names.
  predicate MayReconfigure(action: AuthAction) {
    match action
    case Attach(_) => true
    case Detach(_) => true
    case Pragma(name, value) => value.Some? && Lower(name) !in WITHOUT_SETTING
    case Other => false
  }

  // What such a statement makes of the configuration is the environment's choice.
  function Configure(g: Config, actions: seq<AuthAction>, left: Config): Config {
    if exists i :: 0 <= i < |actions| && MayReconfigure(actions[i]) then left else g
  }

  lemma CommitBatchSpec(c: Conn, batch: Pages)
    requires Storage.Valid(c.store) && (c.config.journal.RollbackJournal? ==> c.store.wal == [])
    ensures var d := CommitBatch(c, batch);
            && Storage.Valid(d.store) && (d.config.journal.RollbackJournal? ==> d.store.wal == [])
            && d.store.committed == c.store.committed + (if batch == map[] then [] else [batch])
            && DurableHistory(c.store) <= DurableHistory(d.store)
  {
    if c.config.journal.Wal? {
      CommitToWalValid(c.store, batch);
    } else {
      CommitToMainValid(c.store, batch);
    }
  }

  lemma CheckpointSpec(c: Conn, arg: CheckpointArg, f: Flush)
    requires Valid(c)
    ensures var (d, r) := Checkpoint(c, arg, f);
            && Valid(d) && d == c.(store := d.store)
            && d.store.committed == c.store.committed
            && Visible(d.store) == Visible(c.store)
            && DurableHistory(c.store) <= DurableHistory(d.store)
            && (r.Ok? && r.value.busy == 0 && (arg.TRUNCATE? || c.config.journal.RollbackJournal?)
                ==> DurableHistory(d.store) == d.store.committed)
  {
    var d := Checkpoint(c, arg, f).0;
    BackfillValid(c.store, f.reach);
    TruncateValid(c.store);
    VisibleIsCommitted(c.store);
    VisibleIsCommitted(d.store);
  }

  lemma BackgroundSpec(c: Conn, reach: nat)
    requires Valid(c)
    ensures var d := Background(c, reach);
            && Valid(d) && d.store.committed == c.store.committed
            && d.store.wal == c.store.wal && d.store.backfilled == Clamp(reach, c.store.backfilled, |c.store.wal|)
            && Visible(d.store) == Visible(c.store)
            && DurableHistory(c.store) <= DurableHistory(d.store)
  {
    BackfillValid(c.store, reach);
    VisibleIsCommitted(c.store);
    VisibleIsCommitted(Background(c, reach).store);
  }

  // What a statement would commit if it commits: its own writes, or its transaction's.
  function Batch(c: Conn, a: Attempt): Pages {
    if c.txn.Auto? then a.writes else c.txn.pending
  }

  lemma PerformBounded(c: Conn, s: Stmt, a: Attempt)
    requires Runnable(c.txn, s) && Bounded(c.store)
    ensures Bounded(Perform(c, s, a).store)
  {
  }

  // How each statement kind moves the transaction, and which kinds may commit.
  lemma PerformTxn(c: Conn, s: Stmt, a: Attempt)
    requires Runnable(c.txn, s) && Bounded(c.store) && ValidTxn(c.txn)
    ensures var d := Perform(c, s, a);
            && ValidTxn(d.txn) && d.config == c.config && d.deadline == c.deadline
            && (c.txn.Open? ==> (d.txn.Auto? <==> Closes(c.txn, s)))
            && (c.txn.Auto? ==> (d.txn.Open? <==> s.Begin? || s.Savepoint?))
            && d.store == (if s.WalCheckpoint? then Checkpoint(c, s.arg, a.flush).0.store
                           else if MayCommit(c.txn, s) then CommitBatch(c, Batch(c, a)).store
                           else c.store)
  {
  }

  predicate MayCommit(t: Txn, s: Stmt)
    requires Runnable(t, s)
  {
    if t.Auto? then s.Dml? || s.Ddl? else (s.Commit? || s.Release?) && Closes(t, s)
  }

  // The whole effect of one statement on the committed history.
  lemma PerformSpec(c: Conn, s: Stmt, a: Attempt)
    requires Valid(c) && Runnable(c.txn, s)
    ensures var d := Perform(c, s, a);
            && Valid(d) && d.config == c.config && d.deadline == c.deadline
            && (d.store.committed == c.store.committed || d.store.committed == c.store.committed + [Batch(c, a)])
            && (d.store.committed != c.store.committed ==> MayCommit(c.txn, s) && d.txn.Auto?)
            && DurableHistory(c.store) <= DurableHistory(d.store)
            && (c.txn.Open? ==> (d.txn.Auto? <==> Closes(c.txn, s)))
            && (c.txn.Auto? ==> (d.txn.Open? <==> s.Begin? || s.Savepoint?))
  {
    PerformTxn(c, s, a);
    if s.WalCheckpoint? {
      CheckpointSpec(c, s.arg, a.flush);
    } else {
      CommitBatchSpec(c, Batch(c, a));
    }
  }
}
