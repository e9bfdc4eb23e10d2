/** Inputs on which the code does not do what its documentation says. The exact conditions
    are `Durable.CountsExactly`, `Durable.ReadsAreHistoryIndependent` and
    `Durable.FlushedExactlyWhenRowsFit`. */
module Discrepancies {
  import opened Prelude
  import opened Values
  import opened Rows
  import opened Storage
  import opened Sqlite
  import opened Policy
  import opened Durable
  import opened Machine
  import opened CrashSafety

  const TWO_ROWS: Attempt := ONE_ROW.(changed := 2, inserted := Some(2))

  // After an INSERT of two rows, a successful CREATE TABLE, BEGIN IMMEDIATE or
  // wal_checkpoint reports a row count of 2.
  lemma OthersReportTheInsert(s: Stmt)
    requires s == Ddl || s == Begin(true) || s == Stmt.WalCheckpoint(PASSIVE)
    ensures var (c, inserted) := Execute(EMPTY, INSERT, TWO_ROWS, None);
            var next := ONE_ROW.(flush := Row(0, 1, 0, 0));
            && inserted.Ok? && inserted.value.rowcount == 2
            && Bounded(c.store)
            && Execute(c, Request(Compiled(s, [], 0), [], Objects), next, None).1.Ok?
            && Execute(c, Request(Compiled(s, [], 0), [], Objects), next, None).1.value.rowcount == 2
  {
  }

  // SELECT last_insert_rowid()
  const LAST_ROWID: Request := Request(Compiled(Query, [], 0), [], Arrays)

  function LastRowid(v: Pages, n: Counters): ResultSet {
    Cursor(["last_insert_rowid()"], [[Integer(n.lastRowid)]], Exhausted)
  }

  // The container once that INSERT is flushed, and the one started after it.
  const FLUSHED: Conn := EMPTY.(store := Store(map[1 := 7], [], 0, [map[1 := 7]]), counters := Counters(1, 1, 1))
  const RESTARTED: Conn := EMPTY.(store := Store(map[1 := 7], [], 0, [map[1 := 7]]))

  lemma InsertFlushed()
    ensures var (c, ans) := Serve(EMPTY, INSERT, DbSettings(None, None), Truncate, QUIET);
            c == FLUSHED && ans.Ok?
  {
    InsertCommits();
    var d := Execute(EMPTY, INSERT, ONE_ROW, None).0;
    assert CopyBatches(map[], d.store.wal, 0, 1) == CopyBatches(map[], d.store.wal, 0, 0) + map[1 := 7];
    InternalCheckpointAllowed(TRUNCATE);
  }

  lemma RowidRead(c: Conn, settings: DbSettings, mode: CheckpointMode)
    requires Bounded(c.store) && settings.maxRows == None
    ensures Serve(c, LAST_ROWID, settings, mode, ReadOracle(LastRowid(View(c), c.counters))).1 ==
            Ok(ExecOutcome(["last_insert_rowid()"], [Arr([Int(c.counters.lastRowid)])], 0, 0, true))
  {
    var o := ReadOracle(LastRowid(View(c), c.counters));
    ReadServed(c, LAST_ROWID, settings, mode, o);
    assert ArrayRow([Integer(c.counters.lastRowid)]) == [Int(c.counters.lastRowid)];
    var row := EncodeRow(["last_insert_rowid()"], [Integer(c.counters.lastRowid)], Arrays);
    assert Materialize(o.attempt.cursor, None, Arrays).value == [row];
  }

  lemma SamePages()
    ensures Sqlite.Valid(FLUSHED) && ColdStart(FLUSHED) == RESTARTED
    ensures View(FLUSHED) == View(RESTARTED) && Bounded(RESTARTED.store)
  {
    assert FLUSHED.store.committed[..1] == [map[1 := 7]];
    assert Overlay([map[1 := 7]]) == Overlay([]) + map[1 := 7];
  }

  // The container that served the INSERT of row 1 and the one started after it show the
  // same pages, and answer this read with 1 and with 0.
  lemma ColdStartForgetsRowid(settings: DbSettings, mode: CheckpointMode)
    requires settings.maxRows == None
    ensures Serve(EMPTY, INSERT, DbSettings(None, None), Truncate, QUIET).0 == FLUSHED
    ensures Sqlite.Valid(FLUSHED) && ColdStart(FLUSHED) == RESTARTED && View(FLUSHED) == View(RESTARTED)
    ensures !ServedAlike(FLUSHED, RESTARTED, LAST_ROWID, settings, mode, ReadOracle(LastRowid(View(FLUSHED), FLUSHED.counters)),
                         ReadOracle(LastRowid(View(RESTARTED), RESTARTED.counters)))
  {
    InsertFlushed();
    SamePages();
    RowidRead(FLUSHED, settings, mode);
    RowidRead(RESTARTED, settings, mode);
    assert [Int(1)][0] != [Int(0)][0];
  }

  // INSERT ... RETURNING two rows under a cap of one; SQLite keeps the rows it inserted.
  const RETURNING: Attempt :=
    Attempt(map[1 := 7], 2, Some(2), 2, Cursor(["id"], [[Integer(1)], [Integer(2)]], Exhausted), Row(0, 0, 0, 0), Fate(Applied, Counters(2, 2, 2)), EMPTY.config)

  // The caller gets a 400 from a TRUNCATE-mode server, and the commit is in the WAL only.
  lemma CappedReturningCommitsWithoutFlush()
    ensures var (c, ans) := Serve(EMPTY, INSERT, DbSettings(Some(1), None), Truncate, Oracle(0, RETURNING, 0, Row(0, 0, 0, 0)));
            && ans == Err(ExecError.Sql(RowCapExceeded(1)))
            && Bounded(c.store)
            && c.store.committed == [map[1 := 7]] && DurableHistory(c.store) == []
  {
    assert BindAll([]) == Ok([]);
    assert 1 in RETURNING.writes;
    var armed := Arm(EMPTY, DbSettings(Some(1), None), 0);
    var d := Execute(armed, INSERT, RETURNING, Some(1)).0;
    assert d.store == Store(map[], [map[1 := 7]], 0, [map[1 := 7]]);
  }
}
