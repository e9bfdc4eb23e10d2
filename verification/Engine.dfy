/** The database handle: the methods of `SqliteDb`, step by step, proved to compute the
    functions of module Durable. */
module Engine {
  import opened Prelude
  import opened Values
  import opened Rows
  import opened Storage
  import opened Sqlite
  import opened Policy
  import opened Durable

  // rusqlite's connection. Its methods are SQLite's, hence defined by the contract.
  class Connection {
    var state: Conn

    constructor (state: Conn)
      ensures this.state == state
    {
      this.state := state;
    }

    predicate IsAutocommit()
      reads this
    {
      state.txn.Auto?
    }

    // Preparing consults the authorizer for every action of the statement.
    method Prepare(sql: Sql) returns (stmt: Option<Stmt>)
      ensures stmt == if sql.Invalid? || !Permitted(sql.actions) then None else Some(sql.stmt)
    {
      if sql.Invalid? {
        return None;
      }
      var i := 0;
      while i < |sql.actions|
        invariant 0 <= i <= |sql.actions|
        invariant forall k :: 0 <= k < i ==> AuthorizeAction(sql.actions[k]) == Allow
      {
        if AuthorizeAction(sql.actions[i]) == Deny {
          return None;
        }
        i := i + 1;
      }
      return Some(sql.stmt);
    }

    method Finish(stmt: Stmt, actions: seq<AuthAction>, a: Attempt)
      requires Bounded(state.store) && Runnable(state.txn, stmt)
      modifies this
      ensures state == Complete(old(state), stmt, actions, a)
    {
      state := Complete(state, stmt, actions, a);
    }

    method Reset(stmt: Stmt, actions: seq<AuthAction>, a: Attempt)
      requires Bounded(state.store) && Runnable(state.txn, stmt)
      modifies this
      ensures state == Abort(old(state), stmt, actions, a)
    {
      state := Abort(state, stmt, actions, a);
    }

    method ProgressHandler(deadline: Option<int>)
      modifies this
      ensures state == old(state).(deadline := deadline)
    {
      state := state.(deadline := deadline);
    }

    method AutoCheckpoint(reach: nat)
      requires Bounded(state.store)
      modifies this
      ensures state == Background(old(state), reach)
    {
      state := Background(state, reach);
    }

    method WalCheckpoint(arg: CheckpointArg, f: Flush) returns (r: Result<CheckpointStats, ()>)
      requires Bounded(state.store)
      modifies this
      ensures (state, r) == Sqlite.Checkpoint(old(state), arg, f)
    {
      r := Sqlite.Checkpoint(state, arg, f).1;
      state := Sqlite.Checkpoint(state, arg, f).0;
    }
  }

  class SqliteDb {
    const conn: Connection
    const settings: DbSettings
    var poisoned: bool

    constructor (conn: Connection, settings: DbSettings)
      ensures this.conn == conn && this.settings == settings && !poisoned
    {
      this.conn := conn;
      this.settings := settings;
      poisoned := false;
    }

    method RunCheckpoint(arg: CheckpointArg, f: Flush) returns (r: Result<CheckpointStats, ()>)
      requires Bounded(conn.state.store)
      modifies conn
      ensures (conn.state, r) == Durable.RunCheckpoint(old(conn.state), arg, f)
    {
      var actions := [Pragma("wal_checkpoint", Some(ArgText(arg)))];
      var stmt := conn.Prepare(Compiled(Stmt.WalCheckpoint(arg), actions, 0));
      if stmt.None? {
        return Err(());
      }
      r := conn.WalCheckpoint(arg, f);
    }

    method RunExec(req: Request, a: Attempt) returns (r: Result<ExecOutcome, SqlError>)
      requires Bounded(conn.state.store)
      modifies conn
      ensures (conn.state, r) == Execute(old(conn.state), req, a, settings.maxRows)
    {
      var bound := BindParams(req.params);
      if bound.Err? {
        return Err(BindFailed(bound.error));
      }
      var prepared := conn.Prepare(req.sql);
      if prepared.None? {
        return Err(PrepareFailed);
      }
      var stmt := prepared.value;
      var readonly := Readonly(stmt);
      var columns := a.cursor.columns;
      if |bound.value| != req.sql.placeholders {
        return Err(ExecuteFailed);
      }
      if !Runnable(conn.state.txn, stmt) {
        return Err(FetchFailed(false));
      }
      var fetched, _ := FetchRows(Stepped(stmt, a), settings.maxRows, req.format);
      match fetched {
        case Err(RowCap(cap)) =>
          conn.Reset(stmt, req.sql.actions, a);
          return Err(RowCapExceeded(cap));
        case Err(Fetch(interrupt)) =>
          conn.Reset(stmt, req.sql.actions, a);
          return Err(FetchFailed(interrupt));
        case Ok(rows) =>
          conn.Finish(stmt, req.sql.actions, a);
          var rowcount, lastrowid: I64 := 0, 0;
          if !readonly {
            rowcount, lastrowid := Saturate(conn.state.counters.changes), conn.state.counters.lastRowid;
          }
          return Ok(ExecOutcome(columns, rows, rowcount, lastrowid, readonly));
      }
    }

    method RunExecWithSettings(req: Request, a: Attempt, now: int) returns (r: Result<ExecOutcome, SqlError>)
      requires Bounded(conn.state.store)
      modifies conn
      ensures (conn.state, r) == ExecuteTimed(old(conn.state), req, a, settings, now)
    {
      var timeoutInstalled := settings.queryTimeoutMs.Some?;
      if timeoutInstalled {
        conn.ProgressHandler(Some(now + settings.queryTimeoutMs.value));
      }
      assert conn.state == Arm(old(conn.state), settings, now);
      label Armed:
      r := RunExec(req, a);
      ghost var ran := Execute(old@Armed(conn.state), req, a, settings.maxRows);
      assert conn.state == ran.0 && r == ran.1;
      if timeoutInstalled {
        conn.ProgressHandler(None);
      }
      assert conn.state == Disarm(ran.0, settings);
      if r == Err(FetchFailed(true)) && timeoutInstalled {
        r := Err(TimedOut(settings.queryTimeoutMs.value));
      }
    }

    // One request, from taking the lock to releasing it.
    method ExecDurable(req: Request, mode: CheckpointMode, o: Oracle) returns (ans: Answer)
      requires Bounded(conn.state.store)
      modifies conn
      ensures old(poisoned) ==> conn.state == old(conn.state) && ans == Err(Internal(MutexPoisoned))
      ensures !old(poisoned) ==> (conn.state, ans) == Serve(old(conn.state), req, settings, mode, o)
    {
      if poisoned {
        return Err(Internal(MutexPoisoned));
      }
      ExecuteBounded(Arm(conn.state, settings, o.now), req, o.attempt, settings.maxRows);
      var wasInTxn := !conn.IsAutocommit();
      var r := RunExecWithSettings(req, o.attempt, o.now);
      conn.AutoCheckpoint(o.after);
      if r.Err? {
        return Err(Sql(r.error));
      }
      var outcome := r.value;
      var needsCheckpoint := conn.IsAutocommit() && (!outcome.readonly || wasInTxn);
      var arg := mode.Arg();
      if needsCheckpoint && arg.Some? {
        var stats := RunCheckpoint(arg.value, o.flush);
        if stats.Err? {
          return Err(Checkpoint(PragmaFailed));
        }
        if stats.value.busy != 0 {
          return Err(Checkpoint(Incomplete(stats.value)));
        }
      }
      return Ok(outcome);
    }
  }
}
