/** From answers to durability: a request answered Ok that committed something is
    acknowledged, and its batch is recovered after any later history. */
module Acknowledged {
  import opened Prelude
  import opened Storage
  import opened Sqlite
  import opened Durable
  import opened Machine
  import opened CrashSafety
  import opened Linearizability

  // The deadline is no part of the stored data.
  lemma DeadlineIsExtra(c: Conn, d: Conn)
    requires Sqlite.Valid(c) && d == c.(deadline := d.deadline)
    ensures Sqlite.Valid(d)
  {
  }

  lemma AfterRunValid(cfg: Cfg, c: Conn, job: Job)
    requires Sqlite.Valid(c)
    ensures Sqlite.Valid(AfterRun(cfg, c, job))
  {
    var armed := Arm(c, cfg.settings, job.o.now);
    DeadlineIsExtra(c, armed);
    ExecuteSpec(armed, job.req, job.o.attempt, cfg.settings.maxRows);
    BackgroundSpec(Executed(cfg, c, job).0, job.o.after);
  }

  lemma PartialValid(cfg: Cfg, c: Conn, job: Job)
    requires Sqlite.Valid(c)
    ensures Sqlite.Valid(Partial(cfg, c, job))
  {
    match job.pc {
      case Locked =>
      case Sampled(_) =>
      case Armed(_) => DeadlineIsExtra(c, Partial(cfg, c, job));
      case Ran(_, _) => AfterRunValid(cfg, c, job);
      case Cleared(_, _) => ClearedValid(cfg, c, job);
    }
  }

  lemma ClearedValid(cfg: Cfg, c: Conn, job: Job)
    requires Sqlite.Valid(c)
    ensures Sqlite.Valid(Disarm(AfterRun(cfg, c, job), cfg.settings))
  {
    AfterRunValid(cfg, c, job);
    DeadlineIsExtra(AfterRun(cfg, c, job), Disarm(AfterRun(cfg, c, job), cfg.settings));
  }

  lemma ServeValid(c: Conn, req: Request, settings: DbSettings, mode: CheckpointMode, o: Oracle)
    requires Sqlite.Valid(c)
    ensures Sqlite.Valid(Serve(c, req, settings, mode, o).0)
  {
    TimedSpec(c, req, o.attempt, settings, o.now);
    var (d, r) := ExecuteTimed(c, req, o.attempt, settings, o.now);
    BackgroundSpec(d, o.after);
    ConcludeSpec(Background(d, o.after), c.txn.Open?, r, mode, o.flush);
  }

  lemma SeqStepValid(cfg: Cfg, s: Seq, op: Op)
    requires Sqlite.Valid(s.conn)
    ensures Sqlite.Valid(SeqStep(cfg, s, op).conn)
  {
    match op {
      case Served(t, req, o) => ServeValid(s.conn, req, cfg.settings, cfg.mode, o);
      case Refused(t) =>
      case Panicked(t, job) => PartialValid(cfg, s.conn, job);
      case Lost(t, job) => PartialValid(cfg, s.conn, job);
      case Copied(reach) => BackgroundSpec(s.conn, reach);
      case Restarted => ColdStartSpec(s.conn);
    }
  }

  lemma {:induction false} SeqRunValid(cfg: Cfg, s: Seq, ops: seq<Op>)
    requires Sqlite.Valid(s.conn)
    ensures Sqlite.Valid(SeqRun(cfg, s, ops).conn)
  {
    if ops != [] {
      SeqRunValid(cfg, s, ops[..|ops| - 1]);
      SeqStepValid(cfg, SeqRun(cfg, s, ops[..|ops| - 1]), ops[|ops| - 1]);
    }
  }

  // What the request had committed when it reached the gate, and that the gate opens.
  lemma GateAtFinish(cfg: Cfg, c: Conn, job: Job, flush: Flush)
    requires Sqlite.Valid(c) && job.pc.Cleared? && LocalsOk(cfg, c, job)
    ensures var d := Partial(cfg, c, job);
            var (e, ans) := (PartialBounded(cfg, c, job); Conclude(d, job.pc.wasInTxn, job.pc.r, cfg.mode, flush));
            && e.store.committed == d.store.committed
            && (d.store.committed == c.store.committed || d.store.committed == c.store.committed + [Batch(c, job.o.attempt)])
            && (ans.Ok? && d.store.committed != c.store.committed ==> NeedsCheckpoint(d, job.pc.wasInTxn, ans.value.readonly))
  {
    TimedSpec(c, job.req, job.o.attempt, cfg.settings, job.o.now);
    var x := ExecuteTimed(c, job.req, job.o.attempt, cfg.settings, job.o.now).0;
    BackgroundSpec(x, job.o.after);
    ClearBackground(Executed(cfg, c, job).0, cfg.settings, job.o.after);
    ConcludeSpec(Background(x, job.o.after), job.pc.wasInTxn, job.pc.r, cfg.mode, flush);
  }

  lemma FinishAcknowledges(cfg: Cfg, w: World, s: Seq, t: nat, flush: Flush)
    requires Sim(cfg, w, s) && Sqlite.Valid(s.conn) && Holds(w, t) && w.threads[t].job.pc.Cleared?
    ensures var v := DoFinish(cfg, w, t, flush);
            && v.threads[t].Answered?
            && (v.threads[t].ans.Ok? && v.conn.store.committed != s.conn.store.committed ==>
                  t in v.acks && v.acks[t] == s.conn.store.committed + [Batch(s.conn, w.threads[t].job.o.attempt)])
  {
    GateAtFinish(cfg, s.conn, w.threads[t].job, flush);
  }

  lemma SimOfRun(cfg: Cfg, c: Conn, es: seq<Event>)
    requires Sqlite.Valid(c)
    ensures var w := Run(cfg, Start(c), es);
            var s := Spec(cfg, c, w);
            Sim(cfg, w, s) && Sqlite.Valid(s.conn)
  {
    RunsAreSequential(cfg, c, es);
    SeqRunValid(cfg, Seq(c, false, map[]), Run(cfg, Start(c), es).log);
  }

  lemma FinishStep(cfg: Cfg, c: Conn, es: seq<Event>, t: nat, flush: Flush)
    requires Bounded(c.store)
    requires var w := Run(cfg, Start(c), es); Holds(w, t) && w.threads[t].job.pc.Cleared?
    ensures Run(cfg, Start(c), es + [Event.Finish(t, flush)]) == DoFinish(cfg, Run(cfg, Start(c), es), t, flush)
  {
  }

  lemma FinishInRun(cfg: Cfg, c: Conn, es: seq<Event>, t: nat, flush: Flush, s: Seq, w: World, v: World)
    requires Bounded(c.store) && w == Run(cfg, Start(c), es) && v == Run(cfg, Start(c), es + [Event.Finish(t, flush)])
    requires Sim(cfg, w, s) && Holds(w, t) && w.threads[t].job.pc.Cleared? && Sqlite.Valid(s.conn)
    ensures t in v.threads && v.threads[t].Answered?
    ensures v.threads[t].ans.Ok? && v.conn.store.committed != s.conn.store.committed ==>
              t in v.acks && v.acks[t] == s.conn.store.committed + [Batch(s.conn, w.threads[t].job.o.attempt)]
  {
    FinishStep(cfg, c, es, t, flush);
    FinishAcknowledges(cfg, w, s, t, flush);
  }

  // The main theorem on answers. In any run, let request `t` finish. Measured against the
  // connection as it was when `t` took its turn: if `t` is answered Ok and committed, then
  // after any further events a cold start recovers a history that starts with everything
  // committed before `t` and has the whole batch of `t` next.
  lemma AnsweredCommitIsRecovered(cfg: Cfg, c: Conn, es: seq<Event>, t: nat, flush: Flush, after: seq<Event>)
    requires Sqlite.Valid(c) && c.deadline == None && Safe(cfg.mode, c.config.journal)
    requires var w := Run(cfg, Start(c), es); Holds(w, t) && w.threads[t].job.pc.Cleared?
    ensures var w := Run(cfg, Start(c), es);
            var turn := Spec(cfg, c, w).conn;
            var v := Run(cfg, Start(c), es + [Event.Finish(t, flush)]);
            var x := Run(cfg, Start(c), es + [Event.Finish(t, flush)] + after);
            && t in v.threads && v.threads[t].Answered?
            && (v.threads[t].ans.Ok? && v.conn.store.committed != turn.store.committed ==>
                  turn.store.committed + [Batch(turn, w.threads[t].job.o.attempt)] <= DurableHistory(x.conn.store))
  {
    SimOfRun(cfg, c, es);
    var w := Run(cfg, Start(c), es);
    FinishInRun(cfg, c, es, t, flush, Spec(cfg, c, w), w, Run(cfg, Start(c), es + [Event.Finish(t, flush)]));
    AckedCommitsSurvive(cfg, c, es + [Event.Finish(t, flush)], after);
  }
}
