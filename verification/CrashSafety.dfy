/** Safety over every run of the machine: acknowledged commits survive, nothing else than
    whole commits is ever recovered, configuration is frozen, no deadline is stale. */
module CrashSafety {
  import opened Prelude
  import opened Values
  import opened Rows
  import opened Storage
  import opened Sqlite
  import opened Policy
  import opened Durable
  import opened Machine

  // ---------------------------------------------------------------- the invariant

  // The handler a statement of this request must run under.
  function OwnDeadline(cfg: Cfg, now: int): Option<int> {
    if cfg.settings.queryTimeoutMs.Some? then Some(now + cfg.settings.queryTimeoutMs.value) else None
  }

  ghost predicate DeadlineInv(cfg: Cfg, w: World) {
    && (w.lock.Free? ==> w.conn.deadline == None)
    && (w.lock.Held? ==>
          && Holds(w, w.lock.t)
          && var job := w.threads[w.lock.t].job;
             w.conn.deadline == if job.pc.Armed? || job.pc.Ran? then OwnDeadline(cfg, job.o.now) else None)
  }

  ghost predicate AckInv(cfg: Cfg, w: World)
    requires Bounded(w.conn.store)
  {
    && (forall t :: t in w.acks ==> t in w.threads && w.threads[t].Answered? && w.threads[t].ans.Ok?)
    && (Safe(cfg.mode, w.conn.config.journal) ==> AcksWithin(w.acks, DurableHistory(w.conn.store)))
  }

  ghost predicate AcksWithin(acks: map<nat, seq<Pages>>, history: seq<Pages>) {
    forall t :: t in acks ==> acks[t] <= history
  }

  // A step that leaves the acknowledgements alone only has to keep what is durable.
  lemma AckInvKept(cfg: Cfg, w: World, v: World)
    requires Bounded(w.conn.store) && Bounded(v.conn.store) && AckInv(cfg, w)
    requires v.acks == w.acks && v.conn.config == w.conn.config
    requires forall t :: t in w.threads && w.threads[t].Answered? ==> t in v.threads && v.threads[t] == w.threads[t]
    requires DurableHistory(w.conn.store) <= DurableHistory(v.conn.store)
    ensures AckInv(cfg, v)
  {
  }

  ghost predicate Inv(cfg: Cfg, g: Config, w: World) {
    && Sqlite.Valid(w.conn)
    && w.conn.config == g
    && DeadlineInv(cfg, w)
    && AckInv(cfg, w)
  }

  lemma StartInv(cfg: Cfg, c: Conn)
    requires Sqlite.Valid(c) && c.deadline == None
    ensures Inv(cfg, c.config, Start(c))
  {
  }

  lemma FinishInv(cfg: Cfg, g: Config, w: World, t: nat, flush: Flush)
    requires Inv(cfg, g, w) && Holds(w, t) && w.threads[t].job.pc.Cleared?
    ensures Inv(cfg, g, DoFinish(cfg, w, t, flush))
  {
    var job := w.threads[t].job;
    ConcludeSpec(w.conn, job.pc.wasInTxn, job.pc.r, cfg.mode, flush);
    var (c, ans) := Conclude(w.conn, job.pc.wasInTxn, job.pc.r, cfg.mode, flush);
    UnlockInv(cfg, g, w, t, c, ans, ans.Ok? && NeedsCheckpoint(w.conn, job.pc.wasInTxn, ans.value.readonly), DoFinish(cfg, w, t, flush));
  }

  lemma UnlockInv(cfg: Cfg, g: Config, w: World, t: nat, c: Conn, ans: Answer, gated: bool, v: World)
    requires Inv(cfg, g, w) && Holds(w, t)
    requires Sqlite.Valid(c) && c.config == g && c.deadline == None && DurableHistory(w.conn.store) <= DurableHistory(c.store)
    requires gated ==> ans.Ok?
    requires gated && Safe(cfg.mode, g.journal) ==> DurableHistory(c.store) == c.store.committed
    requires v == w.(conn := c, lock := Free, threads := w.threads[t := Answered(ans)],
                     acks := if gated then w.acks[t := c.store.committed] else w.acks, log := v.log)
    ensures Inv(cfg, g, v)
  {
  }

  lemma ColdStartSpec(c: Conn)
    requires Sqlite.Valid(c)
    ensures var d := ColdStart(c);
            && Sqlite.Valid(d) && d.config == c.config && d.deadline == None
            && d.store.committed == DurableHistory(c.store) == DurableHistory(d.store)
            && Visible(d.store) == c.store.durable == Overlay(DurableHistory(c.store))
  {
    CrashValid(c.store);
  }

  // The request that holds the lock moves on, with a new connection state.
  lemma AdvanceInv(cfg: Cfg, g: Config, w: World, t: nat, c: Conn, job: Job)
    requires Inv(cfg, g, w) && Holds(w, t)
    requires Sqlite.Valid(c) && c.config == g && DurableHistory(w.conn.store) <= DurableHistory(c.store)
    requires c.deadline == if job.pc.Armed? || job.pc.Ran? then OwnDeadline(cfg, job.o.now) else None
    ensures Inv(cfg, g, Advance(w, t, c, job))
  {
  }

  lemma AcquireInv(cfg: Cfg, g: Config, w: World, t: nat)
    requires Inv(cfg, g, w)
    ensures Inv(cfg, g, DoAcquire(w, t))
  {
    AckInvKept(cfg, w, DoAcquire(w, t));
  }

  lemma WaitingInv(cfg: Cfg, g: Config, w: World, t: nat, req: Request)
    requires Inv(cfg, g, w) && t !in w.threads
    ensures Inv(cfg, g, w.(threads := w.threads[t := Waiting(req)]))
  {
    AckInvKept(cfg, w, w.(threads := w.threads[t := Waiting(req)]));
  }

  lemma ArriveInv(cfg: Cfg, g: Config, w: World, t: nat, req: Request)
    requires Inv(cfg, g, w)
    ensures Inv(cfg, g, Step(cfg, w, Arrive(t, req)))
  {
    if t !in w.threads {
      WaitingInv(cfg, g, w, t, req);
    }
  }

  lemma HolderInv(cfg: Cfg, g: Config, w: World, e: Event)
    requires Inv(cfg, g, w) && (e.SampleTxn? || e.InstallDeadline? || e.ClearDeadline? || e.Panic?)
    ensures Inv(cfg, g, Step(cfg, w, e))
  {
    var v := Step(cfg, w, e);
    if v != w {
      if e.Panic? {
        AckInvKept(cfg, w, v);
      } else {
        AdvanceInv(cfg, g, w, e.t, v.conn, v.threads[e.t].job);
      }
    }
  }

  lemma RunStmtInv(cfg: Cfg, g: Config, w: World, t: nat, attempt: Attempt)
    requires Inv(cfg, g, w) && Holds(w, t) && w.threads[t].job.pc.Armed?
    ensures Inv(cfg, g, DoRun(cfg, w, t, attempt))
  {
    var job := w.threads[t].job;
    ExecuteSpec(w.conn, job.req, attempt, cfg.settings.maxRows);
    var (c, r) := Execute(w.conn, job.req, attempt, cfg.settings.maxRows);
    AdvanceInv(cfg, g, w, t, c, job.(pc := Ran(job.pc.wasInTxn, r), o := job.o.(attempt := attempt, after := 0)));
  }

  lemma CopyInv(cfg: Cfg, g: Config, w: World, reach: nat)
    requires Inv(cfg, g, w)
    ensures Inv(cfg, g, DoCopy(w, reach))
  {
    BackgroundSpec(w.conn, reach);
    var v := DoCopy(w, reach);
    var c := Background(w.conn, reach);
    if w.lock.Held? && HasRun(w.threads[w.lock.t].job.pc) {
      AdvanceInv(cfg, g, w, w.lock.t, c, v.threads[w.lock.t].job);
    } else {
      AckInvKept(cfg, w, v);
    }
  }

  lemma CrashInv(cfg: Cfg, g: Config, w: World)
    requires Inv(cfg, g, w)
    ensures Inv(cfg, g, DoCrash(w))
  {
    ColdStartSpec(w.conn);
    AckInvKept(cfg, w, DoCrash(w));
  }

  lemma StepInv(cfg: Cfg, g: Config, w: World, e: Event)
    requires Inv(cfg, g, w)
    ensures Inv(cfg, g, Step(cfg, w, e))
  {
    match e {
      case Arrive(t, req) => ArriveInv(cfg, g, w, t, req);
      case Abandon(_) =>
      case Acquire(t) => AcquireInv(cfg, g, w, t);
      case RunStmt(t, attempt) => if Holds(w, t) && w.threads[t].job.pc.Armed? { RunStmtInv(cfg, g, w, t, attempt); }
      case Finish(t, flush) => if Holds(w, t) && w.threads[t].job.pc.Cleared? { FinishInv(cfg, g, w, t, flush); }
      case Copy(reach) => CopyInv(cfg, g, w, reach);
      case Crash => CrashInv(cfg, g, w);
      case _ => HolderInv(cfg, g, w, e);
    }
  }

  lemma {:induction false} RunInv(cfg: Cfg, g: Config, w: World, es: seq<Event>)
    requires Inv(cfg, g, w)
    ensures Inv(cfg, g, Run(cfg, w, es))
  {
    if es != [] {
      RunInv(cfg, g, w, es[..|es| - 1]);
      StepInv(cfg, g, Run(cfg, w, es[..|es| - 1]), es[|es| - 1]);
    }
  }

  // ---------------------------------------------------------------- histories

  ghost predicate KeepsHistory(c: Conn, d: Conn) {
    && Bounded(c.store) && Bounded(d.store)
    && DurableHistory(c.store) <= DurableHistory(d.store)
  }

  lemma FinishKeepsHistory(cfg: Cfg, g: Config, w: World, t: nat, flush: Flush)
    requires Inv(cfg, g, w) && Holds(w, t) && w.threads[t].job.pc.Cleared?
    ensures var v := DoFinish(cfg, w, t, flush);
            KeepsHistory(w.conn, v.conn) && v.conn.store.committed == w.conn.store.committed
  {
    ConcludeSpec(w.conn, w.threads[t].job.pc.wasInTxn, w.threads[t].job.pc.r, cfg.mode, flush);
  }

  lemma RunStmtKeepsHistory(cfg: Cfg, g: Config, w: World, t: nat, a: Attempt)
    requires Inv(cfg, g, w) && Holds(w, t) && w.threads[t].job.pc.Armed?
    ensures var v := DoRun(cfg, w, t, a);
            KeepsHistory(w.conn, v.conn) && w.conn.store.committed <= v.conn.store.committed
  {
    ExecuteSpec(w.conn, w.threads[t].job.req, a, cfg.settings.maxRows);
  }

  lemma StepKeepsHistory(cfg: Cfg, g: Config, w: World, e: Event)
    requires Inv(cfg, g, w)
    ensures var v := Step(cfg, w, e);
            KeepsHistory(w.conn, v.conn) && (!e.Crash? ==> w.conn.store.committed <= v.conn.store.committed)
  {
    var v := Step(cfg, w, e);
    match e {
      case RunStmt(t, a) => if Holds(w, t) && w.threads[t].job.pc.Armed? { RunStmtKeepsHistory(cfg, g, w, t, a); }
      case Finish(t, flush) => if Holds(w, t) && w.threads[t].job.pc.Cleared? { FinishKeepsHistory(cfg, g, w, t, flush); }
      case Copy(reach) => BackgroundSpec(w.conn, reach);
      case Crash => ColdStartSpec(w.conn);
      case _ => assert v.conn.store == w.conn.store;
    }
  }

  // What a cold start would recover never shrinks, through any events, crashes included;
  // the committed history itself shrinks only in a crash.
  lemma {:induction false} RecoverableNeverShrinks(cfg: Cfg, g: Config, w: World, es: seq<Event>)
    requires Inv(cfg, g, w)
    ensures var v := Run(cfg, w, es);
            && Inv(cfg, g, v)
            && DurableHistory(w.conn.store) <= DurableHistory(v.conn.store)
            && (Crash !in es ==> w.conn.store.committed <= v.conn.store.committed)
  {
    RunInv(cfg, g, w, es);
    if es != [] {
      RecoverableNeverShrinks(cfg, g, w, es[..|es| - 1]);
      StepKeepsHistory(cfg, g, Run(cfg, w, es[..|es| - 1]), es[|es| - 1]);
    }
  }

  // ---------------------------------------------------------------- acknowledgements

  ghost predicate KeepsAcks(w: World, v: World) {
    forall t :: t in w.acks ==> t in v.acks && v.acks[t] == w.acks[t]
  }

  lemma FinishKeepsAcks(cfg: Cfg, g: Config, w: World, t: nat, flush: Flush)
    requires Inv(cfg, g, w) && Holds(w, t) && w.threads[t].job.pc.Cleared?
    ensures KeepsAcks(w, DoFinish(cfg, w, t, flush))
  {
    assert t !in w.acks;
  }

  lemma StepKeepsAcks(cfg: Cfg, g: Config, w: World, e: Event)
    requires Inv(cfg, g, w)
    ensures KeepsAcks(w, Step(cfg, w, e))
  {
    if e.Finish? && Holds(w, e.t) && w.threads[e.t].job.pc.Cleared? {
      FinishKeepsAcks(cfg, g, w, e.t, e.flush);
    } else {
      assert Step(cfg, w, e).acks == w.acks;
    }
  }

  lemma {:induction false} RunKeepsAcks(cfg: Cfg, g: Config, w: World, es: seq<Event>)
    requires Inv(cfg, g, w)
    ensures KeepsAcks(w, Run(cfg, w, es))
  {
    if es != [] {
      RunKeepsAcks(cfg, g, w, es[..|es| - 1]);
      RunInv(cfg, g, w, es[..|es| - 1]);
      StepKeepsAcks(cfg, g, Run(cfg, w, es[..|es| - 1]), es[|es| - 1]);
    }
  }

  // Crash safety. From any consistent start, in every run: whatever was acknowledged at
  // some point is durable then and ever after, through crashes, panics, busy checkpoints
  // and partial copies, and what a cold start recovers is the pages of a prefix of the
  // committed history that contains every acknowledged commit in order. Only requests answered
  // Ok are acknowledged.
  lemma AckedCommitsSurvive(cfg: Cfg, c: Conn, before: seq<Event>, after: seq<Event>)
    requires Sqlite.Valid(c) && c.deadline == None && Safe(cfg.mode, c.config.journal)
    ensures var w := Run(cfg, Start(c), before);
            var v := Run(cfg, Start(c), before + after);
            var history := DurableHistory(v.conn.store);
            && history <= v.conn.store.committed
            && Visible(ColdStart(v.conn).store) == Overlay(history)
            && forall t :: t in w.acks ==> t in w.threads && w.threads[t].Answered? && w.threads[t].ans.Ok? && w.acks[t] <= history
  {
    StartInv(cfg, c);
    RunInv(cfg, c.config, Start(c), before);
    var w := Run(cfg, Start(c), before);
    RunConcat(cfg, Start(c), before, after);
    RunInv(cfg, c.config, w, after);
    RunKeepsAcks(cfg, c.config, w, after);
    ColdStartSpec(Run(cfg, w, after).conn);
  }

  // ---------------------------------------------------------------- configuration, deadline

  // No run of client statements changes the journal mode, any setting, or the set of
  // attached databases.
  lemma ConfigurationIsFrozen(cfg: Cfg, c: Conn, es: seq<Event>)
    requires Sqlite.Valid(c) && c.deadline == None
    ensures Run(cfg, Start(c), es).conn.config == c.config
  {
    StartInv(cfg, c);
    RunInv(cfg, c.config, Start(c), es);
  }

  // Every statement runs under its own request's deadline or none; the gate and the
  // checkpoint run under none; a free lock leaves no handler behind.
  lemma NoStaleDeadline(cfg: Cfg, c: Conn, es: seq<Event>)
    requires Sqlite.Valid(c) && c.deadline == None
    ensures var w := Run(cfg, Start(c), es);
            && (w.lock.Free? ==> w.conn.deadline == None)
            && forall t :: Holds(w, t) ==>
                 var job := w.threads[t].job;
                 && (job.pc.Armed? ==> w.conn.deadline == OwnDeadline(cfg, job.o.now))
                 && (job.pc.Cleared? ==> w.conn.deadline == None)
  {
    StartInv(cfg, c);
    RunInv(cfg, c.config, Start(c), es);
  }

  // ---------------------------------------------------------------- unsafe modes

  const EMPTY: Conn := Conn(Config(JournalMode.Wal, map[], {}), Store(map[], [], 0, []), Auto, Counters(0, 0, 0), None)

  const INSERT: Request := Request(Compiled(Dml, [], 0), [], Objects)

  const ONE_ROW: Attempt :=
    Attempt(map[1 := 7], 1, Some(1), 1, Cursor([], [], Exhausted), Fails(0), Fate(Untouched, EMPTY.counters), EMPTY.config)

  // The checkpoint, if any, copies nothing and says busy = 0.
  const QUIET: Oracle := Oracle(0, ONE_ROW, 0, Row(0, 1, 0, 0))

  function InsertRun(): seq<Event> {
    Uninterrupted(0, INSERT, QUIET)
  }

  lemma InsertCommits()
    ensures var (d, r) := Execute(EMPTY, INSERT, ONE_ROW, None);
            && r.Ok? && !r.value.readonly
            && d == EMPTY.(store := Store(map[], [map[1 := 7]], 0, [map[1 := 7]]), counters := Counters(1, 1, 1))
  {
    assert 1 in ONE_ROW.writes;
    assert BindAll([]) == Ok([]);
  }

  // `Off` never checkpoints and `Passive` may stop early while reporting success: the
  // INSERT is answered Ok and acknowledged, and the crash loses it.
  lemma UnsafeModesLoseAnAckedCommit(mode: CheckpointMode)
    requires mode.Off? || mode.Passive?
    ensures var cfg := Cfg(DbSettings(None, None), mode);
            var w := Run(cfg, Start(EMPTY), InsertRun());
            && 0 in w.acks && w.acks[0] == [map[1 := 7]]
            && DurableHistory(w.conn.store) == []
            && Visible(ColdStart(w.conn).store) == map[]
  {
    UninterruptedIsServe(Cfg(DbSettings(None, None), mode), Start(EMPTY), 0, INSERT, QUIET);
    InsertCommits();
    InternalCheckpointAllowed(PASSIVE);
  }

  ghost predicate AcksDurable(w: World)
    requires Bounded(w.conn.store)
  {
    AcksWithin(w.acks, DurableHistory(w.conn.store))
  }

  ghost predicate StartsOn(c: Conn, journal: JournalMode) {
    Sqlite.Valid(c) && c.deadline == None && c.config.journal == journal
  }

  lemma SafeRunIsDurable(cfg: Cfg, c: Conn, es: seq<Event>)
    requires Sqlite.Valid(c) && c.deadline == None && Safe(cfg.mode, c.config.journal)
    ensures AcksDurable(Run(cfg, Start(c), es))
  {
    StartInv(cfg, c);
    RunInv(cfg, c.config, Start(c), es);
  }

  lemma UnsafeRunIsNot(mode: CheckpointMode)
    requires mode.Off? || mode.Passive?
    ensures StartsOn(EMPTY, Wal) && !AcksDurable(Run(Cfg(DbSettings(None, None), mode), Start(EMPTY), InsertRun()))
  {
    UnsafeModesLoseAnAckedCommit(mode);
    var w := Run(Cfg(DbSettings(None, None), mode), Start(EMPTY), InsertRun());
    assert !(w.acks[0] <= DurableHistory(w.conn.store));
  }

  // Among the modes claimed here, acknowledged means durable in every run from every
  // start with this journal mode, if and only if the pair is safe.
  lemma DurabilityExactly(mode: CheckpointMode, journal: JournalMode)
    requires !mode.Full? && !mode.Restart?
    ensures Safe(mode, journal) <==>
            forall settings: DbSettings, c: Conn, es: seq<Event> ::
              StartsOn(c, journal) ==> AcksDurable(Run(Cfg(settings, mode), Start(c), es))
  {
    if Safe(mode, journal) {
      forall settings: DbSettings, c: Conn, es: seq<Event> | StartsOn(c, journal)
        ensures AcksDurable(Run(Cfg(settings, mode), Start(c), es))
      {
        SafeRunIsDurable(Cfg(settings, mode), c, es);
      }
    } else {
      UnsafeRunIsNot(mode);
    }
  }
}
