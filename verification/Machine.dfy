/** Concurrent requests on one shared connection, split into the steps of `exec_durable`:
    lock, sample autocommit, install the deadline, run the statement, clear the deadline,
    gate + checkpoint + unlock. Between any two of them another request, a background
    copy of committed frames, a worker panic or the end of the container may come. */
module Machine {
  import opened Prelude
  import opened Rows
  import opened Storage
  import opened Sqlite
  import opened Durable

  datatype Cfg = Cfg(settings: DbSettings, mode: CheckpointMode)

  // Where a request that holds the lock is, with the local variables it has by then.
  datatype Pc =
    | Locked
    | Sampled(wasInTxn: bool)
    | Armed(wasInTxn: bool)
    | Ran(wasInTxn: bool, r: Result<ExecOutcome, SqlError>)
    | Cleared(wasInTxn: bool, r: Result<ExecOutcome, SqlError>)

  // Has the statement been run?
  predicate HasRun(pc: Pc) { pc.Ran? || pc.Cleared? }

  // `o` records the environment's choices so far.
  datatype Job = Job(req: Request, pc: Pc, o: Oracle)

  datatype Thread = Waiting(req: Request) | Holding(job: Job) | Answered(ans: Answer)

  datatype Lock = Free | Held(t: nat) | Poisoned

  // History variables: `acks` maps each request answered Ok past the gate to the commits
  // made by then, `order` lists the requests in lock-acquisition order, and `log` the
  // sequential execution built so far.
  datatype World = World(conn: Conn, lock: Lock, threads: map<nat, Thread>, abandoned: set<nat>,
                         acks: map<nat, seq<Pages>>, order: seq<nat>, log: seq<Op>)

  datatype Op =
    | Served(t: nat, req: Request, o: Oracle)
    | Refused(t: nat)
    | Panicked(t: nat, job: Job)
    | Lost(t: nat, job: Job)
    | Copied(reach: nat)
    | Restarted

  datatype Event =
    | Arrive(t: nat, req: Request)
    | Abandon(t: nat)
    | Acquire(t: nat)
    | SampleTxn(t: nat)
    | InstallDeadline(t: nat, now: int)
    | RunStmt(t: nat, attempt: Attempt)
    | ClearDeadline(t: nat)
    | Finish(t: nat, flush: Flush)
    | Panic(t: nat)
    | Copy(reach: nat)
    | Crash

  const BLANK: Oracle :=
    Oracle(0, Attempt(map[], 0, None, 0, Cursor([], [], Exhausted), Fails(0), Fate(Untouched, Counters(0, 0, 0)), Config(Wal, map[], {})), 0, Fails(0))

  function Start(c: Conn): World {
    World(c, Free, map[], {}, map[], [], [])
  }

  predicate Holds(w: World, t: nat) {
    w.lock == Held(t) && t in w.threads && w.threads[t].Holding?
  }

  function Advance(w: World, t: nat, c: Conn, job: Job): World {
    w.(conn := c, threads := w.threads[t := Holding(job)])
  }

  function ColdStart(c: Conn): Conn
    requires Bounded(c.store)
  {
    Conn(c.config, Storage.Crash(c.store), Auto, Counters(0, 0, 0), None)
  }

  function OnlyAnswered(threads: map<nat, Thread>): map<nat, Thread> {
    map t | t in threads && threads[t].Answered? :: threads[t]
  }

  function DoAcquire(w: World, t: nat): World {
    if t !in w.threads || !w.threads[t].Waiting? then w
    else if w.lock.Free? then
      w.(lock := Held(t), threads := w.threads[t := Holding(Job(w.threads[t].req, Locked, BLANK))], order := w.order + [t])
    else if w.lock.Poisoned? then
      w.(threads := w.threads[t := Answered(Err(Internal(MutexPoisoned)))], log := w.log + [Refused(t)])
    else w
  }

  function DoSample(w: World, t: nat): World
    requires Holds(w, t) && w.threads[t].job.pc.Locked?
  {
    Advance(w, t, w.conn, w.threads[t].job.(pc := Sampled(w.conn.txn.Open?)))
  }

  function DoInstall(cfg: Cfg, w: World, t: nat, now: int): World
    requires Holds(w, t) && w.threads[t].job.pc.Sampled?
  {
    var job := w.threads[t].job;
    Advance(w, t, Arm(w.conn, cfg.settings, now), job.(pc := Armed(job.pc.wasInTxn), o := job.o.(now := now)))
  }

  function DoRun(cfg: Cfg, w: World, t: nat, attempt: Attempt): World
    requires Bounded(w.conn.store) && Holds(w, t) && w.threads[t].job.pc.Armed?
  {
    var job := w.threads[t].job;
    var (c, r) := Execute(w.conn, job.req, attempt, cfg.settings.maxRows);
    Advance(w, t, c, job.(pc := Ran(job.pc.wasInTxn, r), o := job.o.(attempt := attempt, after := 0)))
  }

  function DoClear(cfg: Cfg, w: World, t: nat): World
    requires Holds(w, t) && w.threads[t].job.pc.Ran?
  {
    var job := w.threads[t].job;
    Advance(w, t, Disarm(w.conn, cfg.settings), job.(pc := Cleared(job.pc.wasInTxn, TimeoutShaped(job.pc.r, cfg.settings))))
  }

  // Gate, checkpoint, answer and unlock; an error of the statement only unlocks.
  function DoFinish(cfg: Cfg, w: World, t: nat, flush: Flush): World
    requires Bounded(w.conn.store) && Holds(w, t) && w.threads[t].job.pc.Cleared?
  {
    var job := w.threads[t].job;
    var (c, ans) := Conclude(w.conn, job.pc.wasInTxn, job.pc.r, cfg.mode, flush);
    w.(conn := c, lock := Free, threads := w.threads[t := Answered(ans)],
       acks := if ans.Ok? && NeedsCheckpoint(w.conn, job.pc.wasInTxn, ans.value.readonly)
               then w.acks[t := c.store.committed] else w.acks,
       log := w.log + [Served(t, job.req, job.o.(flush := flush))])
  }

  function DoPanic(w: World, t: nat): World
    requires Holds(w, t)
  {
    w.(lock := Poisoned, threads := w.threads[t := Answered(Err(Internal(WorkerPanicked)))],
       log := w.log + [Panicked(t, w.threads[t].job)])
  }

  function DoCopy(w: World, reach: nat): World
    requires Bounded(w.conn.store)
  {
    var c := Background(w.conn, reach);
    if w.lock.Held? && Holds(w, w.lock.t) && HasRun(w.threads[w.lock.t].job.pc) then
      var job := w.threads[w.lock.t].job;
      Advance(w, w.lock.t, c, job.(o := job.o.(after := if job.o.after < reach then reach else job.o.after)))
    else w.(conn := c, log := w.log + [Copied(reach)])
  }

  function DoCrash(w: World): World
    requires Bounded(w.conn.store)
  {
    w.(conn := ColdStart(w.conn), lock := Free, threads := OnlyAnswered(w.threads),
       log := w.log + (if w.lock.Held? && Holds(w, w.lock.t) then [Lost(w.lock.t, w.threads[w.lock.t].job), Restarted] else [Restarted]))
  }

  // A disabled event changes nothing.
  function Step(cfg: Cfg, w: World, e: Event): World
    requires Bounded(w.conn.store)
  {
    match e
    case Arrive(t, req) => if t in w.threads then w else w.(threads := w.threads[t := Waiting(req)])
    case Abandon(t) => w.(abandoned := w.abandoned + {t})
    case Acquire(t) => DoAcquire(w, t)
    case SampleTxn(t) => if Holds(w, t) && w.threads[t].job.pc.Locked? then DoSample(w, t) else w
    case InstallDeadline(t, now) => if Holds(w, t) && w.threads[t].job.pc.Sampled? then DoInstall(cfg, w, t, now) else w
    case RunStmt(t, attempt) => if Holds(w, t) && w.threads[t].job.pc.Armed? then DoRun(cfg, w, t, attempt) else w
    case ClearDeadline(t) => if Holds(w, t) && w.threads[t].job.pc.Ran? then DoClear(cfg, w, t) else w
    case Finish(t, flush) => if Holds(w, t) && w.threads[t].job.pc.Cleared? then DoFinish(cfg, w, t, flush) else w
    case Panic(t) => if Holds(w, t) then DoPanic(w, t) else w
    case Copy(reach) => DoCopy(w, reach)
    case Crash => DoCrash(w)
  }

  lemma StepBounded(cfg: Cfg, w: World, e: Event)
    requires Bounded(w.conn.store)
    ensures Bounded(Step(cfg, w, e).conn.store)
  {
    match e {
      case RunStmt(t, attempt) =>
        if Holds(w, t) {
          ExecuteBounded(w.conn, w.threads[t].job.req, attempt, cfg.settings.maxRows);
        }
      case Finish(t, flush) =>
        if Holds(w, t) && w.threads[t].job.pc.Cleared? {
          ConcludeBounded(w.conn, w.threads[t].job.pc.wasInTxn, w.threads[t].job.pc.r, cfg.mode, flush);
        }
      case _ =>
    }
  }

  function Run(cfg: Cfg, w: World, es: seq<Event>): (r: World)
    requires Bounded(w.conn.store)
    ensures Bounded(r.conn.store)
  {
    if es == [] then w
    else
      var v := Run(cfg, w, es[..|es| - 1]);
      StepBounded(cfg, v, es[|es| - 1]);
      Step(cfg, v, es[|es| - 1])
  }

  lemma {:induction false} RunConcat(cfg: Cfg, w: World, a: seq<Event>, b: seq<Event>)
    requires Bounded(w.conn.store)
    ensures Run(cfg, w, a + b) == Run(cfg, Run(cfg, w, a), b)
  {
    if b == [] {
      assert a + b == a;
    } else {
      RunConcat(cfg, w, a, b[..|b| - 1]);
      assert (a + b)[..|a + b| - 1] == a + b[..|b| - 1];
    }
  }

  lemma RunSnoc(cfg: Cfg, w: World, es: seq<Event>, e: Event)
    requires Bounded(w.conn.store)
    ensures Run(cfg, w, es + [e]) == Step(cfg, Run(cfg, w, es), e)
  {
  }

  lemma RunTwo(cfg: Cfg, w: World, d: Event, e: Event)
    requires Bounded(w.conn.store)
    ensures Bounded(Step(cfg, w, d).conn.store)
    ensures Run(cfg, w, [d, e]) == Step(cfg, Step(cfg, w, d), e)
  {
    StepBounded(cfg, w, d);
    assert [d] + [e] == [d, e] && [] + [d] == [d];
    RunSnoc(cfg, w, [], d);
    RunSnoc(cfg, w, [d], e);
  }

  // A request served without interruption.
  function Uninterrupted(t: nat, req: Request, o: Oracle): seq<Event> {
    [Arrive(t, req), Acquire(t)] + ([SampleTxn(t), InstallDeadline(t, o.now)]
    + ([RunStmt(t, o.attempt), ClearDeadline(t)] + [Copy(o.after), Event.Finish(t, o.flush)]))
  }

  lemma LockedAfterTwo(cfg: Cfg, w: World, t: nat, req: Request)
    requires Bounded(w.conn.store) && w.lock.Free? && t !in w.threads
    ensures var v := Run(cfg, w, [Arrive(t, req), Acquire(t)]);
            && Holds(v, t) && v.conn == w.conn && v.acks == w.acks
            && v.threads == w.threads[t := Holding(Job(req, Locked, BLANK))]
  {
    RunTwo(cfg, w, Arrive(t, req), Acquire(t));
  }

  lemma ArmedAfterTwo(cfg: Cfg, w: World, t: nat, now: int)
    requires Bounded(w.conn.store) && Holds(w, t) && w.threads[t].job.pc.Locked?
    ensures var v := Run(cfg, w, [SampleTxn(t), InstallDeadline(t, now)]);
            && Holds(v, t) && v.conn == Arm(w.conn, cfg.settings, now) && v.acks == w.acks
            && v.threads[t].job.pc == Armed(w.conn.txn.Open?) && v.threads[t].job.req == w.threads[t].job.req
            && v.threads == w.threads[t := v.threads[t]]
  {
    RunTwo(cfg, w, SampleTxn(t), InstallDeadline(t, now));
  }

  lemma ClearedAfterTwo(cfg: Cfg, w: World, t: nat, a: Attempt)
    requires Bounded(w.conn.store) && Holds(w, t) && w.threads[t].job.pc.Armed?
    ensures var v := Run(cfg, w, [RunStmt(t, a), ClearDeadline(t)]);
            var (c, r) := Execute(w.conn, w.threads[t].job.req, a, cfg.settings.maxRows);
            && Holds(v, t) && v.conn == Disarm(c, cfg.settings) && v.acks == w.acks
            && v.threads[t].job.pc == Cleared(w.threads[t].job.pc.wasInTxn, TimeoutShaped(r, cfg.settings))
            && v.threads == w.threads[t := v.threads[t]]
  {
    RunTwo(cfg, w, RunStmt(t, a), ClearDeadline(t));
  }

  // The first four events, before any `rest`.
  lemma ArmedAfterFour(cfg: Cfg, w: World, t: nat, req: Request, now: int, rest: seq<Event>) returns (v: World)
    requires Bounded(w.conn.store) && w.lock.Free? && t !in w.threads
    ensures Bounded(v.conn.store)
    ensures Run(cfg, w, [Arrive(t, req), Acquire(t)] + ([SampleTxn(t), InstallDeadline(t, now)] + rest)) == Run(cfg, v, rest)
    ensures Holds(v, t) && v.conn == Arm(w.conn, cfg.settings, now) && v.acks == w.acks
    ensures v.threads[t].job.pc == Armed(w.conn.txn.Open?) && v.threads[t].job.req == req
    ensures v.threads == w.threads[t := v.threads[t]]
  {
    var a, b := [Arrive(t, req), Acquire(t)], [SampleTxn(t), InstallDeadline(t, now)];
    RunConcat(cfg, w, a, b + rest);
    LockedAfterTwo(cfg, w, t, req);
    var u := Run(cfg, w, a);
    RunConcat(cfg, u, b, rest);
    ArmedAfterTwo(cfg, u, t, now);
    v := Run(cfg, u, b);
  }

  lemma ServedAfterArmed(cfg: Cfg, w: World, t: nat, o: Oracle)
    requires Bounded(w.conn.store) && Holds(w, t) && w.threads[t].job.pc.Armed?
    ensures var v := Run(cfg, w, [RunStmt(t, o.attempt), ClearDeadline(t)] + [Copy(o.after), Event.Finish(t, o.flush)]);
            var was := w.threads[t].job.pc.wasInTxn;
            var (c, r) := Execute(w.conn, w.threads[t].job.req, o.attempt, cfg.settings.maxRows);
            && Bounded(Disarm(c, cfg.settings).store)
            && var (d, ans) := Conclude(Background(Disarm(c, cfg.settings), o.after), was, TimeoutShaped(r, cfg.settings), cfg.mode, o.flush);
               && v.conn == d && v.lock.Free? && v.threads == w.threads[t := Answered(ans)]
               && v.acks == if ans.Ok? && NeedsCheckpoint(d, was, ans.value.readonly) then w.acks[t := d.store.committed] else w.acks
  {
    var c, d := [RunStmt(t, o.attempt), ClearDeadline(t)], [Copy(o.after), Event.Finish(t, o.flush)];
    RunConcat(cfg, w, c, d);
    ClearedAfterTwo(cfg, w, t, o.attempt);
    var v := Run(cfg, w, c);
    RunTwo(cfg, v, Copy(o.after), Event.Finish(t, o.flush));
    FinishAfterCopy(cfg, v, t, o);
  }

  // Its steps add up to `exec_durable`.
  lemma UninterruptedIsServe(cfg: Cfg, w: World, t: nat, req: Request, o: Oracle)
    requires Bounded(w.conn.store) && w.lock.Free? && t !in w.threads
    ensures var v := Run(cfg, w, Uninterrupted(t, req, o));
            var (c, ans) := Serve(w.conn, req, cfg.settings, cfg.mode, o);
            && v.conn == c && v.lock.Free? && v.threads == w.threads[t := Answered(ans)]
            && v.acks == if ans.Ok? && NeedsCheckpoint(c, w.conn.txn.Open?, ans.value.readonly)
                         then w.acks[t := c.store.committed] else w.acks
  {
    var rest := [RunStmt(t, o.attempt), ClearDeadline(t)] + [Copy(o.after), Event.Finish(t, o.flush)];
    var v := ArmedAfterFour(cfg, w, t, req, o.now, rest);
    ServedAfterArmed(cfg, v, t, o);
  }

  lemma FinishAfterCopy(cfg: Cfg, w: World, t: nat, o: Oracle)
    requires Bounded(w.conn.store) && Holds(w, t) && w.threads[t].job.pc.Cleared?
    ensures var v := Step(cfg, Step(cfg, w, Copy(o.after)), Event.Finish(t, o.flush));
            var pc := w.threads[t].job.pc;
            var c := Background(w.conn, o.after);
            var (d, ans) := Conclude(c, pc.wasInTxn, pc.r, cfg.mode, o.flush);
            && v.conn == d && v.lock.Free? && v.threads == w.threads[t := Answered(ans)]
            && v.acks == if ans.Ok? && NeedsCheckpoint(d, pc.wasInTxn, ans.value.readonly)
                         then w.acks[t := d.store.committed] else w.acks
  {
  }

  // ---------------------------------------------------------------- callers that stop waiting

  function WithoutAbandon(es: seq<Event>): seq<Event> {
    if es == [] then []
    else
      var init := WithoutAbandon(es[..|es| - 1]);
      if es[|es| - 1].Abandon? then init else init + [es[|es| - 1]]
  }

  lemma StepIgnoresAbandoned(cfg: Cfg, w: World, e: Event)
    requires Bounded(w.conn.store)
    ensures Step(cfg, w, e).(abandoned := {}) ==
            if e.Abandon? then w.(abandoned := {}) else Step(cfg, w.(abandoned := {}), e)
  {
  }

  // A caller that stops waiting changes nothing: the blocking task runs on, and the run is
  // the one without that event.
  lemma {:induction false} AbandonIsInvisible(cfg: Cfg, c: Conn, es: seq<Event>)
    requires Bounded(c.store)
    ensures Run(cfg, Start(c), es).(abandoned := {}) == Run(cfg, Start(c), WithoutAbandon(es))
  {
    if es != [] {
      var init := es[..|es| - 1];
      AbandonIsInvisible(cfg, c, init);
      StepIgnoresAbandoned(cfg, Run(cfg, Start(c), init), es[|es| - 1]);
      RunSnoc(cfg, Start(c), WithoutAbandon(init), es[|es| - 1]);
    }
  }
}
