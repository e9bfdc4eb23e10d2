/** Every run of the concurrent machine is a sequential execution of whole requests in
    the order in which they took the lock. */
module Linearizability {
  import opened Prelude
  import opened Storage
  import opened Sqlite
  import opened Durable
  import opened Machine

  // ---------------------------------------------------------------- the sequential side

  datatype Seq = Seq(conn: Conn, poisoned: bool, answers: map<nat, Answer>)

  // What an interrupted request had done to the connection.
  function Partial(cfg: Cfg, c: Conn, job: Job): Conn
    requires Bounded(c.store)
  {
    match job.pc
    case Locked => c
    case Sampled(_) => c
    case Armed(_) => Arm(c, cfg.settings, job.o.now)
    case Ran(_, _) => AfterRun(cfg, c, job)
    case Cleared(_, _) => Disarm(AfterRun(cfg, c, job), cfg.settings)
  }

  function AfterRun(cfg: Cfg, c: Conn, job: Job): (d: Conn)
    requires Bounded(c.store)
    ensures Bounded(d.store)
  {
    ExecuteBounded(Arm(c, cfg.settings, job.o.now), job.req, job.o.attempt, cfg.settings.maxRows);
    Background(Executed(cfg, c, job).0, job.o.after)
  }

  function Executed(cfg: Cfg, c: Conn, job: Job): (Conn, Result<ExecOutcome, SqlError>)
    requires Bounded(c.store)
  {
    Execute(Arm(c, cfg.settings, job.o.now), job.req, job.o.attempt, cfg.settings.maxRows)
  }

  // One whole request (or background step) at a time.
  function SeqStep(cfg: Cfg, s: Seq, op: Op): Seq
    requires Bounded(s.conn.store)
  {
    match op
    case Served(t, req, o) =>
      var (c, ans) := Serve(s.conn, req, cfg.settings, cfg.mode, o);
      s.(conn := c, answers := s.answers[t := ans])
    case Refused(t) => s.(answers := s.answers[t := Err(Internal(MutexPoisoned))])
    case Panicked(t, job) =>
      s.(conn := Partial(cfg, s.conn, job), poisoned := true, answers := s.answers[t := Err(Internal(WorkerPanicked))])
    case Lost(t, job) => s.(conn := Partial(cfg, s.conn, job))
    case Copied(reach) => s.(conn := Background(s.conn, reach))
    case Restarted => s.(conn := ColdStart(s.conn), poisoned := false)
  }

  lemma SeqStepBounded(cfg: Cfg, s: Seq, op: Op)
    requires Bounded(s.conn.store)
    ensures Bounded(SeqStep(cfg, s, op).conn.store)
  {
    match op {
      case Served(t, req, o) => ServeBounded(s.conn, req, cfg.settings, cfg.mode, o);
      case Panicked(t, job) => PartialBounded(cfg, s.conn, job);
      case Lost(t, job) => PartialBounded(cfg, s.conn, job);
      case _ =>
    }
  }

  lemma PartialBounded(cfg: Cfg, c: Conn, job: Job)
    requires Bounded(c.store)
    ensures Bounded(Partial(cfg, c, job).store)
  {
  }

  function SeqRun(cfg: Cfg, s: Seq, ops: seq<Op>): (r: Seq)
    requires Bounded(s.conn.store)
    ensures Bounded(r.conn.store)
  {
    if ops == [] then s
    else
      var q := SeqRun(cfg, s, ops[..|ops| - 1]);
      SeqStepBounded(cfg, q, ops[|ops| - 1]);
      SeqStep(cfg, q, ops[|ops| - 1])
  }

  lemma SeqSnoc(cfg: Cfg, s: Seq, ops: seq<Op>, op: Op)
    requires Bounded(s.conn.store)
    ensures SeqRun(cfg, s, ops + [op]) == SeqStep(cfg, SeqRun(cfg, s, ops), op)
  {
  }

  // Operations of requests that took the lock.
  predicate IsTurn(op: Op) {
    op.Served? || op.Panicked? || op.Lost?
  }

  // The requests of a sequential execution that took the lock, in order.
  function Turns(ops: seq<Op>): seq<nat> {
    if ops == [] then []
    else
      var op := ops[|ops| - 1];
      Turns(ops[..|ops| - 1]) + (if IsTurn(op) then [op.t] else [])
  }

  lemma TurnsSnoc(ops: seq<Op>, op: Op)
    ensures Turns(ops + [op]) == Turns(ops) + (if IsTurn(op) then [op.t] else [])
  {
  }

  // ---------------------------------------------------------------- the simulation

  // The holder's local variables are those of an uninterrupted request on `c`: in
  // particular `wasInTxn` describes the connection as this request found it.
  ghost predicate LocalsOk(cfg: Cfg, c: Conn, job: Job)
    requires Bounded(c.store)
  {
    match job.pc
    case Locked => true
    case Sampled(was) => was == c.txn.Open?
    case Armed(was) => was == c.txn.Open?
    case Ran(was, r) => was == c.txn.Open? && r == Executed(cfg, c, job).1
    case Cleared(was, r) => was == c.txn.Open? && r == TimeoutShaped(Executed(cfg, c, job).1, cfg.settings)
  }

  ghost predicate SameAnswers(threads: map<nat, Thread>, answers: map<nat, Answer>) {
    && (forall t :: t in threads && threads[t].Answered? ==> t in answers && answers[t] == threads[t].ans)
    && (forall t :: t in answers ==> t in threads && threads[t].Answered?)
  }

  ghost predicate Sim(cfg: Cfg, w: World, s: Seq) {
    && Bounded(w.conn.store) && Bounded(s.conn.store)
    && SameAnswers(w.threads, s.answers)
    && (w.lock.Poisoned? <==> s.poisoned)
    && (forall t :: t in w.threads && w.threads[t].Holding? ==> w.lock == Held(t))
    && (if w.lock.Held?
        then Holds(w, w.lock.t)
             && w.conn == Partial(cfg, s.conn, w.threads[w.lock.t].job)
             && LocalsOk(cfg, s.conn, w.threads[w.lock.t].job)
             && w.order == Turns(w.log) + [w.lock.t]
        else w.conn == s.conn && w.order == Turns(w.log))
  }

  function Spec(cfg: Cfg, c: Conn, w: World): Seq
    requires Bounded(c.store)
  {
    SeqRun(cfg, Seq(c, false, map[]), w.log)
  }

  lemma AcquireSim(cfg: Cfg, c: Conn, w: World, t: nat)
    requires Bounded(c.store) && Sim(cfg, w, Spec(cfg, c, w))
    ensures var v := DoAcquire(w, t); Sim(cfg, v, Spec(cfg, c, v))
  {
    if w.lock.Poisoned? {
      SeqSnoc(cfg, Seq(c, false, map[]), w.log, Refused(t));
      RefuseSim(cfg, w, Spec(cfg, c, w), t);
    } else {
      TakeSim(cfg, w, Spec(cfg, c, w), t);
    }
  }

  lemma TakeSim(cfg: Cfg, w: World, s: Seq, t: nat)
    requires Sim(cfg, w, s) && !w.lock.Poisoned?
    ensures Sim(cfg, DoAcquire(w, t), s) && DoAcquire(w, t).log == w.log
  {
  }

  lemma RefuseSim(cfg: Cfg, w: World, s: Seq, t: nat)
    requires Sim(cfg, w, s) && w.lock.Poisoned?
    ensures var v := DoAcquire(w, t);
            if v.log == w.log then v == w
            else v.log == w.log + [Refused(t)] && Sim(cfg, v, SeqStep(cfg, s, Refused(t)))
  {
    TurnsSnoc(w.log, Refused(t));
  }

  // Sampling, installing, running and clearing advance the holder and nothing else.
  lemma HolderSim(cfg: Cfg, w: World, s: Seq, t: nat, d: Conn, job: Job)
    requires Sim(cfg, w, s) && Holds(w, t) && Bounded(d.store)
    requires d == Partial(cfg, s.conn, job) && LocalsOk(cfg, s.conn, job)
    ensures Sim(cfg, Advance(w, t, d, job), s)
  {
  }

  lemma StepsOfHolderSim(cfg: Cfg, w: World, s: Seq, e: Event)
    requires Sim(cfg, w, s) && (e.SampleTxn? || e.InstallDeadline? || e.ClearDeadline?)
    ensures Sim(cfg, Step(cfg, w, e), s) && Step(cfg, w, e).log == w.log
  {
    var v := Step(cfg, w, e);
    if v != w {
      HolderSim(cfg, w, s, e.t, v.conn, v.threads[e.t].job);
    }
  }

  lemma RunStmtSim(cfg: Cfg, w: World, s: Seq, t: nat, a: Attempt)
    requires Sim(cfg, w, s) && Holds(w, t) && w.threads[t].job.pc.Armed?
    ensures Sim(cfg, DoRun(cfg, w, t, a), s) && DoRun(cfg, w, t, a).log == w.log
  {
    var v := DoRun(cfg, w, t, a);
    ExecuteBounded(w.conn, w.threads[t].job.req, a, cfg.settings.maxRows);
    BackfillNothing(v.conn.store);
    HolderSim(cfg, w, s, t, v.conn, v.threads[t].job);
  }

  lemma BackfillNothing(s: Store)
    requires Bounded(s)
    ensures Backfill(s, 0) == s
  {
  }

  lemma FinishSim(cfg: Cfg, c: Conn, w: World, t: nat, f: Flush)
    requires Bounded(c.store) && Sim(cfg, w, Spec(cfg, c, w)) && Holds(w, t) && w.threads[t].job.pc.Cleared?
    ensures var v := DoFinish(cfg, w, t, f); Sim(cfg, v, Spec(cfg, c, v))
  {
    var job := w.threads[t].job;
    var op := Served(t, job.req, job.o.(flush := f));
    SeqSnoc(cfg, Seq(c, false, map[]), w.log, op);
    SeqStepBounded(cfg, Spec(cfg, c, w), op);
    TurnsSnoc(w.log, op);
    ClearBackground(Executed(cfg, Spec(cfg, c, w).conn, job).0, cfg.settings, job.o.after);
  }

  lemma ClearBackground(d: Conn, settings: DbSettings, reach: nat)
    requires Bounded(d.store)
    ensures Disarm(Background(d, reach), settings) == Background(Disarm(d, settings), reach)
  {
  }

  lemma PanicSim(cfg: Cfg, c: Conn, w: World, t: nat)
    requires Bounded(c.store) && Sim(cfg, w, Spec(cfg, c, w)) && Holds(w, t)
    ensures var v := DoPanic(w, t); Sim(cfg, v, Spec(cfg, c, v))
  {
  }

  lemma CrashSim(cfg: Cfg, c: Conn, w: World)
    requires Bounded(c.store) && Sim(cfg, w, Spec(cfg, c, w))
    ensures var v := DoCrash(w); Sim(cfg, v, Spec(cfg, c, v))
  {
    var s0 := Seq(c, false, map[]);
    if w.lock.Held? {
      var op := Lost(w.lock.t, w.threads[w.lock.t].job);
      SeqSnoc(cfg, s0, w.log, op);
      SeqSnoc(cfg, s0, w.log + [op], Restarted);
      HeldCrashSim(cfg, w, Spec(cfg, c, w));
    } else {
      SeqSnoc(cfg, s0, w.log, Restarted);
      FreeCrashSim(cfg, w, Spec(cfg, c, w));
    }
  }

  lemma HeldCrashSim(cfg: Cfg, w: World, s: Seq)
    requires Sim(cfg, w, s) && w.lock.Held?
    ensures var op := Lost(w.lock.t, w.threads[w.lock.t].job);
            && DoCrash(w).log == w.log + [op] + [Restarted]
            && Bounded(SeqStep(cfg, s, op).conn.store)
            && Sim(cfg, DoCrash(w), SeqStep(cfg, SeqStep(cfg, s, op), Restarted))
  {
  }

  lemma FreeCrashSim(cfg: Cfg, w: World, s: Seq)
    requires Sim(cfg, w, s) && !w.lock.Held?
    ensures DoCrash(w).log == w.log + [Restarted] && Sim(cfg, DoCrash(w), SeqStep(cfg, s, Restarted))
  {
  }

  // A copy before the statement runs counts as coming before the whole request: it
  // touches neither the transaction nor the deadline.
  lemma CopySim(cfg: Cfg, c: Conn, w: World, reach: nat)
    requires Bounded(c.store) && Sim(cfg, w, Spec(cfg, c, w))
    ensures var v := DoCopy(w, reach); Sim(cfg, v, Spec(cfg, c, v))
  {
    var s := Spec(cfg, c, w);
    if w.lock.Held? && HasRun(w.threads[w.lock.t].job.pc) {
      LateCopySim(cfg, w, s, reach);
    } else {
      SeqSnoc(cfg, Seq(c, false, map[]), w.log, Copied(reach));
      EarlyCopySim(cfg, w, s, reach);
    }
  }

  lemma EarlyCopySim(cfg: Cfg, w: World, s: Seq, reach: nat)
    requires Sim(cfg, w, s) && !(w.lock.Held? && HasRun(w.threads[w.lock.t].job.pc))
    ensures DoCopy(w, reach).log == w.log + [Copied(reach)]
    ensures Sim(cfg, DoCopy(w, reach), SeqStep(cfg, s, Copied(reach)))
  {
  }

  lemma LateCopySim(cfg: Cfg, w: World, s: Seq, reach: nat)
    requires Sim(cfg, w, s) && w.lock.Held? && HasRun(w.threads[w.lock.t].job.pc)
    ensures Sim(cfg, DoCopy(w, reach), s) && DoCopy(w, reach).log == w.log
  {
    var t := w.lock.t;
    var job := w.threads[t].job;
    var v := DoCopy(w, reach);
    var d := Executed(cfg, s.conn, job).0;
    ExecuteBounded(Arm(s.conn, cfg.settings, job.o.now), job.req, job.o.attempt, cfg.settings.maxRows);
    BackfillTwice(d.store, job.o.after, reach);
    ClearBackground(Background(d, job.o.after), cfg.settings, reach);
    HolderSim(cfg, w, s, t, v.conn, v.threads[t].job);
  }

  lemma ArriveSim(cfg: Cfg, w: World, s: Seq, t: nat, req: Request)
    requires Sim(cfg, w, s)
    ensures var v := Step(cfg, w, Arrive(t, req)); Sim(cfg, v, s) && v.log == w.log
  {
  }

  lemma StepSim(cfg: Cfg, c: Conn, w: World, e: Event)
    requires Bounded(c.store) && Sim(cfg, w, Spec(cfg, c, w))
    ensures var v := Step(cfg, w, e); Sim(cfg, v, Spec(cfg, c, v))
  {
    match e {
      case Arrive(t, req) => ArriveSim(cfg, w, Spec(cfg, c, w), t, req);
      case Abandon(_) =>
      case Acquire(t) => AcquireSim(cfg, c, w, t);
      case RunStmt(t, a) => if Holds(w, t) && w.threads[t].job.pc.Armed? { RunStmtSim(cfg, w, Spec(cfg, c, w), t, a); }
      case Finish(t, f) => if Holds(w, t) && w.threads[t].job.pc.Cleared? { FinishSim(cfg, c, w, t, f); }
      case Panic(t) => if Holds(w, t) { PanicSim(cfg, c, w, t); }
      case Copy(reach) => CopySim(cfg, c, w, reach);
      case Crash => CrashSim(cfg, c, w);
      case _ => StepsOfHolderSim(cfg, w, Spec(cfg, c, w), e);
    }
  }

  // Lock atomicity, for every interleaving of any number of requests, with abandoned
  // callers, panics, crashes and background copies: connection, poisoning and answers are
  // those of running whole requests one after another, in lock-acquisition order. (A
  // request still holding the lock has done its part of that, and `Sim` says how much.)
  lemma {:induction false} RunsAreSequential(cfg: Cfg, c: Conn, es: seq<Event>)
    requires Bounded(c.store)
    ensures var w := Run(cfg, Start(c), es);
            var s := SeqRun(cfg, Seq(c, false, map[]), w.log);
            && Sim(cfg, w, s)
            && (!w.lock.Held? ==> w.conn == s.conn && w.order == Turns(w.log))
            && (forall t :: t in w.threads && w.threads[t].Answered? ==> t in s.answers && s.answers[t] == w.threads[t].ans)
    ensures Run(cfg, Start(c), WithoutAbandon(es)).log == Run(cfg, Start(c), es).log
  {
    AbandonIsInvisible(cfg, c, es);
    if es != [] {
      RunsAreSequential(cfg, c, es[..|es| - 1]);
      StepSim(cfg, c, Run(cfg, Start(c), es[..|es| - 1]), es[|es| - 1]);
    }
  }

  // ---------------------------------------------------------------- nothing is invented

  // The request that a turn in the log belongs to.
  function TurnRequest(op: Op): Request
    requires IsTurn(op)
  {
    if op.Served? then op.req else op.job.req
  }

  ghost predicate ThreadsFromArrivals(threads: map<nat, Thread>, es: seq<Event>) {
    && (forall t :: t in threads && threads[t].Waiting? ==> Arrive(t, threads[t].req) in es)
    && (forall t :: t in threads && threads[t].Holding? ==> Arrive(t, threads[t].job.req) in es)
  }

  ghost predicate FromArrivals(w: World, es: seq<Event>) {
    && ThreadsFromArrivals(w.threads, es)
    && (forall i :: 0 <= i < |w.log| && IsTurn(w.log[i]) ==> Arrive(w.log[i].t, TurnRequest(w.log[i])) in es)
  }

  lemma MoreArrivals(w: World, es: seq<Event>, e: Event)
    requires FromArrivals(w, es)
    ensures FromArrivals(w, es + [e])
  {
  }

  lemma StepThreadsFromArrivals(cfg: Cfg, w: World, es: seq<Event>, e: Event)
    requires Bounded(w.conn.store) && ThreadsFromArrivals(w.threads, es) && e in es
    ensures ThreadsFromArrivals(Step(cfg, w, e).threads, es)
  {
  }

  lemma StepFromArrivals(cfg: Cfg, w: World, es: seq<Event>, e: Event)
    requires Bounded(w.conn.store) && FromArrivals(w, es) && e in es
    ensures FromArrivals(Step(cfg, w, e), es)
  {
    StepThreadsFromArrivals(cfg, w, es, e);
  }

  // The sequential execution takes turns only for requests that arrived, as they arrived,
  // whether they were served, panicked or were lost with the container.
  lemma {:induction false} TurnsAreArrivals(cfg: Cfg, c: Conn, es: seq<Event>)
    requires Bounded(c.store)
    ensures FromArrivals(Run(cfg, Start(c), es), es)
  {
    if es != [] {
      var init, e := es[..|es| - 1], es[|es| - 1];
      TurnsAreArrivals(cfg, c, init);
      MoreArrivals(Run(cfg, Start(c), init), init, e);
      assert init + [e] == es;
      StepFromArrivals(cfg, Run(cfg, Start(c), init), es, e);
    }
  }

  lemma StepAddsArrivals(cfg: Cfg, w: World, e: Event, t: nat)
    requires Bounded(w.conn.store) && t in Step(cfg, w, e).threads && t !in w.threads
    ensures e.Arrive? && e.t == t
  {
  }

  lemma {:induction false} ThreadsArrived(cfg: Cfg, c: Conn, es: seq<Event>, t: nat) returns (req: Request)
    requires Bounded(c.store) && t in Run(cfg, Start(c), es).threads
    ensures Arrive(t, req) in es
  {
    var init, e := es[..|es| - 1], es[|es| - 1];
    if t in Run(cfg, Start(c), init).threads {
      req := ThreadsArrived(cfg, c, init, t);
    } else {
      StepAddsArrivals(cfg, Run(cfg, Start(c), init), e, t);
      req := e.req;
    }
  }

  // ---------------------------------------------------------------- who was answered what

  // The latest operation that answered `t`.
  function AnsweredAt(ops: seq<Op>, t: nat): (i: Option<nat>)
    ensures i.Some? ==> i.value < |ops| && Answers(ops[i.value]) && ops[i.value].t == t
  {
    if ops == [] then None
    else
      var n := |ops| - 1;
      if Answers(ops[n]) && ops[n].t == t then Some(n) else AnsweredAt(ops[..n], t)
  }

  predicate Answers(op: Op) {
    op.Served? || op.Refused? || op.Panicked?
  }

  function AnswerOf(cfg: Cfg, c: Conn, op: Op): Answer
    requires Bounded(c.store) && Answers(op)
  {
    match op
    case Served(_, req, o) => Serve(c, req, cfg.settings, cfg.mode, o).1
    case Refused(_) => Err(Internal(MutexPoisoned))
    case Panicked(_, _) => Err(Internal(WorkerPanicked))
  }

  // No request is answered twice, and who was answered stays answered.
  ghost predicate AnsweredOnce(w: World) {
    && (forall i :: 0 <= i < |w.log| && Answers(w.log[i]) ==> w.log[i].t in w.threads && w.threads[w.log[i].t].Answered?)
    && (forall i, j :: 0 <= i < j < |w.log| && Answers(w.log[i]) && Answers(w.log[j]) ==> w.log[i].t != w.log[j].t)
  }

  predicate AnsweredIn(w: World, t: nat) {
    t in w.threads && w.threads[t].Answered?
  }

  lemma OnceMore(w: World, v: World, extra: seq<Op>)
    requires AnsweredOnce(w) && v.log == w.log + extra
    requires forall t :: AnsweredIn(w, t) ==> AnsweredIn(v, t)
    requires forall i :: 0 <= i < |extra| && Answers(extra[i]) ==> |extra| == 1 && AnsweredIn(v, extra[i].t) && !AnsweredIn(w, extra[i].t)
    ensures AnsweredOnce(v)
  {
    forall i | 0 <= i < |v.log| && Answers(v.log[i]) ensures AnsweredIn(v, v.log[i].t) {
      if i < |w.log| {
        assert v.log[i] == w.log[i] && AnsweredIn(w, w.log[i].t);
      } else {
        assert v.log[i] == extra[i - |w.log|];
      }
    }
    forall i, j | 0 <= i < j < |v.log| && Answers(v.log[i]) && Answers(v.log[j]) ensures v.log[i].t != v.log[j].t {
      assert i < |w.log| ==> v.log[i] == w.log[i] && AnsweredIn(w, w.log[i].t);
      assert j >= |w.log| ==> v.log[j] == extra[j - |w.log|];
    }
  }

  lemma AnswersStay(cfg: Cfg, w: World, e: Event)
    requires Bounded(w.conn.store)
    ensures forall t :: AnsweredIn(w, t) ==> AnsweredIn(Step(cfg, w, e), t)
  {
  }

  // What an event adds to the log.
  function Added(w: World, e: Event): seq<Op> {
    match e
    case Acquire(t) => if t in w.threads && w.threads[t].Waiting? && w.lock.Poisoned? then [Refused(t)] else []
    case Finish(t, f) =>
      if Holds(w, t) && w.threads[t].job.pc.Cleared?
      then [Served(t, w.threads[t].job.req, w.threads[t].job.o.(flush := f))] else []
    case Panic(t) => if Holds(w, t) then [Panicked(t, w.threads[t].job)] else []
    case Copy(reach) => if w.lock.Held? && Holds(w, w.lock.t) && HasRun(w.threads[w.lock.t].job.pc) then [] else [Copied(reach)]
    case Crash => if w.lock.Held? && Holds(w, w.lock.t) then [Lost(w.lock.t, w.threads[w.lock.t].job), Restarted] else [Restarted]
    case _ => []
  }

  lemma StepAdds(cfg: Cfg, w: World, e: Event)
    requires Bounded(w.conn.store)
    ensures var v := Step(cfg, w, e);
            && v.log == w.log + Added(w, e)
            && forall i :: 0 <= i < |Added(w, e)| && Answers(Added(w, e)[i]) ==>
                 |Added(w, e)| == 1 && AnsweredIn(v, Added(w, e)[i].t) && !AnsweredIn(w, Added(w, e)[i].t)
  {
  }

  lemma StepAnswersOnce(cfg: Cfg, w: World, e: Event)
    requires Bounded(w.conn.store) && AnsweredOnce(w)
    ensures AnsweredOnce(Step(cfg, w, e))
  {
    AnswersStay(cfg, w, e);
    StepAdds(cfg, w, e);
    OnceMore(w, Step(cfg, w, e), Added(w, e));
  }

  lemma {:induction false} RunAnswersOnce(cfg: Cfg, c: Conn, es: seq<Event>)
    requires Bounded(c.store)
    ensures AnsweredOnce(Run(cfg, Start(c), es))
  {
    if es != [] {
      RunAnswersOnce(cfg, c, es[..|es| - 1]);
      StepAnswersOnce(cfg, Run(cfg, Start(c), es[..|es| - 1]), es[|es| - 1]);
    }
  }

  // The connection the `i`-th operation of the log found.
  function TurnConn(cfg: Cfg, c: Conn, ops: seq<Op>, i: nat): (d: Conn)
    requires Bounded(c.store) && i <= |ops|
    ensures Bounded(d.store)
  {
    SeqRun(cfg, Seq(c, false, map[]), ops[..i]).conn
  }

  lemma SeqStepAnswers(cfg: Cfg, s: Seq, op: Op, t: nat)
    requires Bounded(s.conn.store)
    ensures var answers := SeqStep(cfg, s, op).answers;
            if Answers(op) && op.t == t then t in answers && answers[t] == AnswerOf(cfg, s.conn, op)
            else (t in answers <==> t in s.answers) && (t in answers ==> answers[t] == s.answers[t])
  {
  }

  // Every answer is what its operation answers on the connection that operation found.
  lemma {:induction false} AnswersComeFromTurns(cfg: Cfg, c: Conn, ops: seq<Op>, t: nat)
    requires Bounded(c.store)
    ensures var answers := SeqRun(cfg, Seq(c, false, map[]), ops).answers;
            var i := AnsweredAt(ops, t);
            && (t in answers <==> i.Some?)
            && (t in answers ==> answers[t] == AnswerOf(cfg, TurnConn(cfg, c, ops, i.value), ops[i.value]))
  {
    if ops != [] {
      var init := ops[..|ops| - 1];
      AnswersComeFromTurns(cfg, c, init, t);
      SeqStepAnswers(cfg, SeqRun(cfg, Seq(c, false, map[]), init), ops[|ops| - 1], t);
      var i := AnsweredAt(init, t);
      if i.Some? {
        assert ops[..i.value] == init[..i.value];
      }
    }
  }

  // On worlds with a free lock, the read yields the rows of `query` and is answered.
  ghost predicate ReadAnswered(cfg: Cfg, w: World, t: nat, req: Request, o: Oracle, ans: Answer)
    requires Bounded(w.conn.store)
  {
    var x := Run(cfg, w, Uninterrupted(t, req, o));
    t in x.threads && x.threads[t] == Answered(ans)
  }

  lemma ReadTurn(cfg: Cfg, w: World, t: nat, req: Request, o: Oracle)
    requires Bounded(w.conn.store) && w.lock.Free? && t !in w.threads && req.sql.Compiled? && req.sql.stmt.Query?
    ensures var ans := ReadAnswer(req, o.attempt.cursor, cfg.settings);
            && ReadAnswered(cfg, w, t, req, o, ans)
            && (ans.Ok? ==> ans.value.rowcount == 0 && ans.value.lastrowid == 0)
  {
    UninterruptedIsServe(cfg, w, t, req, o);
    ReadServed(w.conn, req, cfg.settings, cfg.mode, o);
  }

  ghost predicate Ready(w: World, t: nat, query: Reading, o: Oracle) {
    Bounded(w.conn.store) && w.lock.Free? && t !in w.threads && Yields(w.conn, query, o.attempt.cursor)
  }

  ghost predicate AgreeOn(cfg: Cfg, w: World, v: World, t: nat, req: Request, o: Oracle, p: Oracle)
    requires Bounded(w.conn.store) && Bounded(v.conn.store)
  {
    exists ans :: ReadAnswered(cfg, w, t, req, o, ans) && ReadAnswered(cfg, v, t, req, p, ans)
  }

  // Reads over runs, exactly: after any two histories of the shared connection that leave
  // it free and showing the same pages, the same read is answered identically, in all
  // cases, if and only if its answer does not show the connection's counters.
  lemma ReadsAgreeAcrossRuns(cfg: Cfg, req: Request, query: Reading)
    requires req.sql.Compiled? && req.sql.stmt.Query?
    ensures IgnoresCounters(req, query, cfg.settings) <==>
            forall w: World, v: World, t: nat, o: Oracle, p: Oracle ::
              Ready(w, t, query, o) && Ready(v, t, query, p) && View(w.conn) == View(v.conn)
              ==> AgreeOn(cfg, w, v, t, req, o, p)
  {
    if IgnoresCounters(req, query, cfg.settings) {
      forall w: World, v: World, t: nat, o: Oracle, p: Oracle
        | Ready(w, t, query, o) && Ready(v, t, query, p) && View(w.conn) == View(v.conn)
        ensures AgreeOn(cfg, w, v, t, req, o, p)
      {
        ReadTurn(cfg, w, t, req, o);
        ReadTurn(cfg, v, t, req, p);
      }
    } else {
      var pages, m, n :| ReadAnswer(req, query(pages, m), cfg.settings) != ReadAnswer(req, query(pages, n), cfg.settings);
      var w, v, o, p := Start(Showing(pages, m)), Start(Showing(pages, n)), ReadOracle(query(pages, m)), ReadOracle(query(pages, n));
      ShowingSpec(pages, m);
      ShowingSpec(pages, n);
      ReadTurn(cfg, w, 0, req, o);
      ReadTurn(cfg, v, 0, req, p);
      assert Ready(w, 0, query, o) && Ready(v, 0, query, p);
      assert !AgreeOn(cfg, w, v, 0, req, o, p);
    }
  }
}
