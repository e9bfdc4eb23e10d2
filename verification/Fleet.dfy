/** Several instances, each the whole machine of module Machine, over one manifest. Whenever
    a step of an instance makes something durable, the conditional PUT decides whether it
    does; an instance that starts reads the current manifest. */
module Fleet {
  import opened Prelude
  import opened Values
  import opened Rows
  import opened Storage
  import opened Sqlite
  import opened Policy
  import opened Durable
  import opened Machine
  import opened CrashSafety
  import Cas

  // `tag` is the entity tag of the manifest the instance last read or wrote.
  datatype Node = Node(world: World, tag: nat)

  datatype Fleet = Fleet(bucket: Cas.Bucket, nodes: map<nat, Node>)

  // An instance starts, anew or in place of one that vanished; or it takes a step of its
  // machine. If the step publishes and `lost`, S3 accepts the PUT and the instance sees a
  // failure.
  datatype FleetEvent = Boot(n: nat) | At(n: nat, e: Event, lost: bool)

  predicate AllBounded(f: Fleet) {
    forall n :: n in f.nodes ==> Bounded(f.nodes[n].world.conn.store)
  }

  function FromManifest(g: Config, history: seq<Pages>): Conn {
    Conn(g, Store(Overlay(history), [], 0, history), Auto, Counters(0, 0, 0), None)
  }

  function Booted(g: Config, f: Fleet, n: nat): Node
    requires AllBounded(f) && f.bucket.versions != []
  {
    var m := Cas.Current(f.bucket).value;
    var c := FromManifest(g, m.history);
    Node(if n in f.nodes then DoCrash(f.nodes[n].world).(conn := c) else Start(c), m.tag)
  }

  // The same step when the PUT fails: the checkpoint fails and has copied nothing; a commit
  // straight to the main file fails and its transaction is rolled back.
  function Refused(g: Config, e: Event): Event {
    match e
    case Finish(t, _) => Event.Finish(t, Flush.Fails(0))
    case RunStmt(t, a) =>
      if g.journal.Wal? then RunStmt(t, a.(flush := Flush.Fails(0)))
      else RunStmt(t, a.(flush := Flush.Fails(0), cursor := Cursor([], [], Faults(false)), fate := Fate(RolledBack, a.fate.counters)))
    case Copy(_) => Copy(0)
    case _ => e
  }

  // What a step would publish, and whether it would publish anything.
  function Published(cfg: Cfg, w: World, e: Event): seq<Pages>
    requires Bounded(w.conn.store)
  {
    StepBounded(cfg, w, e);
    DurableHistory(Step(cfg, w, e).conn.store)
  }

  function NodeStep(cfg: Cfg, g: Config, f: Fleet, n: nat, e: Event, lost: bool): Fleet
    requires AllBounded(f) && n in f.nodes
  {
    var node := f.nodes[n];
    var history := Published(cfg, node.world, e);
    if history == DurableHistory(node.world.conn.store) then
      f.(nodes := f.nodes[n := node.(world := Step(cfg, node.world, e))])
    else
      match Cas.Put(f.bucket, Some(node.tag), history)
      case Err(_) => f.(nodes := f.nodes[n := node.(world := Step(cfg, node.world, Refused(g, e)))])
      case Ok(b) =>
        if lost then Fleet(b, f.nodes[n := node.(world := Step(cfg, node.world, Refused(g, e)))])
        else Fleet(b, f.nodes[n := Node(Step(cfg, node.world, e), Cas.NextTag(f.bucket))])
  }

  // A disabled event changes nothing; the end of a container is its next boot.
  function FleetStep(cfg: Cfg, g: Config, f: Fleet, e: FleetEvent): Fleet
    requires AllBounded(f)
  {
    match e
    case Boot(n) => if f.bucket.versions == [] then f else f.(nodes := f.nodes[n := Booted(g, f, n)])
    case At(n, e, lost) => if n !in f.nodes || e.Crash? then f else NodeStep(cfg, g, f, n, e, lost)
  }

  lemma FleetStepBounded(cfg: Cfg, g: Config, f: Fleet, e: FleetEvent)
    requires AllBounded(f)
    ensures AllBounded(FleetStep(cfg, g, f, e))
  {
    if e.At? && e.n in f.nodes {
      StepBounded(cfg, f.nodes[e.n].world, e.e);
      StepBounded(cfg, f.nodes[e.n].world, Refused(g, e.e));
    }
  }

  function FleetRun(cfg: Cfg, g: Config, f: Fleet, es: seq<FleetEvent>): (h: Fleet)
    requires AllBounded(f)
    ensures AllBounded(h)
  {
    if es == [] then f
    else
      var h := FleetRun(cfg, g, f, es[..|es| - 1]);
      FleetStepBounded(cfg, g, h, es[|es| - 1]);
      FleetStep(cfg, g, h, es[|es| - 1])
  }

  // ---------------------------------------------------------------- the invariant

  // The instance's durable history is a published version, under the tag it remembers.
  ghost predicate Saw(b: Cas.Bucket, tag: nat, history: seq<Pages>) {
    exists i :: 0 <= i < |b.versions| && b.versions[i] == Cas.Manifest(tag, history)
  }

  ghost predicate NodeInv(cfg: Cfg, g: Config, b: Cas.Bucket, node: Node) {
    CrashSafety.Inv(cfg, g, node.world) && Saw(b, node.tag, DurableHistory(node.world.conn.store))
  }

  ghost predicate FleetInv(cfg: Cfg, g: Config, f: Fleet) {
    && f.bucket.versions != [] && Cas.Chain(f.bucket.versions)
    && (forall n :: n in f.nodes ==> NodeInv(cfg, g, f.bucket, f.nodes[n]))
  }

  lemma SawWithin(b: Cas.Bucket, tag: nat, history: seq<Pages>)
    requires b.versions != [] && Cas.Chain(b.versions) && Saw(b, tag, history)
    ensures history <= Cas.Current(b).value.history
    ensures Cas.Matches(b, Some(tag)) ==> history == Cas.Current(b).value.history
  {
  }

  lemma PutKeeps(b: Cas.Bucket, tag: nat, base: seq<Pages>, history: seq<Pages>)
    requires b.versions != [] && Cas.Chain(b.versions) && Saw(b, tag, base) && base <= history
    requires Cas.Matches(b, Some(tag))
    ensures var d := Cas.Put(b, Some(tag), history).value;
            && d.versions == b.versions + [Cas.Manifest(Cas.NextTag(b), history)]
            && Cas.Chain(d.versions)
            && Saw(d, Cas.NextTag(b), history)
  {
    SawWithin(b, tag, base);
    var d := Cas.Put(b, Some(tag), history).value;
    assert d.versions[|b.versions|] == Cas.Manifest(Cas.NextTag(b), history);
    forall i, j | 0 <= i < j < |d.versions|
      ensures d.versions[i].tag < d.versions[j].tag && d.versions[i].history <= d.versions[j].history
    {
      if j == |b.versions| && i < |b.versions| - 1 {
        assert b.versions[i].history <= b.versions[|b.versions| - 1].history;
      }
    }
  }

  lemma StillSaw(b: Cas.Bucket, m: Cas.Manifest, tag: nat, history: seq<Pages>)
    requires Saw(b, tag, history)
    ensures Saw(Cas.Bucket(b.versions + [m]), tag, history)
  {
    var i :| 0 <= i < |b.versions| && b.versions[i] == Cas.Manifest(tag, history);
    assert (b.versions + [m])[i] == b.versions[i];
  }

  // An instance that starts sees the current manifest and nothing else, holds its tag, and
  // keeps only who was answered.
  lemma BootReadsTheManifest(cfg: Cfg, g: Config, f: Fleet, n: nat)
    requires AllBounded(f) && f.bucket.versions != []
    ensures var node := FleetStep(cfg, g, f, Boot(n)).nodes[n];
            var m := f.bucket.versions[|f.bucket.versions| - 1];
            && node.tag == m.tag && node.world.conn.config == g
            && View(node.world.conn) == Overlay(m.history) && node.world.conn.store.committed == m.history
            && node.world.conn.txn.Auto? && node.world.lock.Free?
            && (forall t :: t in node.world.threads ==> node.world.threads[t].Answered?)
  {
    var c := FromManifest(g, f.bucket.versions[|f.bucket.versions| - 1].history);
    assert Visible(c.store) == Overlay(c.store.committed) + map[];
  }

  // ---------------------------------------------------------------- refused checkpoints

  lemma NothingCopied(s: Store)
    requires Bounded(s)
    ensures Backfill(s, 0) == s
  {
  }

  lemma RefusedStatement(c: Conn, s: Stmt, a: Attempt)
    requires Sqlite.Valid(c) && c.config.journal.Wal? && Runnable(c.txn, s) && a.flush == Flush.Fails(0)
    ensures var d := Perform(c, s, a); Bounded(d.store) && DurableHistory(d.store) == DurableHistory(c.store)
  {
    PerformTxn(c, s, a);
    if s.WalCheckpoint? {
      NothingCopied(c.store);
    } else {
      CommitToWalValid(c.store, Batch(c, a));
    }
  }

  lemma RefusedExecute(c: Conn, req: Request, a: Attempt, cap: Option<nat>)
    requires Sqlite.Valid(c) && c.config.journal.Wal? && a.flush == Flush.Fails(0)
    ensures var d := Execute(c, req, a, cap).0; Bounded(d.store) && DurableHistory(d.store) == DurableHistory(c.store)
  {
    if Steps(c, req) {
      RefusedStatement(c, req.sql.stmt, a);
    }
  }

  lemma FaultedExecute(c: Conn, req: Request, a: Attempt, cap: Option<nat>)
    requires Bounded(c.store) && a.cursor == Cursor([], [], Faults(false)) && a.fate.effect.RolledBack?
    ensures Execute(c, req, a, cap).0.store == c.store
  {
  }

  lemma RefusedConclude(c: Conn, wasInTxn: bool, r: Result<ExecOutcome, SqlError>, mode: CheckpointMode)
    requires Sqlite.Valid(c)
    ensures Conclude(c, wasInTxn, r, mode, Flush.Fails(0)).0 == c
  {
    NothingCopied(c.store);
  }

  lemma RefusedRun(g: Config, c: Conn, req: Request, a: Attempt, cap: Option<nat>)
    requires Sqlite.Valid(c) && c.config == g
    ensures var d := Execute(c, req, Refused(g, RunStmt(0, a)).attempt, cap).0;
            Bounded(d.store) && DurableHistory(d.store) == DurableHistory(c.store)
  {
    var refused := Refused(g, RunStmt(0, a)).attempt;
    if g.journal.Wal? {
      RefusedExecute(c, req, refused, cap);
    } else {
      FaultedExecute(c, req, refused, cap);
    }
  }

  // A refused step makes nothing durable.
  lemma RefusedKeepsDurable(cfg: Cfg, g: Config, w: World, e: Event)
    requires Inv(cfg, g, w) && !e.Crash?
    ensures Published(cfg, w, Refused(g, e)) == DurableHistory(w.conn.store)
  {
    match e {
      case RunStmt(t, a) =>
        if Holds(w, t) && w.threads[t].job.pc.Armed? {
          RefusedRun(g, w.conn, w.threads[t].job.req, a, cfg.settings.maxRows);
        }
      case Finish(t, _) =>
        if Holds(w, t) && w.threads[t].job.pc.Cleared? {
          RefusedConclude(w.conn, w.threads[t].job.pc.wasInTxn, w.threads[t].job.pc.r, cfg.mode);
        }
      case Copy(_) => NothingCopied(w.conn.store);
      case _ =>
    }
  }

  // ---------------------------------------------------------------- every step keeps it

  lemma BootInv(cfg: Cfg, g: Config, f: Fleet, n: nat)
    requires FleetInv(cfg, g, f) && AllBounded(f)
    ensures NodeInv(cfg, g, f.bucket, Booted(g, f, n))
  {
    var m := Cas.Current(f.bucket).value;
    var c := FromManifest(g, m.history);
    assert DurableHistory(c.store) == m.history;
    assert f.bucket.versions[|f.bucket.versions| - 1] == Cas.Manifest(m.tag, m.history);
    if n in f.nodes {
      var w := f.nodes[n].world;
      SawWithin(f.bucket, f.nodes[n].tag, DurableHistory(w.conn.store));
      RestartInv(cfg, g, w, c);
    } else {
      StartInv(cfg, c);
    }
  }

  lemma RestartInv(cfg: Cfg, g: Config, w: World, c: Conn)
    requires Inv(cfg, g, w) && Sqlite.Valid(c) && c.config == g && c.deadline == None
    requires DurableHistory(w.conn.store) <= DurableHistory(c.store)
    ensures Inv(cfg, g, DoCrash(w).(conn := c))
  {
    AckInvKept(cfg, w, DoCrash(w).(conn := c));
  }

  // A node after a step that published nothing.
  lemma QuietInv(cfg: Cfg, g: Config, b: Cas.Bucket, node: Node, e: Event)
    requires NodeInv(cfg, g, b, node) && Published(cfg, node.world, e) == DurableHistory(node.world.conn.store)
    ensures NodeInv(cfg, g, b, node.(world := Step(cfg, node.world, e)))
  {
    StepInv(cfg, g, node.world, e);
  }

  lemma OthersKeep(cfg: Cfg, g: Config, f: Fleet, m: Cas.Manifest)
    requires FleetInv(cfg, g, f)
    ensures forall k :: k in f.nodes ==> NodeInv(cfg, g, Cas.Bucket(f.bucket.versions + [m]), f.nodes[k])
  {
    forall k | k in f.nodes ensures NodeInv(cfg, g, Cas.Bucket(f.bucket.versions + [m]), f.nodes[k]) {
      StillSaw(f.bucket, m, f.nodes[k].tag, DurableHistory(f.nodes[k].world.conn.store));
    }
  }

  // What a publishing step does: the PUT decides between the step and its refused form.
  lemma PublishOutcome(cfg: Cfg, g: Config, f: Fleet, n: nat, e: Event, lost: bool)
    requires AllBounded(f) && n in f.nodes
    requires Published(cfg, f.nodes[n].world, e) != DurableHistory(f.nodes[n].world.conn.store)
    ensures var node := f.nodes[n];
            var h := NodeStep(cfg, g, f, n, e, lost);
            var accepted := Cas.Matches(f.bucket, Some(node.tag));
            && h.bucket == (if accepted then Cas.Put(f.bucket, Some(node.tag), Published(cfg, node.world, e)).value else f.bucket)
            && h.nodes == f.nodes[n := if accepted && !lost then Node(Step(cfg, node.world, e), Cas.NextTag(f.bucket))
                                       else node.(world := Step(cfg, node.world, Refused(g, e)))]
  {
  }

  // The publisher itself, afterwards.
  lemma PublisherInv(cfg: Cfg, g: Config, b: Cas.Bucket, node: Node, e: Event, lost: bool)
    requires NodeInv(cfg, g, b, node) && b.versions != [] && Cas.Chain(b.versions) && !e.Crash?
    requires Cas.Matches(b, Some(node.tag))
    ensures var d := Cas.Put(b, Some(node.tag), Published(cfg, node.world, e)).value;
            && d.versions != [] && Cas.Chain(d.versions) && b.versions <= d.versions
            && NodeInv(cfg, g, d, if lost then node.(world := Step(cfg, node.world, Refused(g, e)))
                                  else Node(Step(cfg, node.world, e), Cas.NextTag(b)))
  {
    var w := node.world;
    var history := Published(cfg, w, e);
    StepKeepsHistory(cfg, g, w, e);
    PutKeeps(b, node.tag, DurableHistory(w.conn.store), history);
    if lost {
      StillSaw(b, Cas.Manifest(Cas.NextTag(b), history), node.tag, DurableHistory(w.conn.store));
      RefusedKeepsDurable(cfg, g, w, e);
      StepInv(cfg, g, w, Refused(g, e));
    } else {
      StepInv(cfg, g, w, e);
    }
  }

  lemma PublishInv(cfg: Cfg, g: Config, f: Fleet, n: nat, e: Event, lost: bool)
    requires FleetInv(cfg, g, f) && AllBounded(f) && n in f.nodes && !e.Crash?
    requires Published(cfg, f.nodes[n].world, e) != DurableHistory(f.nodes[n].world.conn.store)
    requires Cas.Matches(f.bucket, Some(f.nodes[n].tag))
    ensures FleetInv(cfg, g, NodeStep(cfg, g, f, n, e, lost)) && f.bucket.versions <= NodeStep(cfg, g, f, n, e, lost).bucket.versions
  {
    PublishOutcome(cfg, g, f, n, e, lost);
    PublisherInv(cfg, g, f.bucket, f.nodes[n], e, lost);
    OthersKeep(cfg, g, f, Cas.Manifest(Cas.NextTag(f.bucket), Published(cfg, f.nodes[n].world, e)));
  }

  lemma RefusedInv(cfg: Cfg, g: Config, f: Fleet, n: nat, e: Event, lost: bool)
    requires FleetInv(cfg, g, f) && AllBounded(f) && n in f.nodes && !e.Crash?
    requires Published(cfg, f.nodes[n].world, e) != DurableHistory(f.nodes[n].world.conn.store)
    requires !Cas.Matches(f.bucket, Some(f.nodes[n].tag))
    ensures FleetInv(cfg, g, NodeStep(cfg, g, f, n, e, lost)) && NodeStep(cfg, g, f, n, e, lost).bucket == f.bucket
  {
    PublishOutcome(cfg, g, f, n, e, lost);
    RefusedKeepsDurable(cfg, g, f.nodes[n].world, e);
    QuietInv(cfg, g, f.bucket, f.nodes[n], Refused(g, e));
  }

  lemma FleetStepInv(cfg: Cfg, g: Config, f: Fleet, e: FleetEvent)
    requires FleetInv(cfg, g, f) && AllBounded(f)
    ensures FleetInv(cfg, g, FleetStep(cfg, g, f, e))
    ensures f.bucket.versions <= FleetStep(cfg, g, f, e).bucket.versions
  {
    match e {
      case Boot(n) => BootInv(cfg, g, f, n);
      case At(n, e, lost) =>
        if n in f.nodes && !e.Crash? {
          if Published(cfg, f.nodes[n].world, e) == DurableHistory(f.nodes[n].world.conn.store) {
            QuietInv(cfg, g, f.bucket, f.nodes[n], e);
          } else if Cas.Matches(f.bucket, Some(f.nodes[n].tag)) {
            PublishInv(cfg, g, f, n, e, lost);
          } else {
            RefusedInv(cfg, g, f, n, e, lost);
          }
        }
    }
  }

  lemma {:induction false} FleetRunInv(cfg: Cfg, g: Config, f: Fleet, es: seq<FleetEvent>)
    requires FleetInv(cfg, g, f) && AllBounded(f)
    ensures FleetInv(cfg, g, FleetRun(cfg, g, f, es))
    ensures f.bucket.versions <= FleetRun(cfg, g, f, es).bucket.versions
  {
    if es != [] {
      FleetRunInv(cfg, g, f, es[..|es| - 1]);
      FleetStepInv(cfg, g, FleetRun(cfg, g, f, es[..|es| - 1]), es[|es| - 1]);
    }
  }

  // ---------------------------------------------------------------- the theorems

  // A manifest is published, and nobody has opened the prefix yet.
  function Seeded(m: Cas.Manifest): Fleet {
    Fleet(Cas.Bucket([m]), map[])
  }

  // No instance loses what any instance acknowledged. In every run of any number of
  // instances over a seeded manifest, with all their requests, panics, background copies,
  // refused and lost PUTs and restarts: whatever was acknowledged at some point was answered
  // Ok and is a prefix of the current manifest then and of every later version, so every
  // instance that starts later has it.
  lemma FleetKeepsAcknowledged(cfg: Cfg, g: Config, m: Cas.Manifest, before: seq<FleetEvent>, after: seq<FleetEvent>, n: nat, t: nat)
    requires Safe(cfg.mode, g.journal)
    requires var f := FleetRun(cfg, g, Seeded(m), before); n in f.nodes && t in f.nodes[n].world.acks
    ensures var f := FleetRun(cfg, g, Seeded(m), before);
            var h := FleetRun(cfg, g, f, after);
            var w := f.nodes[n].world;
            && t in w.threads && w.threads[t].Answered? && w.threads[t].ans.Ok?
            && f.bucket.versions != [] && f.bucket.versions <= h.bucket.versions && Cas.Chain(h.bucket.versions)
            && forall i :: |f.bucket.versions| - 1 <= i < |h.bucket.versions| ==> w.acks[t] <= h.bucket.versions[i].history
  {
    FleetRunInv(cfg, g, Seeded(m), before);
    var f := FleetRun(cfg, g, Seeded(m), before);
    FleetRunInv(cfg, g, f, after);
    AckedIsPublished(cfg, g, f, n, t);
    LaterVersionsExtend(f.bucket, FleetRun(cfg, g, f, after).bucket);
  }

  lemma AckedIsPublished(cfg: Cfg, g: Config, f: Fleet, n: nat, t: nat)
    requires FleetInv(cfg, g, f) && Safe(cfg.mode, g.journal) && n in f.nodes && t in f.nodes[n].world.acks
    ensures var w := f.nodes[n].world;
            && t in w.threads && w.threads[t].Answered? && w.threads[t].ans.Ok?
            && w.acks[t] <= Cas.Current(f.bucket).value.history
  {
    SawWithin(f.bucket, f.nodes[n].tag, DurableHistory(f.nodes[n].world.conn.store));
  }

  lemma LaterVersionsExtend(b: Cas.Bucket, d: Cas.Bucket)
    requires b.versions != [] && b.versions <= d.versions && Cas.Chain(d.versions)
    ensures forall i :: |b.versions| - 1 <= i < |d.versions| ==> Cas.Current(b).value.history <= d.versions[i].history
  {
    assert b.versions[|b.versions| - 1] == d.versions[|b.versions| - 1];
  }

  // Seen from `exec_durable`, the refused PUT is a failing checkpoint pragma: in every
  // mode that checkpoints, the write that passed the gate is not answered Ok.
  lemma RefusedPutIsNotAnsweredOk(c: Conn, wasInTxn: bool, out: ExecOutcome, mode: CheckpointMode, reach: nat)
    requires Bounded(c.store) && NeedsCheckpoint(c, wasInTxn, out.readonly) && !mode.Off?
    ensures Conclude(c, wasInTxn, Ok(out), mode, Fails(reach)).1 == Err(ExecError.Checkpoint(PragmaFailed))
  {
  }

  lemma AcceptedPutIsAnsweredOk(c: Conn, wasInTxn: bool, out: ExecOutcome, log: I64, checkpointed: I64)
    requires Bounded(c.store) && NeedsCheckpoint(c, wasInTxn, out.readonly)
    ensures Conclude(c, wasInTxn, Ok(out), Truncate, Row(0, log, checkpointed, 0)).1 == Ok(out)
  {
    InternalCheckpointAllowed(TRUNCATE);
  }

  // The request that holds the lock is at its gate, the gate is open, and there is
  // something to flush.
  ghost predicate AtOpenGate(w: World, t: nat)
    requires Bounded(w.conn.store)
  {
    && Holds(w, t) && w.threads[t].job.pc.Cleared? && w.threads[t].job.pc.r.Ok?
    && NeedsCheckpoint(w.conn, w.threads[t].job.pc.wasInTxn, w.threads[t].job.pc.r.value.readonly)
    && DurableHistory(w.conn.store) != w.conn.store.committed
  }

  lemma GateAccepted(cfg: Cfg, g: Config, w: World, t: nat, log: I64, checkpointed: I64)
    requires Inv(cfg, g, w) && g.journal.Wal? && cfg.mode.Truncate? && AtOpenGate(w, t)
    ensures var e := Event.Finish(t, Row(0, log, checkpointed, 0));
            var v := Step(cfg, w, e);
            && Published(cfg, w, e) == w.conn.store.committed
            && t in v.threads && v.threads[t].Answered? && v.threads[t].ans.Ok?
  {
    var pc := w.threads[t].job.pc;
    ConcludeSpec(w.conn, pc.wasInTxn, pc.r, cfg.mode, Row(0, log, checkpointed, 0));
    AcceptedPutIsAnsweredOk(w.conn, pc.wasInTxn, pc.r.value, log, checkpointed);
  }

  lemma GateRefused(cfg: Cfg, g: Config, w: World, t: nat)
    requires Inv(cfg, g, w) && cfg.mode.Truncate? && AtOpenGate(w, t)
    ensures var v := Step(cfg, w, Event.Finish(t, Flush.Fails(0)));
            && t in v.threads && v.threads[t] == Answered(Err(ExecError.Checkpoint(PragmaFailed)))
            && v.acks == w.acks
  {
    RefusedPutIsNotAnsweredOk(w.conn, w.threads[t].job.pc.wasInTxn, w.threads[t].job.pc.r.value, cfg.mode, 0);
  }

  // What the answer of `t` says in a world, given what happened to its PUT.
  ghost predicate AnswerShows(w: World, v: World, t: nat, ok: bool) {
    && t in v.threads && v.threads[t].Answered?
    && (v.threads[t].ans.Ok? <==> ok)
    && (v.threads[t].ans.Err? ==> v.threads[t].ans.error == ExecError.Checkpoint(PragmaFailed) && v.acks == w.acks)
  }

  lemma GateOutcome(cfg: Cfg, g: Config, w: World, t: nat, log: I64, checkpointed: I64, ok: bool)
    requires Inv(cfg, g, w) && g.journal.Wal? && cfg.mode.Truncate? && AtOpenGate(w, t)
    ensures var e := Event.Finish(t, Row(0, log, checkpointed, 0));
            && Published(cfg, w, e) == w.conn.store.committed
            && AnswerShows(w, Step(cfg, w, if ok then e else Refused(g, e)), t, ok)
  {
    GateAccepted(cfg, g, w, t, log, checkpointed);
    GateRefused(cfg, g, w, t);
  }

  // A request whose write is not durable yet reaches its gate, and its checkpoint would
  // complete: the answer is decided by the conditional PUT. Ok if and only if the instance's
  // tag is the current one and the response arrives; else a checkpoint error, and nothing
  // is acknowledged.
  lemma PutDecidesTheAnswer(cfg: Cfg, g: Config, f: Fleet, n: nat, t: nat, log: I64, checkpointed: I64, lost: bool)
    requires FleetInv(cfg, g, f) && AllBounded(f) && g.journal.Wal? && cfg.mode.Truncate?
    requires n in f.nodes && AtOpenGate(f.nodes[n].world, t)
    ensures var w := f.nodes[n].world;
            var h := NodeStep(cfg, g, f, n, Event.Finish(t, Row(0, log, checkpointed, 0)), lost);
            var accepted := Cas.Matches(f.bucket, Some(f.nodes[n].tag));
            && AnswerShows(w, h.nodes[n].world, t, accepted && !lost)
            && h.bucket.versions == f.bucket.versions
                 + (if accepted then [Cas.Manifest(Cas.NextTag(f.bucket), w.conn.store.committed)] else [])
  {
    GateOutcome(cfg, g, f.nodes[n].world, t, log, checkpointed, Cas.Matches(f.bucket, Some(f.nodes[n].tag)) && !lost);
    PublishOutcome(cfg, g, f, n, Event.Finish(t, Row(0, log, checkpointed, 0)), lost);
  }
}
