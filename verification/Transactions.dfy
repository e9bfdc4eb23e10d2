/** What an explicit transaction commits. The reference is an undo journal of writes and
    savepoint marks; the connection keeps one merged page map per savepoint. The two agree,
    and over any run the journal's surviving writes are committed together or not at all. */
module Transactions {
  import opened Prelude
  import opened Ascii
  import opened Storage
  import opened Sqlite
  import opened Policy
  import opened Durable
  import opened Calls
  import opened Machine
  import opened CrashSafety
  import opened Linearizability
  import opened Acknowledged

  // ---------------------------------------------------------------- the undo journal

  datatype Item = Wrote(pages: Pages) | Mark(name: string)

  // The writes that survive, oldest first.
  function Writes(items: seq<Item>): seq<Pages> {
    if items == [] then []
    else
      var n := |items| - 1;
      if items[n].Wrote? then Writes(items[..n]) + [items[n].pages] else Writes(items[..n])
  }

  predicate Marks(item: Item, name: string) {
    item.Mark? && EqIgnoreCase(item.name, name)
  }

  // ROLLBACK TO: forget everything after the latest mark of that name.
  function CutTo(items: seq<Item>, name: string): seq<Item> {
    if items == [] || Marks(items[|items| - 1], name) then items else CutTo(items[..|items| - 1], name)
  }

  // RELEASE: forget the latest mark of that name and the marks after it, keep the writes.
  function Merge(items: seq<Item>, name: string): seq<Item> {
    if items == [] then []
    else
      var n := |items| - 1;
      if Marks(items[n], name) then items[..n]
      else if items[n].Wrote? then Merge(items[..n], name) + [items[n]]
      else Merge(items[..n], name)
  }

  function Replay(items: seq<Item>, s: Stmt, a: Attempt): seq<Item> {
    match s
    case Dml => items + [Wrote(a.writes)]
    case Ddl => items + [Wrote(a.writes)]
    case Savepoint(name) => items + [Mark(name)]
    case Release(name) => Merge(items, name)
    case RollbackTo(name) => CutTo(items, name)
    case _ => items
  }

  // ---------------------------------------------------------------- agreement

  function Saves(items: seq<Item>): seq<Save> {
    if items == [] then []
    else
      var n := |items| - 1;
      if items[n].Mark? then Saves(items[..n]) + [Save(items[n].name, Overlay(Writes(items[..n])))] else Saves(items[..n])
  }

  ghost predicate Represents(t: Txn, items: seq<Item>) {
    t.Open? && t.pending == Overlay(Writes(items)) && t.saves == Saves(items)
  }

  lemma Snoc(items: seq<Item>, item: Item)
    ensures Writes(items + [item]) == if item.Wrote? then Writes(items) + [item.pages] else Writes(items)
    ensures Saves(items + [item]) == if item.Mark? then Saves(items) + [Save(item.name, Overlay(Writes(items)))] else Saves(items)
  {
  }

  lemma LastSaveSnoc(saves: seq<Save>, last: Save, name: string)
    requires HasSave(saves + [last], name)
    ensures !EqIgnoreCase(last.name, name) ==> HasSave(saves, name)
    ensures LastSave(saves + [last], name) == if EqIgnoreCase(last.name, name) then |saves| else LastSave(saves, name)
  {
  }

  lemma {:induction false} CutAgrees(items: seq<Item>, name: string)
    requires HasSave(Saves(items), name)
    ensures var i := LastSave(Saves(items), name);
            CutsAt(items, name, i)
  {
    var n := |items| - 1;
    var saves := Saves(items[..n]);
    if Marks(items[n], name) {
      LastSaveSnoc(saves, Save(items[n].name, Overlay(Writes(items[..n]))), name);
      assert Saves(items)[..|saves| + 1] == Saves(items);
    } else if items[n].Mark? {
      LastSaveSnoc(saves, Save(items[n].name, Overlay(Writes(items[..n]))), name);
      CutAgrees(items[..n], name);
      CutsFurther(items, name, LastSave(saves, name));
    } else {
      CutAgrees(items[..n], name);
    }
  }

  ghost predicate CutsAt(items: seq<Item>, name: string, i: nat) {
    && i < |Saves(items)|
    && Saves(CutTo(items, name)) == Saves(items)[..i + 1]
    && Overlay(Writes(CutTo(items, name))) == Saves(items)[i].pending
  }

  lemma CutsFurther(items: seq<Item>, name: string, i: nat)
    requires items != [] && items[|items| - 1].Mark? && !Marks(items[|items| - 1], name) && CutsAt(items[..|items| - 1], name, i)
    ensures CutsAt(items, name, i)
  {
  }

  lemma {:induction false} MergeKeepsWrites(items: seq<Item>, name: string)
    ensures Writes(Merge(items, name)) == Writes(items)
  {
    if items != [] {
      var n := |items| - 1;
      MergeKeepsWrites(items[..n], name);
      if items[n].Wrote? {
        Snoc(Merge(items[..n], name), items[n]);
      }
    }
  }

  lemma PrefixOfPrefix(saves: seq<Save>, last: Save, i: nat)
    requires i <= |saves|
    ensures (saves + [last])[..i] == saves[..i]
  {
  }

  lemma {:induction false} MergeAgrees(items: seq<Item>, name: string)
    requires HasSave(Saves(items), name)
    ensures Saves(Merge(items, name)) == Saves(items)[..LastSave(Saves(items), name)]
  {
    var n := |items| - 1;
    var saves := Saves(items[..n]);
    if items[n].Mark? {
      var last := Save(items[n].name, Overlay(Writes(items[..n])));
      LastSaveSnoc(saves, last, name);
      if Marks(items[n], name) {
        PrefixOfPrefix(saves, last, |saves|);
      } else {
        MergeAgrees(items[..n], name);
        PrefixOfPrefix(saves, last, LastSave(saves, name));
      }
    } else {
      MergeAgrees(items[..n], name);
      Snoc(Merge(items[..n], name), items[n]);
    }
  }

  lemma WriteAgrees(c: Conn, s: Stmt, a: Attempt, items: seq<Item>)
    requires Bounded(c.store) && Represents(c.txn, items) && (s.Dml? || s.Ddl?)
    ensures Represents(Perform(c, s, a).txn, Replay(items, s, a))
  {
    Snoc(items, Wrote(a.writes));
    OverlaySnoc(Writes(items), a.writes);
  }

  lemma SavepointAgrees(c: Conn, name: string, a: Attempt, items: seq<Item>)
    requires Bounded(c.store) && Represents(c.txn, items)
    ensures Represents(Perform(c, Savepoint(name), a).txn, Replay(items, Savepoint(name), a))
  {
  }

  lemma ReleaseAgrees(c: Conn, name: string, a: Attempt, items: seq<Item>)
    requires Bounded(c.store) && Represents(c.txn, items) && Runnable(c.txn, Release(name)) && !Closes(c.txn, Release(name))
    ensures Represents(Perform(c, Release(name), a).txn, Replay(items, Release(name), a))
  {
    MergeAgrees(items, name);
    MergeKeepsWrites(items, name);
  }

  lemma RollbackToAgrees(c: Conn, name: string, a: Attempt, items: seq<Item>)
    requires Bounded(c.store) && Represents(c.txn, items) && Runnable(c.txn, RollbackTo(name))
    ensures Represents(Perform(c, RollbackTo(name), a).txn, Replay(items, RollbackTo(name), a))
  {
    CutAgrees(items, name);
  }

  // A statement that leaves the transaction open acts on the page maps as on the journal.
  lemma PerformAgrees(c: Conn, s: Stmt, a: Attempt, items: seq<Item>)
    requires Bounded(c.store) && Represents(c.txn, items) && Runnable(c.txn, s) && !Closes(c.txn, s)
    ensures Represents(Perform(c, s, a).txn, Replay(items, s, a))
  {
    match s {
      case Dml => WriteAgrees(c, s, a, items);
      case Ddl => WriteAgrees(c, s, a, items);
      case Savepoint(name) => SavepointAgrees(c, name, a, items);
      case Release(name) => ReleaseAgrees(c, name, a, items);
      case RollbackTo(name) => RollbackToAgrees(c, name, a, items);
      case _ =>
    }
  }

  // ---------------------------------------------------------------- over runs

  // A statement enters the journal if it took effect, whatever its caller was told.
  predicate TakesEffect(c: Conn, req: Request, a: Attempt, cap: Option<nat>) {
    && Steps(c, req)
    && (Fetched(req.sql.stmt, a, cap, req.format).Ok? || a.fate.effect.Applied?)
  }

  function ReplayStep(cfg: Cfg, w: World, e: Event, items: seq<Item>): seq<Item> {
    if e.RunStmt? && Holds(w, e.t) && w.threads[e.t].job.pc.Armed?
       && TakesEffect(w.conn, w.threads[e.t].job.req, e.attempt, cfg.settings.maxRows)
    then Replay(items, w.threads[e.t].job.req.sql.stmt, e.attempt)
    else items
  }

  function ReplayRun(cfg: Cfg, w: World, es: seq<Event>, items: seq<Item>): seq<Item>
    requires Bounded(w.conn.store)
  {
    if es == [] then items
    else ReplayStep(cfg, Run(cfg, w, es[..|es| - 1]), es[|es| - 1], ReplayRun(cfg, w, es[..|es| - 1], items))
  }

  // The transaction is open at the start and after every event.
  ghost predicate StaysOpen(cfg: Cfg, w: World, es: seq<Event>)
    requires Bounded(w.conn.store)
  {
    Run(cfg, w, es).conn.txn.Open? && (es != [] ==> StaysOpen(cfg, w, es[..|es| - 1]))
  }

  // From `c`, whose open transaction is `items`, to `d`.
  ghost predicate OpenOrEnded(c: Conn, d: Conn, items: seq<Item>, replayed: seq<Item>) {
    && (d.txn.Open? ==> d.store.committed == c.store.committed && Represents(d.txn, replayed))
    && (d.txn.Auto? ==> d.store.committed == c.store.committed
                        || d.store.committed == c.store.committed + [Overlay(Writes(items))])
  }

  lemma CompleteInTxn(c: Conn, s: Stmt, actions: seq<AuthAction>, a: Attempt, items: seq<Item>)
    requires Sqlite.Valid(c) && Represents(c.txn, items) && Runnable(c.txn, s) && Permitted(actions)
    ensures OpenOrEnded(c, Complete(c, s, actions, a), items, Replay(items, s, a))
  {
    CompleteSpec(c, s, actions, a);
    PerformTxn(c, s, a);
    if !Closes(c.txn, s) {
      PerformAgrees(c, s, a, items);
    }
  }

  lemma ExecuteInTxn(c: Conn, req: Request, a: Attempt, cap: Option<nat>, items: seq<Item>)
    requires Sqlite.Valid(c) && Represents(c.txn, items)
    ensures OpenOrEnded(c, Execute(c, req, a, cap).0, items, if TakesEffect(c, req, a, cap) then Replay(items, req.sql.stmt, a) else items)
  {
    if TakesEffect(c, req, a, cap) {
      CompleteInTxn(c, req.sql.stmt, req.sql.actions, a, items);
    }
  }

  ghost predicate Outcome(w: World, v: World, items: seq<Item>, replayed: seq<Item>) {
    var before, after := w.conn.store.committed, v.conn.store.committed;
    && (v.conn.txn.Open? ==> after == before && Represents(v.conn.txn, replayed))
    && (v.conn.txn.Auto? ==> after <= before || after == before + [Overlay(Writes(items))])
  }

  lemma RunStmtInTxn(cfg: Cfg, w: World, t: nat, a: Attempt, items: seq<Item>)
    requires Sqlite.Valid(w.conn) && Represents(w.conn.txn, items) && Holds(w, t) && w.threads[t].job.pc.Armed?
    ensures Outcome(w, DoRun(cfg, w, t, a), items, ReplayStep(cfg, w, RunStmt(t, a), items))
  {
    ExecuteInTxn(w.conn, w.threads[t].job.req, a, cfg.settings.maxRows, items);
  }

  lemma FinishInTxn(cfg: Cfg, w: World, t: nat, f: Flush, items: seq<Item>)
    requires Sqlite.Valid(w.conn) && Represents(w.conn.txn, items) && Holds(w, t) && w.threads[t].job.pc.Cleared?
    ensures Outcome(w, DoFinish(cfg, w, t, f), items, items)
  {
  }

  lemma CopyInTxn(w: World, reach: nat, items: seq<Item>)
    requires Sqlite.Valid(w.conn) && Represents(w.conn.txn, items)
    ensures Outcome(w, DoCopy(w, reach), items, items)
  {
  }

  lemma CrashInTxn(w: World, items: seq<Item>)
    requires Sqlite.Valid(w.conn) && Represents(w.conn.txn, items)
    ensures Outcome(w, DoCrash(w), items, items)
  {
    ColdStartSpec(w.conn);
  }

  lemma OtherInTxn(cfg: Cfg, w: World, e: Event, items: seq<Item>)
    requires Sqlite.Valid(w.conn) && Represents(w.conn.txn, items)
    requires !e.RunStmt? && !e.Finish? && !e.Copy? && !e.Crash?
    ensures Outcome(w, Step(cfg, w, e), items, items)
  {
  }

  // One event against an open transaction: it goes on, nothing committed; or it ends, with
  // nothing, everything, or (the container gone) less than before committed.
  lemma StepInTxn(cfg: Cfg, g: Config, w: World, e: Event, items: seq<Item>)
    requires Inv(cfg, g, w) && Represents(w.conn.txn, items)
    ensures Outcome(w, Step(cfg, w, e), items, ReplayStep(cfg, w, e, items))
  {
    match e {
      case RunStmt(t, a) => if Holds(w, t) && w.threads[t].job.pc.Armed? { RunStmtInTxn(cfg, w, t, a, items); }
      case Finish(t, f) => if Holds(w, t) && w.threads[t].job.pc.Cleared? { FinishInTxn(cfg, w, t, f, items); }
      case Copy(reach) => CopyInTxn(w, reach, items);
      case Crash => CrashInTxn(w, items);
      case _ => OtherInTxn(cfg, w, e, items);
    }
  }

  lemma {:induction false} OpenSpan(cfg: Cfg, g: Config, w: World, es: seq<Event>, items: seq<Item>)
    requires Inv(cfg, g, w) && Represents(w.conn.txn, items) && StaysOpen(cfg, w, es)
    ensures var v := Run(cfg, w, es);
            && Inv(cfg, g, v)
            && v.conn.store.committed == w.conn.store.committed
            && Represents(v.conn.txn, ReplayRun(cfg, w, es, items))
  {
    RunInv(cfg, g, w, es);
    if es != [] {
      var init := es[..|es| - 1];
      OpenSpan(cfg, g, w, init, items);
      StepInTxn(cfg, g, Run(cfg, w, init), es[|es| - 1], ReplayRun(cfg, w, init, items));
    }
  }

  // The events before the first crash.
  function UntilCrash(es: seq<Event>): (p: seq<Event>)
    ensures p <= es && Crash !in p
    ensures p == es || es[|p|].Crash?
  {
    if es == [] || es[0].Crash? then [] else [es[0]] + UntilCrash(es[1..])
  }

  lemma WholeOrNone(history: seq<Pages>, committed: seq<Pages>, before: seq<Pages>, batch: Pages)
    requires history <= committed && before + [batch] <= committed
    ensures history <= before || before + [batch] <= history
  {
  }

  lemma SplitRun(cfg: Cfg, v: World, later: seq<Event>)
    requires Bounded(v.conn.store)
    ensures var first := UntilCrash(later);
            Run(cfg, v, later) == Run(cfg, Run(cfg, v, first), later[|first|..])
  {
    var first := UntilCrash(later);
    assert later == first + later[|first|..];
    RunConcat(cfg, v, first, later[|first|..]);
  }

  lemma SplitAtCrash(cfg: Cfg, g: Config, v: World, later: seq<Event>)
    requires Inv(cfg, g, v)
    ensures var y := Run(cfg, v, UntilCrash(later));
            && v.conn.store.committed <= y.conn.store.committed
            && KeepsHistory(y.conn, Run(cfg, v, later).conn)
  {
    SplitRun(cfg, v, later);
    var first := UntilCrash(later);
    RecoverableNeverShrinks(cfg, g, v, first);
    RecoverableNeverShrinks(cfg, g, Run(cfg, v, first), later[|first|..]);
  }

  // A committed batch after any later events: the first crash finds all of it or none.
  lemma CommittedBatchLater(cfg: Cfg, g: Config, v: World, before: seq<Pages>, batch: Pages, later: seq<Event>)
    requires Inv(cfg, g, v) && v.conn.store.committed == before + [batch]
    ensures || DurableHistory(Run(cfg, v, UntilCrash(later)).conn.store) <= before
            || before + [batch] <= DurableHistory(Run(cfg, v, later).conn.store)
  {
    SplitAtCrash(cfg, g, v, later);
    var y := Run(cfg, v, UntilCrash(later));
    WholeOrNone(DurableHistory(y.conn.store), y.conn.store.committed, before, batch);
  }

  lemma EndOfTxn(cfg: Cfg, g: Config, w: World, u: World, last: Event, replayed: seq<Item>)
    requires Inv(cfg, g, u) && u.conn.store.committed == w.conn.store.committed && Represents(u.conn.txn, replayed)
    requires Step(cfg, u, last).conn.txn.Auto?
    ensures var v := Step(cfg, u, last);
            && Inv(cfg, g, v)
            && (v.conn.store.committed <= w.conn.store.committed
                || v.conn.store.committed == w.conn.store.committed + [Overlay(Writes(replayed))])
  {
    StepInTxn(cfg, g, u, last, replayed);
    StepInv(cfg, g, u, last);
  }

  // All or nothing. Take any run with an open transaction, any events that leave it open
  // (errors, savepoint rollbacks, other requests, panics, copies), any event that ends it,
  // and any `later` events. While it is open a cold start recovers nothing of it. Its end
  // commits nothing of it, or exactly the journal's surviving writes as one batch. In the
  // latter case the first crash among the later events recovers none of the batch, or the
  // batch is recovered whole, right after the history before it, and stays so after all of
  // them, further crashes included.
  lemma AllOrNothing(cfg: Cfg, g: Config, w: World, es: seq<Event>, last: Event, later: seq<Event>, items: seq<Item>)
    requires Inv(cfg, g, w) && Represents(w.conn.txn, items) && StaysOpen(cfg, w, es)
    requires Step(cfg, Run(cfg, w, es), last).conn.txn.Auto?
    ensures var u := Run(cfg, w, es);
            var v := Run(cfg, w, es + [last]);
            var before := w.conn.store.committed;
            var all := before + [Overlay(Writes(ReplayRun(cfg, w, es, items)))];
            && DurableHistory(u.conn.store) <= before
            && (v.conn.store.committed <= before || v.conn.store.committed == all)
            && (v.conn.store.committed == all ==>
                  || DurableHistory(Run(cfg, v, UntilCrash(later)).conn.store) <= before
                  || all <= DurableHistory(Run(cfg, v, later).conn.store))
  {
    OpenSpan(cfg, g, w, es, items);
    var u := Run(cfg, w, es);
    RunSnoc(cfg, w, es, last);
    var replayed := ReplayRun(cfg, w, es, items);
    EndOfTxn(cfg, g, w, u, last, replayed);
    var v := Step(cfg, u, last);
    if v.conn.store.committed == w.conn.store.committed + [Overlay(Writes(replayed))] {
      CommittedBatchLater(cfg, g, v, w.conn.store.committed, Overlay(Writes(replayed)), later);
    }
  }

  // ---------------------------------------------------------------- the answer that closes it

  // The history a closing statement makes.
  function Closed(before: seq<Pages>, s: Stmt, surviving: Pages): seq<Pages> {
    if s.Rollback? || surviving == map[] then before else before + [surviving]
  }

  lemma ClosingStatement(c: Conn, req: Request, a: Attempt, cap: Option<nat>)
    requires Sqlite.Valid(c) && c.txn.Open? && Execute(c, req, a, cap).1.Ok? && Execute(c, req, a, cap).0.txn.Auto?
    ensures Execute(c, req, a, cap).0.store.committed == Closed(c.store.committed, req.sql.stmt, c.txn.pending)
  {
    OkMeansPerformed(c, req, a, cap);
    PerformTxn(c, req.sql.stmt, a);
    CommitBatchSpec(c, c.txn.pending);
  }

  // `t` has closed a transaction and still holds the lock, or is answered.
  ghost predicate Ending(w: World, t: nat, history: seq<Pages>, ok: bool) {
    && t in w.threads
    && (w.threads[t].Answered?
        || (Holds(w, t) && var job := w.threads[t].job;
            HasRun(job.pc) && job.pc.wasInTxn && job.pc.r.Ok? == ok && w.conn.txn.Auto? && w.conn.store.committed == history))
  }

  // While it holds the lock, only clearing the deadline and background copies go by.
  lemma HolderEnding(cfg: Cfg, w: World, e: Event, t: nat, history: seq<Pages>, ok: bool)
    requires Bounded(w.conn.store) && Ending(w, t, history, ok) && Holds(w, t) && (e.ClearDeadline? || e.Copy?)
    ensures Ending(Step(cfg, w, e), t, history, ok)
  {
  }

  lemma OtherEnding(cfg: Cfg, w: World, e: Event, t: nat, history: seq<Pages>, ok: bool)
    requires Bounded(w.conn.store) && Ending(w, t, history, ok) && Holds(w, t)
    requires !e.ClearDeadline? && !e.Copy? && !e.Crash?
    ensures Ending(Step(cfg, w, e), t, history, ok)
  {
  }

  lemma StepEnding(cfg: Cfg, w: World, e: Event, t: nat, history: seq<Pages>, ok: bool)
    requires Bounded(w.conn.store) && Ending(w, t, history, ok) && !e.Crash?
    ensures Ending(Step(cfg, w, e), t, history, ok)
  {
    if w.threads[t].Answered? {
      AnswersStay(cfg, w, e);
      assert AnsweredIn(Step(cfg, w, e), t);
    } else if e.ClearDeadline? || e.Copy? {
      HolderEnding(cfg, w, e, t, history, ok);
    } else {
      OtherEnding(cfg, w, e, t, history, ok);
    }
  }

  lemma {:induction false} RunEnding(cfg: Cfg, w: World, es: seq<Event>, t: nat, history: seq<Pages>, ok: bool)
    requires Bounded(w.conn.store) && Ending(w, t, history, ok) && Crash !in es
    ensures Ending(Run(cfg, w, es), t, history, ok)
  {
    if es != [] {
      RunEnding(cfg, w, es[..|es| - 1], t, history, ok);
      StepEnding(cfg, Run(cfg, w, es[..|es| - 1]), es[|es| - 1], t, history, ok);
    }
  }

  // The gate opens for whoever closed a transaction, so Ok means flushed.
  lemma FinishEnding(cfg: Cfg, g: Config, w: World, t: nat, flush: Flush, history: seq<Pages>, ok: bool)
    requires Inv(cfg, g, w) && Safe(cfg.mode, g.journal)
    requires Ending(w, t, history, ok) && Holds(w, t) && w.threads[t].job.pc.Cleared?
    ensures var v := DoFinish(cfg, w, t, flush);
            && Inv(cfg, g, v) && v.threads[t].Answered?
            && (v.threads[t].ans.Ok? ==> ok && DurableHistory(v.conn.store) == history)
  {
    FinishInv(cfg, g, w, t, flush);
    ConcludeSpec(w.conn, w.threads[t].job.pc.wasInTxn, w.threads[t].job.pc.r, cfg.mode, flush);
  }

  lemma SampledRight(cfg: Cfg, c: Conn, es: seq<Event>, t: nat)
    requires Sqlite.Valid(c)
    requires var w := Run(cfg, Start(c), es); Holds(w, t) && w.threads[t].job.pc.Armed?
    ensures var w := Run(cfg, Start(c), es); w.threads[t].job.pc.wasInTxn == w.conn.txn.Open?
  {
    SimOfRun(cfg, c, es);
  }

  // From just after the closing statement to its answer and beyond.
  lemma EndingToAnswer(cfg: Cfg, g: Config, v: World, t: nat, mid: seq<Event>, flush: Flush, later: seq<Event>, history: seq<Pages>, ok: bool)
    requires Inv(cfg, g, v) && Safe(cfg.mode, g.journal) && Ending(v, t, history, ok) && Crash !in mid
    requires var z := Run(cfg, v, mid); Holds(z, t) && z.threads[t].job.pc.Cleared?
    ensures var x := Step(cfg, Run(cfg, v, mid), Event.Finish(t, flush));
            && Inv(cfg, g, x) && t in x.threads && x.threads[t].Answered?
            && (x.threads[t].ans.Ok? ==> ok && history <= DurableHistory(Run(cfg, x, later).conn.store))
  {
    RunEnding(cfg, v, mid, t, history, ok);
    RunInv(cfg, g, v, mid);
    var z := Run(cfg, v, mid);
    FinishEnding(cfg, g, z, t, flush, history, ok);
    RecoverableNeverShrinks(cfg, g, DoFinish(cfg, z, t, flush), later);
  }

  lemma CloseEnding(cfg: Cfg, g: Config, u: World, t: nat, a: Attempt) returns (ok: bool)
    requires Inv(cfg, g, u) && u.conn.txn.Open?
    requires Holds(u, t) && u.threads[t].job.pc.Armed? && u.threads[t].job.pc.wasInTxn
    requires DoRun(cfg, u, t, a).conn.txn.Auto?
    ensures var v := DoRun(cfg, u, t, a);
            && Inv(cfg, g, v) && Ending(v, t, v.conn.store.committed, ok)
            && (ok ==> v.conn.store.committed == Closed(u.conn.store.committed, u.threads[t].job.req.sql.stmt, u.conn.txn.pending))
  {
    RunStmtInv(cfg, g, u, t, a);
    ok := DoRun(cfg, u, t, a).threads[t].job.pc.r.Ok?;
    if ok {
      ClosingStatement(u.conn, u.threads[t].job.req, a, cfg.settings.maxRows);
    }
  }

  // The acknowledged transaction. In any run whose transaction `items` stays open through
  // `es`, let request `t` run the statement that ends it and, after any events but a crash,
  // be answered Ok. Then after any later events, crashes included, a cold start recovers
  // everything committed before the transaction and right after it (unless the statement
  // was ROLLBACK or nothing survived) exactly its surviving writes as one batch.
  lemma AnsweredCloseIsRecovered(cfg: Cfg, c: Conn, pre: seq<Event>, es: seq<Event>, items: seq<Item>, t: nat, a: Attempt,
                                 mid: seq<Event>, flush: Flush, later: seq<Event>)
    requires Sqlite.Valid(c) && c.deadline == None && Safe(cfg.mode, c.config.journal)
    requires var w := Run(cfg, Start(c), pre); Represents(w.conn.txn, items) && StaysOpen(cfg, w, es)
    requires var u := Run(cfg, Run(cfg, Start(c), pre), es);
             && Holds(u, t) && u.threads[t].job.pc.Armed?
             && DoRun(cfg, u, t, a).conn.txn.Auto? && Bounded(DoRun(cfg, u, t, a).conn.store) && Crash !in mid
             && var z := Run(cfg, DoRun(cfg, u, t, a), mid); Holds(z, t) && z.threads[t].job.pc.Cleared?
    ensures var w := Run(cfg, Start(c), pre);
            var u := Run(cfg, w, es);
            var x := Step(cfg, Run(cfg, DoRun(cfg, u, t, a), mid), Event.Finish(t, flush));
            && Bounded(x.conn.store) && t in x.threads && x.threads[t].Answered?
            && (x.threads[t].ans.Ok? ==>
                  Closed(w.conn.store.committed, u.threads[t].job.req.sql.stmt, Overlay(Writes(ReplayRun(cfg, w, es, items))))
                  <= DurableHistory(Run(cfg, x, later).conn.store))
  {
    var g := c.config;
    StartInv(cfg, c);
    RunInv(cfg, g, Start(c), pre);
    var w := Run(cfg, Start(c), pre);
    OpenSpan(cfg, g, w, es, items);
    RunConcat(cfg, Start(c), pre, es);
    SampledRight(cfg, c, pre + es, t);
    var u := Run(cfg, w, es);
    var ok := CloseEnding(cfg, g, u, t, a);
    var v := DoRun(cfg, u, t, a);
    EndingToAnswer(cfg, g, v, t, mid, flush, later, v.conn.store.committed, ok);
  }

  // ---------------------------------------------------------------- refused statements in runs

  // What later statements of the transaction and of other requests build on.
  ghost predicate SameState(c: Conn, d: Conn) {
    c.txn == d.txn && c.counters == d.counters && c.store.committed == d.store.committed
  }

  // `t` had its statement refused and still holds the lock, or is answered.
  ghost predicate Refusing(w: World, t: nat, before: Conn, error: SqlError) {
    && t in w.threads
    && (w.threads[t].Answered?
        || (Holds(w, t) && HasRun(w.threads[t].job.pc) && w.threads[t].job.pc.r == Err(error) && SameState(before, w.conn)))
  }

  lemma HolderRefusing(cfg: Cfg, w: World, e: Event, t: nat, before: Conn, error: SqlError)
    requires Bounded(w.conn.store) && Refusing(w, t, before, error) && error != FetchFailed(true)
    requires Holds(w, t) && !e.Crash?
    ensures Refusing(Step(cfg, w, e), t, before, error)
  {
  }

  lemma {:induction false} RunRefusing(cfg: Cfg, w: World, es: seq<Event>, t: nat, before: Conn, error: SqlError)
    requires Bounded(w.conn.store) && Refusing(w, t, before, error) && error != FetchFailed(true) && Crash !in es
    ensures Refusing(Run(cfg, w, es), t, before, error)
  {
    if es != [] {
      var v := Run(cfg, w, es[..|es| - 1]);
      RunRefusing(cfg, w, es[..|es| - 1], t, before, error);
      if Holds(v, t) {
        HolderRefusing(cfg, v, es[|es| - 1], t, before, error);
      } else {
        AnswersStay(cfg, v, es[|es| - 1]);
        assert AnsweredIn(Step(cfg, v, es[|es| - 1]), t);
      }
    }
  }

  // A refused statement in any run: whatever happens meanwhile short of a crash, it is
  // answered an SQL error, and leaves the open transaction with its pending pages and
  // savepoints, the counters and the committed history as it found them.
  lemma RefusedInRun(cfg: Cfg, u: World, t: nat, a: Attempt, mid: seq<Event>, flush: Flush)
    requires Bounded(u.conn.store) && Holds(u, t) && u.threads[t].job.pc.Armed? && !Steps(u.conn, u.threads[t].job.req)
    requires Bounded(DoRun(cfg, u, t, a).conn.store) && Crash !in mid
    requires var z := Run(cfg, DoRun(cfg, u, t, a), mid); Holds(z, t) && z.threads[t].job.pc.Cleared?
    ensures var x := Step(cfg, Run(cfg, DoRun(cfg, u, t, a), mid), Event.Finish(t, flush));
            && t in x.threads && x.threads[t].Answered? && x.threads[t].ans.Err? && x.threads[t].ans.error.Sql?
            && SameState(u.conn, x.conn)
  {
    var req := u.threads[t].job.req;
    RefusedTouchesNothing(u.conn, req, a, cfg.settings.maxRows);
    var r := Execute(u.conn, req, a, cfg.settings.maxRows).1;
    RunRefusing(cfg, DoRun(cfg, u, t, a), mid, t, u.conn, r.error);
    RefusedFinish(cfg, Run(cfg, DoRun(cfg, u, t, a), mid), t, flush, u.conn, r.error);
  }

  lemma RefusedFinish(cfg: Cfg, w: World, t: nat, flush: Flush, before: Conn, error: SqlError)
    requires Bounded(w.conn.store) && Refusing(w, t, before, error) && Holds(w, t) && w.threads[t].job.pc.Cleared?
    ensures var x := Step(cfg, w, Event.Finish(t, flush));
            t in x.threads && x.threads[t] == Answered(Err(ExecError.Sql(error))) && SameState(before, x.conn)
  {
  }

  // ---------------------------------------------------------------- every reachable transaction

  ghost predicate Representable(t: Txn) {
    t.Open? ==> exists items :: Represents(t, items)
  }

  // A transaction opens with nothing pending: BEGIN with no savepoint, an outermost
  // SAVEPOINT with its own.
  lemma OpensEmpty(c: Conn, s: Stmt, a: Attempt)
    requires Bounded(c.store) && c.txn.Auto? && Runnable(c.txn, s)
    ensures var d := Perform(c, s, a);
            && (d.txn.Open? <==> s.Begin? || s.Savepoint?)
            && (s.Begin? ==> Represents(d.txn, []) && d.txn.explicit)
            && (s.Savepoint? ==> Represents(d.txn, [Mark(s.name)]) && !d.txn.explicit)
  {
    if s.Savepoint? {
      Snoc([], Mark(s.name));
      assert [] + [Mark(s.name)] == [Mark(s.name)];
    }
  }

  lemma OpeningIsRepresentable(c: Conn, s: Stmt, a: Attempt)
    requires Bounded(c.store) && c.txn.Auto? && Runnable(c.txn, s)
    ensures Representable(Perform(c, s, a).txn)
  {
    OpensEmpty(c, s, a);
  }

  lemma StepRepresentable(cfg: Cfg, g: Config, w: World, e: Event)
    requires Inv(cfg, g, w) && Representable(w.conn.txn)
    ensures Representable(Step(cfg, w, e).conn.txn)
  {
    if w.conn.txn.Open? {
      var items :| Represents(w.conn.txn, items);
      StepInTxn(cfg, g, w, e, items);
      if Step(cfg, w, e).conn.txn.Open? {
        assert Represents(Step(cfg, w, e).conn.txn, ReplayStep(cfg, w, e, items));
      }
    } else if e.RunStmt? && Holds(w, e.t) && w.threads[e.t].job.pc.Armed? {
      var req := w.threads[e.t].job.req;
      if TakesEffect(w.conn, req, e.attempt, cfg.settings.maxRows) {
        OpeningIsRepresentable(w.conn, req.sql.stmt, e.attempt);
      }
    } else if e.Finish? && Holds(w, e.t) && w.threads[e.t].job.pc.Cleared? {
      ConcludeSpec(w.conn, w.threads[e.t].job.pc.wasInTxn, w.threads[e.t].job.pc.r, cfg.mode, e.flush);
    }
  }

  // Every transaction any run can open has such a journal, so `AllOrNothing` applies to it.
  lemma {:induction false} EveryOpenTxnHasAJournal(cfg: Cfg, c: Conn, es: seq<Event>)
    requires Sqlite.Valid(c) && c.deadline == None && c.txn.Auto?
    ensures Representable(Run(cfg, Start(c), es).conn.txn)
  {
    if es != [] {
      var init := es[..|es| - 1];
      EveryOpenTxnHasAJournal(cfg, c, init);
      StartInv(cfg, c);
      RunInv(cfg, c.config, Start(c), init);
      StepRepresentable(cfg, c.config, Run(cfg, Start(c), init), es[|es| - 1]);
    }
  }
}
