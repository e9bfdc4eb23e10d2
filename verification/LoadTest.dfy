/** The load tester: workers that are coroutines sharing one request budget. A worker runs
    from one await to the next without interruption; the schedule decides who runs. */
module LoadTest {
  import opened Prelude

  datatype Op = Insert | SelectRecent | SelectCount

  datatype Sample = Sample(op: Op, elapsed: real, status: int, code: Option<string>)

  datatype Worker = AtTop | InFlight(op: Op) | Finished

  datatype Load = Load(budget: int, samples: seq<Sample>, workers: seq<Worker>)

  // One turn of worker `i`: what the awaited request returned (if one was in flight), then
  // whether the deadline has passed, and the next roll of the dice.
  datatype Turn = Turn(i: nat, status: int, code: Option<string>, elapsed: real, expired: bool, roll: real)

  function PickOp(roll: real, writeRatio: real): Op {
    if roll < writeRatio then Insert
    else if roll < writeRatio + (1.0 - writeRatio) / 2.0 then SelectRecent
    else SelectCount
  }

  function Start(n: nat, maxRequests: int): Load {
    Load(maxRequests, [], seq(n, _ => AtTop))
  }

  predicate Enabled(l: Load, u: Turn) {
    u.i < |l.workers| && !l.workers[u.i].Finished?
  }

  // After the await: record the sample; back at the top of the loop: stop or spend.
  function Recorded(l: Load, u: Turn): seq<Sample>
    requires Enabled(l, u)
  {
    match l.workers[u.i]
    case InFlight(op) => l.samples + [Sample(op, u.elapsed, u.status, u.code)]
    case _ => l.samples
  }

  function TakeTurn(l: Load, u: Turn, writeRatio: real): Load
    requires Enabled(l, u)
  {
    var samples := Recorded(l, u);
    if l.budget <= 0 || u.expired then Load(l.budget, samples, l.workers[u.i := Finished])
    else Load(l.budget - 1, samples, l.workers[u.i := InFlight(PickOp(u.roll, writeRatio))])
  }

  ghost predicate Schedulable(l: Load, us: seq<Turn>, writeRatio: real) {
    us != [] ==> Schedulable(l, us[..|us| - 1], writeRatio) && Enabled(Run(l, us[..|us| - 1], writeRatio), us[|us| - 1])
  }

  // A finished worker ignores its turn.
  function Run(l: Load, us: seq<Turn>, writeRatio: real): Load {
    if us == [] then l
    else
      var m := Run(l, us[..|us| - 1], writeRatio);
      if Enabled(m, us[|us| - 1]) then TakeTurn(m, us[|us| - 1], writeRatio) else m
  }

  function Weight(w: Worker): nat {
    if w.InFlight? then 1 else 0
  }

  function Flying(ws: seq<Worker>): nat {
    if ws == [] then 0 else Flying(ws[..|ws| - 1]) + Weight(ws[|ws| - 1])
  }

  function Active(ws: seq<Worker>): nat {
    if ws == [] then 0 else Active(ws[..|ws| - 1]) + (if ws[|ws| - 1].Finished? then 0 else 1)
  }

  lemma {:induction false} CountsAfterUpdate(ws: seq<Worker>, i: nat, w: Worker)
    requires i < |ws|
    ensures Flying(ws[i := w]) == Flying(ws) - Weight(ws[i]) + Weight(w)
    ensures Active(ws[i := w]) == Active(ws) - (if ws[i].Finished? then 0 else 1) + (if w.Finished? then 0 else 1)
  {
    var n := |ws| - 1;
    var vs := ws[i := w];
    if i < n {
      CountsAfterUpdate(ws[..n], i, w);
      assert vs[..n] == ws[..n][i := w];
    } else {
      assert vs[..n] == ws[..n];
    }
  }

  lemma {:induction false} AllAtTop(n: nat)
    ensures Flying(seq(n, _ => AtTop)) == 0 && Active(seq(n, _ => AtTop)) == n
  {
    if n > 0 {
      AllAtTop(n - 1);
      assert seq(n, _ => AtTop)[..n - 1] == seq(n - 1, _ => AtTop);
    }
  }

  function NonNegative(n: int): nat { if n < 0 then 0 else n }

  // Every turn a worker takes makes this smaller.
  function Remaining(l: Load): nat {
    2 * NonNegative(l.budget) + Flying(l.workers) + Active(l.workers)
  }

  ghost predicate Conserved(l: Load, maxRequests: int) {
    && l.budget + Flying(l.workers) + |l.samples| == maxRequests
    && (l.budget < 0 ==> l.budget == maxRequests)
  }

  lemma TurnSpec(l: Load, u: Turn, writeRatio: real, maxRequests: int)
    requires Enabled(l, u) && Conserved(l, maxRequests)
    ensures var m := TakeTurn(l, u, writeRatio);
            && Conserved(m, maxRequests) && |m.workers| == |l.workers|
            && Remaining(m) < Remaining(l)
  {
    CountsAfterUpdate(l.workers, u.i, TakeTurn(l, u, writeRatio).workers[u.i]);
  }

  // For every interleaving of any number of workers and any budget: what is left of the
  // budget, the requests in flight and the recorded samples add up to the maximum, so the
  // cap on requests sent is never exceeded.
  lemma {:induction false} BudgetIsConserved(n: nat, maxRequests: int, us: seq<Turn>, writeRatio: real)
    ensures var l := Run(Start(n, maxRequests), us, writeRatio);
            && l.budget + Flying(l.workers) + |l.samples| == maxRequests
            && Flying(l.workers) + |l.samples| <= NonNegative(maxRequests)
            && |l.workers| == n
            && Conserved(l, maxRequests)
  {
    if us == [] {
      AllAtTop(n);
    } else {
      var us' := us[..|us| - 1];
      BudgetIsConserved(n, maxRequests, us', writeRatio);
      var m := Run(Start(n, maxRequests), us', writeRatio);
      if Enabled(m, us[|us| - 1]) {
        TurnSpec(m, us[|us| - 1], writeRatio, maxRequests);
      }
    }
  }

  // Every worker stops: no schedule of turns actually taken is longer than this.
  lemma {:induction false} EveryScheduleEnds(n: nat, maxRequests: int, us: seq<Turn>, writeRatio: real)
    requires Schedulable(Start(n, maxRequests), us, writeRatio)
    ensures |us| + Remaining(Run(Start(n, maxRequests), us, writeRatio)) <= 2 * NonNegative(maxRequests) + n
  {
    if us == [] {
      AllAtTop(n);
    } else {
      var us' := us[..|us| - 1];
      EveryScheduleEnds(n, maxRequests, us', writeRatio);
      BudgetIsConserved(n, maxRequests, us', writeRatio);
      TurnSpec(Run(Start(n, maxRequests), us', writeRatio), us[|us| - 1], writeRatio, maxRequests);
    }
  }

  // If the deadline never passes, the workers stop only once the whole budget is spent.
  lemma {:induction false} StopsOnlyWhenSpent(n: nat, maxRequests: int, us: seq<Turn>, writeRatio: real)
    requires forall k :: 0 <= k < |us| ==> !us[k].expired
    ensures var l := Run(Start(n, maxRequests), us, writeRatio);
            (exists i :: 0 <= i < |l.workers| && l.workers[i].Finished?) ==> l.budget <= 0
  {
    if us != [] {
      StopsOnlyWhenSpent(n, maxRequests, us[..|us| - 1], writeRatio);
    }
  }

  lemma {:induction false} NoneFlying(ws: seq<Worker>)
    requires forall i :: 0 <= i < |ws| ==> ws[i].Finished?
    ensures Flying(ws) == 0
  {
    if ws != [] {
      NoneFlying(ws[..|ws| - 1]);
    }
  }

  // Then, with at least one worker, exactly the maximum number of samples is recorded.
  lemma WholeBudgetIsUsed(n: nat, maxRequests: int, us: seq<Turn>, writeRatio: real)
    requires n > 0 && forall k :: 0 <= k < |us| ==> !us[k].expired
    requires var l := Run(Start(n, maxRequests), us, writeRatio); forall i :: 0 <= i < |l.workers| ==> l.workers[i].Finished?
    ensures |Run(Start(n, maxRequests), us, writeRatio).samples| == NonNegative(maxRequests)
  {
    var l := Run(Start(n, maxRequests), us, writeRatio);
    BudgetIsConserved(n, maxRequests, us, writeRatio);
    StopsOnlyWhenSpent(n, maxRequests, us, writeRatio);
    NoneFlying(l.workers);
    assert l.workers[0].Finished?;
  }

  // A roll below the write ratio inserts; of the rest, the lower half reads the recent rows.
  lemma PickOpExactly(roll: real, writeRatio: real)
    requires 0.0 <= writeRatio <= 1.0
    ensures PickOp(roll, writeRatio).Insert? <==> roll < writeRatio
    ensures PickOp(roll, writeRatio).SelectRecent? <==> writeRatio <= roll && roll - writeRatio < 1.0 - roll
    ensures PickOp(roll, writeRatio).SelectCount? <==> writeRatio <= roll && roll - writeRatio >= 1.0 - roll
  {
  }

  // Turn `j` sent a request for the operation its roll picked, and worker `i` took no turn
  // since.
  ghost predicate SentAt(us: seq<Turn>, i: nat, op: Op, j: nat, writeRatio: real) {
    && j < |us| && us[j].i == i && op == PickOp(us[j].roll, writeRatio)
    && forall m :: j < m < |us| ==> us[m].i != i
  }

  // Sample `s` is the response to that request: the same worker's next turn.
  ghost predicate ResponseTo(us: seq<Turn>, s: Sample, j: nat, k: nat, writeRatio: real) {
    && j < k < |us| && SentAt(us[..k], us[k].i, s.op, j, writeRatio)
    && s == Sample(s.op, us[k].elapsed, us[k].status, us[k].code)
  }

  ghost predicate Sent(us: seq<Turn>, i: nat, op: Op, writeRatio: real) {
    exists j: nat :: SentAt(us, i, op, j, writeRatio)
  }

  ghost predicate Response(us: seq<Turn>, s: Sample, writeRatio: real) {
    exists j: nat, k: nat :: ResponseTo(us, s, j, k, writeRatio)
  }

  ghost predicate Traced(l: Load, us: seq<Turn>, writeRatio: real) {
    && (forall i :: 0 <= i < |l.workers| && l.workers[i].InFlight? ==> Sent(us, i, l.workers[i].op, writeRatio))
    && (forall x :: 0 <= x < |l.samples| ==> Response(us, l.samples[x], writeRatio))
  }

  lemma TraceExtends(us: seq<Turn>, u: Turn, i: nat, op: Op, j: nat, writeRatio: real)
    requires SentAt(us, i, op, j, writeRatio) && u.i != i
    ensures SentAt(us + [u], i, op, j, writeRatio)
  {
  }

  lemma ResponseStays(us: seq<Turn>, u: Turn, s: Sample, j: nat, k: nat, writeRatio: real)
    requires ResponseTo(us, s, j, k, writeRatio)
    ensures ResponseTo(us + [u], s, j, k, writeRatio)
  {
    assert (us + [u])[..k] == us[..k];
  }

  lemma TracedSamples(l: Load, us: seq<Turn>, u: Turn, writeRatio: real)
    requires Traced(l, us, writeRatio) && Enabled(l, u)
    ensures var m := TakeTurn(l, u, writeRatio);
            forall x :: 0 <= x < |m.samples| ==> Response(us + [u], m.samples[x], writeRatio)
  {
    var m := TakeTurn(l, u, writeRatio);
    forall x | 0 <= x < |m.samples| ensures Response(us + [u], m.samples[x], writeRatio) {
      if x < |l.samples| {
        var j: nat, k: nat :| ResponseTo(us, l.samples[x], j, k, writeRatio);
        ResponseStays(us, u, l.samples[x], j, k, writeRatio);
        assert m.samples[x] == l.samples[x];
      } else {
        var j: nat :| SentAt(us, u.i, l.workers[u.i].op, j, writeRatio);
        assert (us + [u])[..|us|] == us;
        assert ResponseTo(us + [u], m.samples[x], j, |us|, writeRatio);
      }
    }
  }

  lemma TracedWorkers(l: Load, us: seq<Turn>, u: Turn, writeRatio: real)
    requires Traced(l, us, writeRatio) && Enabled(l, u)
    ensures var m := TakeTurn(l, u, writeRatio);
            forall i :: 0 <= i < |m.workers| && m.workers[i].InFlight? ==> Sent(us + [u], i, m.workers[i].op, writeRatio)
  {
    var m := TakeTurn(l, u, writeRatio);
    forall i | 0 <= i < |m.workers| && m.workers[i].InFlight? ensures Sent(us + [u], i, m.workers[i].op, writeRatio) {
      if i == u.i {
        assert SentAt(us + [u], i, m.workers[i].op, |us|, writeRatio);
      } else {
        var j: nat :| SentAt(us, i, l.workers[i].op, j, writeRatio);
        TraceExtends(us, u, i, l.workers[i].op, j, writeRatio);
      }
    }
  }

  lemma TracedSkip(l: Load, us: seq<Turn>, u: Turn, writeRatio: real)
    requires Traced(l, us, writeRatio) && !Enabled(l, u)
    ensures Traced(l, us + [u], writeRatio)
  {
    forall i | 0 <= i < |l.workers| && l.workers[i].InFlight? ensures Sent(us + [u], i, l.workers[i].op, writeRatio) {
      var j: nat :| SentAt(us, i, l.workers[i].op, j, writeRatio);
      TraceExtends(us, u, i, l.workers[i].op, j, writeRatio);
    }
    forall x | 0 <= x < |l.samples| ensures Response(us + [u], l.samples[x], writeRatio) {
      var j: nat, k: nat :| ResponseTo(us, l.samples[x], j, k, writeRatio);
      ResponseStays(us, u, l.samples[x], j, k, writeRatio);
    }
  }

  // Every recorded sample is some worker's response: its operation is the one that worker's
  // previous turn picked, its latency, status and error code those that came back.
  lemma {:induction false} SamplesAreResponses(n: nat, maxRequests: int, us: seq<Turn>, writeRatio: real)
    ensures Traced(Run(Start(n, maxRequests), us, writeRatio), us, writeRatio)
  {
    if us != [] {
      var init, u := us[..|us| - 1], us[|us| - 1];
      var l := Run(Start(n, maxRequests), init, writeRatio);
      SamplesAreResponses(n, maxRequests, init, writeRatio);
      assert us == init + [u];
      if Enabled(l, u) {
        TracedSamples(l, init, u, writeRatio);
        TracedWorkers(l, init, u, writeRatio);
      } else {
        TracedSkip(l, init, u, writeRatio);
      }
    }
  }

  // The event loop: `worker` between two awaits, and the loop that resumes workers.
  class EventLoop {
    var budget: int
    var samples: seq<Sample>
    var workers: seq<Worker>
    const writeRatio: real

    constructor (n: nat, maxRequests: int, writeRatio: real)
      ensures State() == Start(n, maxRequests) && this.writeRatio == writeRatio
    {
      budget, samples, workers := maxRequests, [], seq(n, _ => AtTop);
      this.writeRatio := writeRatio;
    }

    function State(): Load
      reads this
    {
      Load(budget, samples, workers)
    }

    method Resume(u: Turn)
      requires Enabled(State(), u)
      modifies this
      ensures State() == TakeTurn(old(State()), u, writeRatio)
    {
      if workers[u.i].InFlight? {
        samples := samples + [Sample(workers[u.i].op, u.elapsed, u.status, u.code)];
      }
      if budget <= 0 {
        workers := workers[u.i := Finished];
        return;
      }
      if u.expired {
        workers := workers[u.i := Finished];
        return;
      }
      budget := budget - 1;
      var op: Op;
      if u.roll < writeRatio {
        op := Insert;
      } else if u.roll < writeRatio + (1.0 - writeRatio) / 2.0 {
        op := SelectRecent;
      } else {
        op := SelectCount;
      }
      workers := workers[u.i := InFlight(op)];
    }

    method Gather(us: seq<Turn>)
      modifies this
      ensures State() == Run(old(State()), us, writeRatio)
    {
      var k := 0;
      while k < |us|
        invariant 0 <= k <= |us|
        invariant State() == Run(old(State()), us[..k], writeRatio)
      {
        assert us[..k + 1][..k] == us[..k];
        if us[k].i < |workers| && !workers[us[k].i].Finished? {
          Resume(us[k]);
        }
        k := k + 1;
      }
      assert us[..|us|] == us;
    }
  }
}
