/** The HTTP layer: authentication, routing, body checks and the mapping of database
    results to status codes, alone and on top of the concurrent machine. */
module Http {
  import opened Prelude
  import opened Ascii
  import opened Storage
  import opened Sqlite
  import opened Policy
  import opened Durable
  import opened Calls
  import opened Machine
  import opened Linearizability
  import opened Acknowledged
  import Engine

  const VALIDATION := "RUSTYHIP_E_VALIDATION"
  const SQL := "RUSTYHIP_E_SQL"
  const UNAUTHORIZED := "RUSTYHIP_E_UNAUTHORIZED"
  const NOT_FOUND := "RUSTYHIP_E_NOT_FOUND"
  const INTERNAL := "RUSTYHIP_E_INTERNAL"

  // `authorization` is the header's text, absent if there is none or it is not text;
  // `parsed` is what the JSON parser makes of the body.
  datatype Body = Body(size: nat, parsed: Option<Request>)
  datatype HttpRequest = HttpRequest(verb: string, path: string, authorization: Option<string>, body: Body)

  datatype Payload = Health | Error(code: string) | Outcome(out: ExecOutcome)
  datatype Response = Response(status: nat, payload: Payload)

  datatype App = App(authToken: Option<string>, maxBodyBytes: Option<nat>, cfg: Cfg)

  // ---------------------------------------------------------------- authentication

  // `split_once(' ')`
  function SplitOnce(s: string): (r: Option<(string, string)>)
    ensures r.Some? ==> s == r.value.0 + " " + r.value.1 && ' ' !in r.value.0
    ensures r.None? ==> ' ' !in s
  {
    if s == "" then None
    else if s[0] == ' ' then Some(("", s[1..]))
    else
      match SplitOnce(s[1..])
      case None => None
      case Some((a, b)) => Some(([s[0]] + a, b))
  }

  function BearerToken(header: string): Option<string> {
    match SplitOnce(header)
    case None => None
    case Some((scheme, token)) => if EqIgnoreCase(scheme, "bearer") then Some(token) else None
  }

  predicate Authorized(expected: Option<string>, header: Option<string>) {
    expected.None? || (header.Some? && BearerToken(header.value) == expected)
  }

  // A header yields a token exactly if it is the scheme in any letter case, one space and
  // the token (which may itself start with a space).
  lemma BearerTokenExactly(header: string, token: string)
    ensures BearerToken(header) == Some(token) <==>
            exists scheme: string :: EqIgnoreCase(scheme, "bearer") && header == scheme + " " + token
  {
    forall scheme: string | EqIgnoreCase(scheme, "bearer") && header == scheme + " " + token
      ensures BearerToken(header) == Some(token)
    {
      BearerHasNoSpace(scheme);
      SplitAtFirstSpace(scheme, token);
    }
  }

  lemma BearerHasNoSpace(scheme: string)
    requires EqIgnoreCase(scheme, "bearer")
    ensures ' ' !in scheme
  {
  }

  lemma {:induction false} SplitAtFirstSpace(a: string, b: string)
    requires ' ' !in a
    ensures SplitOnce(a + " " + b) == Some((a, b))
  {
    var s := a + " " + b;
    if a == "" {
      assert s[1..] == b;
    } else {
      assert a[0] in a && s[0] == a[0];
      assert s[1..] == a[1..] + " " + b;
      SplitAtFirstSpace(a[1..], b);
      assert [a[0]] + a[1..] == a;
    }
  }

  // Two spellings of the scheme authenticate alike.
  lemma SchemeCaseDoesNotMatter(expected: Option<string>, a: string, b: string, token: string)
    requires EqIgnoreCase(a, "bearer") && EqIgnoreCase(a, b)
    ensures Authorized(expected, Some(a + " " + token)) == Authorized(expected, Some(b + " " + token))
  {
    forall i | 0 <= i < |b| ensures LowerChar(b[i]) == LowerChar("bearer"[i]) {
      assert LowerChar(a[i]) == LowerChar(b[i]);
    }
    BearerTokenExactly(a + " " + token, token);
    BearerTokenExactly(b + " " + token, token);
  }

  // ---------------------------------------------------------------- routing

  datatype Routed = Reply(resp: Response) | ToDb(req: Request)

  // `handle`, `check_auth` and `parse_sql_request`, up to the database.
  function Route(app: App, r: HttpRequest): Routed {
    if !Authorized(app.authToken, r.authorization) then Reply(Response(401, Error(UNAUTHORIZED)))
    else if r.verb == "GET" && (r.path == "/" || r.path == "/health") then Reply(Response(200, Health))
    else if r.verb == "POST" && r.path == "/sql" then
      if app.maxBodyBytes.Some? && r.body.size > app.maxBodyBytes.value then Reply(Response(413, Error(VALIDATION)))
      else if r.body.parsed.None? then Reply(Response(400, Error(VALIDATION)))
      else ToDb(r.body.parsed.value)
    else Reply(Response(404, Error(NOT_FOUND)))
  }

  // The outcome mapping of `sql`.
  function ToResponse(ans: Answer): Response {
    match ans
    case Ok(out) => Response(200, Outcome(out))
    case Err(Sql(_)) => Response(400, Error(SQL))
    case Err(Checkpoint(_)) => Response(500, Error(INTERNAL))
    case Err(Internal(_)) => Response(500, Error(INTERNAL))
  }

  // The token is given after the scheme in some spelling, or none is asked for.
  ghost predicate Admitted(app: App, r: HttpRequest) {
    app.authToken.None? || exists scheme: string :: EqIgnoreCase(scheme, "bearer") && r.authorization == Some(scheme + " " + app.authToken.value)
  }

  // The whole routing: what every request is answered before the database, and exactly which
  // requests reach it.
  lemma RouteExactly(app: App, r: HttpRequest)
    ensures var health := r.verb == "GET" && (r.path == "/" || r.path == "/health");
            var sql := r.verb == "POST" && r.path == "/sql";
            var large := app.maxBodyBytes.Some? && r.body.size > app.maxBodyBytes.value;
            && (!Admitted(app, r) ==> Route(app, r) == Reply(Response(401, Error("RUSTYHIP_E_UNAUTHORIZED"))))
            && (Admitted(app, r) && health ==> Route(app, r) == Reply(Response(200, Health)))
            && (Admitted(app, r) && !health && !sql ==> Route(app, r) == Reply(Response(404, Error("RUSTYHIP_E_NOT_FOUND"))))
            && (Admitted(app, r) && sql && large ==> Route(app, r) == Reply(Response(413, Error("RUSTYHIP_E_VALIDATION"))))
            && (Admitted(app, r) && sql && !large && r.body.parsed.None? ==> Route(app, r) == Reply(Response(400, Error("RUSTYHIP_E_VALIDATION"))))
            && (Route(app, r).ToDb? <==> Admitted(app, r) && sql && !large && r.body.parsed.Some?)
            && (Route(app, r).ToDb? ==> Some(Route(app, r).req) == r.body.parsed)
  {
    if app.authToken.Some? && r.authorization.Some? {
      BearerTokenExactly(r.authorization.value, app.authToken.value);
    }
  }

  // One request from arrival to response.
  function Respond(app: App, c: Conn, poisoned: bool, r: HttpRequest, o: Oracle): (Conn, Response)
    requires Bounded(c.store)
  {
    match Route(app, r)
    case Reply(resp) => (c, resp)
    case ToDb(req) =>
      if poisoned then (c, ToResponse(Err(Internal(MutexPoisoned))))
      else
        var (d, ans) := Serve(c, req, app.cfg.settings, app.cfg.mode, o);
        (d, ToResponse(ans))
  }

  class Handler {
    const app: App
    const db: Engine.SqliteDb

    constructor (app: App, db: Engine.SqliteDb)
      requires db.settings == app.cfg.settings
      ensures this.app == app && this.db == db
    {
      this.app := app;
      this.db := db;
    }

    method Handle(r: HttpRequest, o: Oracle) returns (resp: Response)
      requires Bounded(db.conn.state.store) && db.settings == app.cfg.settings
      modifies db.conn
      ensures (db.conn.state, resp) == Respond(app, old(db.conn.state), db.poisoned, r, o)
    {
      if !Authorized(app.authToken, r.authorization) {
        return Response(401, Error(UNAUTHORIZED));
      }
      if r.verb == "GET" && (r.path == "/" || r.path == "/health") {
        return Response(200, Health);
      }
      if r.verb == "POST" && r.path == "/sql" {
        if app.maxBodyBytes.Some? && r.body.size > app.maxBodyBytes.value {
          return Response(413, Error(VALIDATION));
        }
        if r.body.parsed.None? {
          return Response(400, Error(VALIDATION));
        }
        var ans := db.ExecDurable(r.body.parsed.value, app.cfg.mode, o);
        return ToResponse(ans);
      }
      return Response(404, Error(NOT_FOUND));
    }
  }

  // ---------------------------------------------------------------- on the machine

  // An HTTP request arrives, or a step of the machine (arrivals come only from HTTP).
  datatype HttpEvent = Incoming(t: nat, r: HttpRequest) | Inside(e: Event)

  datatype Server = Server(world: World, replies: map<nat, Response>)

  function ServerStep(app: App, s: Server, h: HttpEvent): Server
    requires Bounded(s.world.conn.store)
  {
    match h
    case Inside(e) => if e.Arrive? then s else s.(world := Step(app.cfg, s.world, e))
    case Incoming(t, r) =>
      match Route(app, r)
      case Reply(resp) => s.(replies := s.replies[t := resp])
      case ToDb(req) => s.(world := Step(app.cfg, s.world, Arrive(t, req)))
  }

  lemma ServerStepBounded(app: App, s: Server, h: HttpEvent)
    requires Bounded(s.world.conn.store)
    ensures Bounded(ServerStep(app, s, h).world.conn.store)
  {
    if h.Inside? {
      StepBounded(app.cfg, s.world, h.e);
    }
  }

  function ServerRun(app: App, s: Server, hs: seq<HttpEvent>): (q: Server)
    requires Bounded(s.world.conn.store)
    ensures Bounded(q.world.conn.store)
  {
    if hs == [] then s
    else
      var q := ServerRun(app, s, hs[..|hs| - 1]);
      ServerStepBounded(app, q, hs[|hs| - 1]);
      ServerStep(app, q, hs[|hs| - 1])
  }

  // What the database sees of an HTTP run.
  function DbEvents(app: App, hs: seq<HttpEvent>): seq<Event> {
    if hs == [] then []
    else
      var h := hs[|hs| - 1];
      DbEvents(app, hs[..|hs| - 1]) +
      (match h
       case Inside(e) => if e.Arrive? then [] else [e]
       case Incoming(t, r) => if Route(app, r).ToDb? then [Arrive(t, Route(app, r).req)] else [])
  }

  lemma {:induction false} ServerIsMachine(app: App, c: Conn, hs: seq<HttpEvent>)
    requires Bounded(c.store)
    ensures ServerRun(app, Server(Start(c), map[]), hs).world == Run(app.cfg, Start(c), DbEvents(app, hs))
  {
    if hs != [] {
      var init := hs[..|hs| - 1];
      ServerIsMachine(app, c, init);
      var h := hs[|hs| - 1];
      var es := DbEvents(app, init);
      if DbEvents(app, hs) != es + [] {
        RunSnoc(app.cfg, Start(c), es, DbEvents(app, hs)[|es|]);
        assert DbEvents(app, hs) == es + [DbEvents(app, hs)[|es|]];
      } else {
        assert es + [] == es;
      }
    }
  }

  lemma {:induction false} ArrivalsAreIncoming(app: App, hs: seq<HttpEvent>, t: nat, req: Request)
    requires Arrive(t, req) in DbEvents(app, hs)
    ensures exists r :: Incoming(t, r) in hs && Route(app, r) == ToDb(req)
  {
    var h := hs[|hs| - 1];
    if Arrive(t, req) in DbEvents(app, hs[..|hs| - 1]) {
      ArrivalsAreIncoming(app, hs[..|hs| - 1], t, req);
    } else {
      assert h.Incoming? && Incoming(t, h.r) in hs && Route(app, h.r) == ToDb(req);
    }
  }

  lemma {:induction false} DbEventsConcat(app: App, a: seq<HttpEvent>, b: seq<HttpEvent>)
    ensures DbEvents(app, a + b) == DbEvents(app, a) + DbEvents(app, b)
  {
    if b == [] {
      assert a + b == a;
    } else {
      DbEventsConcat(app, a, b[..|b| - 1]);
      assert (a + b)[..|a + b| - 1] == a + b[..|b| - 1];
    }
  }

  predicate Rejected(app: App, hs: seq<HttpEvent>) {
    forall i :: 0 <= i < |hs| ==> hs[i].Incoming? && Route(app, hs[i].r).Reply?
  }

  lemma {:induction false} RejectedAreSilent(app: App, hs: seq<HttpEvent>)
    requires Rejected(app, hs)
    ensures DbEvents(app, hs) == []
  {
    if hs != [] {
      RejectedAreSilent(app, hs[..|hs| - 1]);
    }
  }

  // The reply, if any, that client `u` got without the database.
  function ReplyTo(app: App, hs: seq<HttpEvent>, u: nat): Option<Response> {
    if hs == [] then None
    else
      var h := hs[|hs| - 1];
      if h.Incoming? && h.t == u && Route(app, h.r).Reply? then Some(Route(app, h.r).resp)
      else ReplyTo(app, hs[..|hs| - 1], u)
  }

  lemma {:induction false} RepliesAreReplyTo(app: App, c: Conn, hs: seq<HttpEvent>, u: nat)
    requires Bounded(c.store)
    ensures var replies := ServerRun(app, Server(Start(c), map[]), hs).replies;
            ReplyTo(app, hs, u) == if u in replies then Some(replies[u]) else None
  {
    if hs != [] {
      RepliesAreReplyTo(app, c, hs[..|hs| - 1], u);
    }
  }

  lemma {:induction false} ReplyToConcat(app: App, a: seq<HttpEvent>, b: seq<HttpEvent>, u: nat)
    ensures ReplyTo(app, a + b, u) == if ReplyTo(app, b, u).Some? then ReplyTo(app, b, u) else ReplyTo(app, a, u)
  {
    if b == [] {
      assert a + b == a;
    } else {
      ReplyToConcat(app, a, b[..|b| - 1], u);
      assert (a + b)[..|a + b| - 1] == a + b[..|b| - 1];
    }
  }

  lemma {:induction false} NoReplyWithoutRequest(app: App, hs: seq<HttpEvent>, u: nat)
    requires forall i :: 0 <= i < |hs| && hs[i].Incoming? ==> hs[i].t != u
    ensures ReplyTo(app, hs, u) == None
  {
    if hs != [] {
      NoReplyWithoutRequest(app, hs[..|hs| - 1], u);
    }
  }

  // Any number of requests answered before the database (unauthenticated, unrouted,
  // oversized, unparsable, health), put anywhere in a run, leave the machine as it is:
  // connection, transaction, counters, locks, acknowledgements and every database answer;
  // and every other client gets the reply it would have got.
  lemma RejectedRequestsStutter(app: App, c: Conn, a: seq<HttpEvent>, junk: seq<HttpEvent>, b: seq<HttpEvent>)
    requires Bounded(c.store) && Rejected(app, junk)
    ensures var x := ServerRun(app, Server(Start(c), map[]), a + junk + b);
            var y := ServerRun(app, Server(Start(c), map[]), a + b);
            && x.world == y.world
            && forall u :: (forall i :: 0 <= i < |junk| ==> junk[i].t != u) ==>
                 (u in x.replies <==> u in y.replies) && (u in x.replies ==> x.replies[u] == y.replies[u])
  {
    RejectedAreSilent(app, junk);
    DbEventsConcat(app, a, junk);
    DbEventsConcat(app, a + junk, b);
    DbEventsConcat(app, a, b);
    assert DbEvents(app, a) + [] == DbEvents(app, a);
    ServerIsMachine(app, c, a + junk + b);
    ServerIsMachine(app, c, a + b);
    var x := ServerRun(app, Server(Start(c), map[]), a + junk + b);
    var y := ServerRun(app, Server(Start(c), map[]), a + b);
    forall u | forall i :: 0 <= i < |junk| ==> junk[i].t != u
      ensures (u in x.replies <==> u in y.replies) && (u in x.replies ==> x.replies[u] == y.replies[u])
    {
      OthersReply(app, c, a, junk, b, u);
    }
  }

  lemma OthersReply(app: App, c: Conn, a: seq<HttpEvent>, junk: seq<HttpEvent>, b: seq<HttpEvent>, u: nat)
    requires Bounded(c.store) && forall i :: 0 <= i < |junk| && junk[i].Incoming? ==> junk[i].t != u
    ensures var x := ServerRun(app, Server(Start(c), map[]), a + junk + b).replies;
            var y := ServerRun(app, Server(Start(c), map[]), a + b).replies;
            (u in x <==> u in y) && (u in x ==> x[u] == y[u])
  {
    NoReplyWithoutRequest(app, junk, u);
    ReplyToConcat(app, a, junk, u);
    ReplyToConcat(app, a + junk, b, u);
    ReplyToConcat(app, a, b, u);
    RepliesAreReplyTo(app, c, a + junk + b, u);
    RepliesAreReplyTo(app, c, a + b, u);
  }

  // What the response to a /sql request says about the operation that answered it.
  ghost predicate Says(cfg: Cfg, turn: Conn, op: Op, resp: Response)
    requires Bounded(turn.store) && Answers(op)
  {
    if op.Served? then SaysServed(cfg, turn, op.req, op.o, resp) else resp == Response(500, Error("RUSTYHIP_E_INTERNAL"))
  }

  // A statement that failed: 400 and the SQL code. A checkpoint that failed or was busy:
  // 500 and the internal code. Otherwise 200 with what the statement produced, columns and
  // rows.
  ghost predicate SaysServed(cfg: Cfg, turn: Conn, req: Request, o: Oracle, resp: Response)
    requires Bounded(turn.store)
  {
    if StatementFails(turn, req, o.attempt, cfg.settings.maxRows) then resp == Response(400, Error("RUSTYHIP_E_SQL"))
    else if FlushFails(turn, req, cfg.mode, o.flush) then resp == Response(500, Error("RUSTYHIP_E_INTERNAL"))
    else && resp.status == 200 && resp.payload.Outcome?
         && Ok(resp.payload.out) == Execute(turn, req, o.attempt, cfg.settings.maxRows).1
         && Delivers(req, o.attempt.cursor, resp.payload.out)
  }

  lemma ServedSays(cfg: Cfg, c: Conn, req: Request, o: Oracle)
    requires Sqlite.Valid(c)
    ensures SaysServed(cfg, c, req, o, ToResponse(Serve(c, req, cfg.settings, cfg.mode, o).1))
  {
    StatementFailsExactly(c, req, o.attempt, cfg.settings.maxRows);
    ServeAnswersExactly(c, req, cfg.settings, cfg.mode, o);
    if Serve(c, req, cfg.settings, cfg.mode, o).1.Ok? {
      AnswerDelivers(c, req, cfg.settings, cfg.mode, o);
    }
  }

  lemma AnswerSays(cfg: Cfg, turn: Conn, op: Op)
    requires Sqlite.Valid(turn) && Answers(op)
    ensures Says(cfg, turn, op, ToResponse(AnswerOf(cfg, turn, op)))
  {
    if op.Served? {
      ServedSays(cfg, turn, op.req, op.o);
    }
  }

  lemma ResponseInRun(cfg: Cfg, c: Conn, es: seq<Event>, t: nat)
    requires Sqlite.Valid(c)
    requires var w := Run(cfg, Start(c), es); t in w.threads && w.threads[t].Answered?
    ensures var w := Run(cfg, Start(c), es);
            var i := AnsweredAt(w.log, t);
            i.Some? && Says(cfg, TurnConn(cfg, c, w.log, i.value), w.log[i.value], ToResponse(w.threads[t].ans))
  {
    var w := Run(cfg, Start(c), es);
    RunsAreSequential(cfg, c, es);
    AnswersComeFromTurns(cfg, c, w.log, t);
    var i := AnsweredAt(w.log, t).value;
    SeqRunValid(cfg, Seq(c, false, map[]), w.log[..i]);
    AnswerSays(cfg, TurnConn(cfg, c, w.log, i), w.log[i]);
  }

  // What a /sql response says, over every run. Its request is one that came in and was
  // admitted. 500: the mutex was poisoned, the worker panicked, or the statement succeeded
  // and its checkpoint failed or was busy. 400: the statement itself failed, as the
  // connection was when its turn came. 200: neither, and the body is the outcome of that
  // turn.
  lemma ResponseMeaning(app: App, c: Conn, hs: seq<HttpEvent>, t: nat)
    requires Sqlite.Valid(c)
    requires var w := ServerRun(app, Server(Start(c), map[]), hs).world; t in w.threads && w.threads[t].Answered?
    ensures var w := ServerRun(app, Server(Start(c), map[]), hs).world;
            var i := AnsweredAt(w.log, t);
            && i.Some?
            && var op := w.log[i.value];
               && Says(app.cfg, TurnConn(app.cfg, c, w.log, i.value), op, ToResponse(w.threads[t].ans))
               && exists r :: Incoming(t, r) in hs && Route(app, r).ToDb? && (IsTurn(op) ==> Route(app, r).req == TurnRequest(op))
  {
    var es := DbEvents(app, hs);
    ServerIsMachine(app, c, hs);
    ResponseInRun(app.cfg, c, es, t);
    TurnsAreArrivals(app.cfg, c, es);
    var w := Run(app.cfg, Start(c), es);
    var op := w.log[AnsweredAt(w.log, t).value];
    if IsTurn(op) {
      ArrivalsAreIncoming(app, hs, t, TurnRequest(op));
    } else {
      var req := ThreadsArrived(app.cfg, c, es, t);
      ArrivalsAreIncoming(app, hs, t, req);
    }
  }

  // The durability theorem in HTTP terms: if the request that finishes here is answered
  // 200 and committed, then after any later HTTP traffic, machine steps, crashes and cold
  // starts its whole batch is recovered, right after everything committed before its turn.
  lemma Status200IsRecovered(app: App, c: Conn, hs: seq<HttpEvent>, t: nat, flush: Flush, later: seq<HttpEvent>)
    requires Sqlite.Valid(c) && c.deadline == None && Safe(app.cfg.mode, c.config.journal)
    requires var w := ServerRun(app, Server(Start(c), map[]), hs).world; Holds(w, t) && w.threads[t].job.pc.Cleared?
    ensures var s := Server(Start(c), map[]);
            var w := ServerRun(app, s, hs).world;
            var turn := Spec(app.cfg, c, w).conn;
            var finish := Inside(Event.Finish(t, flush));
            var v := ServerRun(app, s, hs + [finish]).world;
            var x := ServerRun(app, s, hs + [finish] + later).world;
            && t in v.threads && v.threads[t].Answered?
            && (ToResponse(v.threads[t].ans).status == 200 && v.conn.store.committed != turn.store.committed ==>
                  turn.store.committed + [Batch(turn, w.threads[t].job.o.attempt)] <= DurableHistory(x.conn.store))
  {
    RunsOfServer(app, c, hs, Event.Finish(t, flush), later);
    AnsweredCommitIsRecovered(app.cfg, c, DbEvents(app, hs), t, flush, DbEvents(app, later));
  }

  lemma RunsOfServer(app: App, c: Conn, hs: seq<HttpEvent>, e: Event, later: seq<HttpEvent>)
    requires Bounded(c.store) && !e.Arrive?
    ensures var s, es := Server(Start(c), map[]), DbEvents(app, hs);
            && ServerRun(app, s, hs).world == Run(app.cfg, Start(c), es)
            && ServerRun(app, s, hs + [Inside(e)]).world == Run(app.cfg, Start(c), es + [e])
            && ServerRun(app, s, hs + [Inside(e)] + later).world == Run(app.cfg, Start(c), es + [e] + DbEvents(app, later))
  {
    FinishProjects(app, hs, e);
    DbEventsConcat(app, hs + [Inside(e)], later);
    ServerIsMachine(app, c, hs);
    ServerIsMachine(app, c, hs + [Inside(e)]);
    ServerIsMachine(app, c, hs + [Inside(e)] + later);
  }

  lemma FinishProjects(app: App, hs: seq<HttpEvent>, e: Event)
    requires !e.Arrive?
    ensures DbEvents(app, hs + [Inside(e)]) == DbEvents(app, hs) + [e]
  {
  }
}
