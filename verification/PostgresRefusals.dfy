/** Refusals over PostgreSQL: a call is refused for a reason that was true of the committed
    tables at the very step that decided it, with no exception for what the store turns down. */
module PostgresRefusals {
  import opened Prelude
  import opened Scopes
  import opened Events
  import opened Evidence
  import opened Bookkeeping
  import opened StoreRuns
  import opened AppendExact
  import opened Engine
  import opened EngineRuns
  import opened EngineRefusals
  import opened PostgresEngine
  import P = Postgres
  import D = PostgresData
  import R = PostgresRefines
  import opened PostgresAnswers

  // ----- what the store says, as a reason -----

  lemma AuthorizeTurnedDown(env: Env, db: P.Db, call: Call, body: EventBody, outcome: AppendOutcome)
    requires call.Authorize? && body == EventBody.Authorized(call.mandate, call.cart, call.requestKey)
    requires Means(StoreOf(db), CtxOf(env, call), call.now, body, Ok(outcome))
    ensures var pc := AuthorizeAnswer(CtxOf(env, call), call, Ok(outcome));
            pc.Deny? ==> TrueAt(env, Seen(db), call, Submit(body), pc.reason)
  {
    hide ChainOf, Denials, CountSince, AuthorizedMandate, Verified, ScopeGrounds, ClippedTo32, Unaddable, Incomparable;
  }

  /** What a transaction was truly told, its call truly refuses for. */
  lemma TurnedDownTruly(env: Env, db: P.Db, call: Call, body: EventBody, outcome: AppendOutcome)
    requires Submits(call, body)
    requires call.Authorize? ==> body == EventBody.Authorized(call.mandate, call.cart, call.requestKey)
    requires Means(StoreOf(db), CtxOf(env, call), call.now, body, Ok(outcome))
    ensures var pc := AfterSubmit(CtxOf(env, call), call, body, Ok(outcome));
            pc.Deny? ==> TrueAt(env, Seen(db), call, Submit(body), pc.reason)
  {
    hide ChainOf, Denials, AuthorizeGrounds, LegalStep, RateFull, Unaddable, Incomparable, OverCap, ClippedTo32;
    if call.Authorize? {
      AuthorizeTurnedDown(env, db, call, body, outcome);
    }
  }

  // ----- through any joint run -----

  /** Move `i` is one of call `t`'s own: it reads, or its transaction executes a statement. */
  predicate OwnMove(j: Joint, a: Move, t: nat) {
    a == Read(t) || (a.Statement? && a.tx in j.flights && j.flights[a.tx] == t)
  }

  /** At move `i`, of call `t`'s own, `reason` was true of the committed tables. */
  predicate RefusedIn(h: string -> int, env: Env, moves: seq<Move>, t: nat, reason: DenyReason, i: nat) {
    && i < |moves| && t in Play(h, env, moves[..i]).threads
    && var j := Play(h, env, moves[..i]);
       OwnMove(j, moves[i], t) && TrueAt(env, Seen(j.pg.db), j.threads[t].call, j.threads[t].pc, reason)
  }

  ghost predicate HasReason(h: string -> int, env: Env, moves: seq<Move>, t: nat, th: Thread) {
    match th.pc
    case Deny(reason) => exists i: nat :: RefusedIn(h, env, moves, t, reason, i)
    case Done(reply) =>
      reply.Refused? ==>
        && reply.ctx == CtxOf(env, th.call) && reply.stage == StageOf(th.call)
        && exists i: nat :: RefusedIn(h, env, moves, t, reply.reason, i)
    case _ => true
  }

  lemma ReasonStays(h: string -> int, env: Env, moves: seq<Move>, t: nat, th: Thread)
    requires moves != [] && HasReason(h, env, DropLast(moves), t, th)
    ensures HasReason(h, env, moves, t, th)
  {
    hide Play, TrueAt, OwnMove;
    var front := DropLast(moves);
    forall reason: DenyReason, i: nat | RefusedIn(h, env, front, t, reason, i)
      ensures RefusedIn(h, env, moves, t, reason, i)
    {
      assert moves[..i] == front[..i];
    }
  }

  lemma RefusedNow(h: string -> int, env: Env, moves: seq<Move>, t: nat, reason: DenyReason)
    requires moves != []
    requires var j := Play(h, env, DropLast(moves));
             && t in j.threads && OwnMove(j, Last(moves), t)
             && TrueAt(env, Seen(j.pg.db), j.threads[t].call, j.threads[t].pc, reason)
    ensures RefusedIn(h, env, moves, t, reason, |moves| - 1)
  {
    hide Play, TrueAt, OwnMove;
    assert moves[..|moves| - 1] == DropLast(moves);
  }

  lemma ReadReason(h: string -> int, env: Env, moves: seq<Move>, t: nat)
    requires moves != [] && Last(moves) == Read(t)
    requires var j := Play(h, env, DropLast(moves)); t in j.threads && Reading(j.threads[t].pc)
    ensures var th := Play(h, env, DropLast(moves)).threads[t];
            var pc2 := StepCall(env, Seen(Play(h, env, DropLast(moves)).pg.db), th.call, th.pc).1;
            HasReason(h, env, moves, t, th.(pc := pc2))
  {
    hide Play, TrueAt, StepCall, RefusedIn, Fits;
    var j := Play(h, env, DropLast(moves));
    var th, w := j.threads[t], Seen(j.pg.db);
    assert Fits(th.call, th.pc);
    StepDenied(env, w, th.call, th.pc);
    NotRefusedYet(env, w, th.call, th.pc);
    var pc2 := StepCall(env, w, th.call, th.pc).1;
    if pc2.Deny? {
      RefusedNow(h, env, moves, t, pc2.reason);
    }
  }

  /** What call `t` is about to append, and that its transaction is that append. */
  lemma InPosition(h: string -> int, env: Env, moves: seq<Move>, x: nat)
    requires InFlight(Play(h, env, moves), x)
    ensures var j := Play(h, env, moves);
            && FlightOk(env, j, x)
            && var th := j.threads[j.flights[x]];
               th.call.Authorize? && th.pc.Submit? ==>
                 th.pc.body == EventBody.Authorized(th.call.mandate, th.call.cart, th.call.requestKey)
  {
    hide Play, Exec, FlightOk, EventsOk, PcOk, D.PgOk, R.PayOk;
    JointIsInterleaving(h, env, moves);
    EveryInterleaving(env, Shadow(h, env, moves));
    var j, sys := Play(h, env, moves), Exec(env, Shadow(h, env, moves));
    assert FlightOk(env, j, x);
    assert j.flights[x] in j.threads by { InThreads(env, j, x); }
    var th := j.threads[j.flights[x]];
    assert PcOk(env, sys.world, th.call, th.pc);
    SubmitsItself(env, sys.world, th.call, th.pc);
  }

  lemma InThreads(env: Env, j: Joint, x: nat)
    requires InFlight(j, x) && FlightOk(env, j, x)
    ensures j.flights[x] in j.threads
  {
  }

  lemma EndedTruly(h: string -> int, env: Env, moves: seq<Move>, x: nat)
    requires var j := Play(h, env, moves);
             && InFlight(j, x) && j.pg.txs[x].job.AppendJob? && Ended(j.pg, P.Act(h, j.pg, P.Go(x)), x)
    ensures var j := Play(h, env, moves);
            TrueOf(j.pg.db, j.pg.txs[x].job, P.Act(h, j.pg, P.Go(x)).txs[x].pc.answer)
  {
    hide Play, Exec, P.Act, D.PgOk, R.PayOk, FlightsOk, TrueOf, P.AllFit;
    JointIsInterleaving(h, env, moves);
    StateAnswersTruly(h, Play(h, env, moves).pg, Exec(env, Shadow(h, env, moves)).world, x);
  }

  lemma OutcomeReason(env: Env, j: Joint, x: nat, answer: P.Answer, lost: bool)
    requires ThreadsOk(j.threads) && InFlight(j, x) && FlightOk(env, j, x) && j.threads[j.flights[x]].pc.Submit?
    requires TrueOf(j.pg.db, j.pg.txs[x].job, answer)
    requires var th := j.threads[j.flights[x]];
             th.call.Authorize? ==>
               th.pc.body == EventBody.Authorized(th.call.mandate, th.call.cart, th.call.requestKey)
    ensures var th := j.threads[j.flights[x]];
            var pc2 := Answered(env, th.call, th.pc, Heard(j.pg.txs[x], answer, lost));
            pc2.Deny? ==> TrueAt(env, Seen(j.pg.db), th.call, th.pc, pc2.reason)
  {
    hide TrueAt, Means;
    var th, job := j.threads[j.flights[x]], j.pg.txs[x].job;
    var r :| SaysAs(answer, r) && Means(StoreOf(j.pg.db), job.ctx, job.at, job.body, r);
    assert Fits(th.call, th.pc);
    if answer.Refused? {
      TurnedDownTruly(env, j.pg.db, th.call, th.pc.body, answer.outcome);
    }
  }

  lemma HeardReason(h: string -> int, env: Env, moves: seq<Move>, x: nat, a: P.Action, lost: bool)
    requires moves != [] && (a == P.Go(x) || a == P.Abort(x))
    requires if a.Go? then Last(moves) == Statement(x, lost) else Last(moves) == Drop(x) && !lost
    requires var j := Play(h, env, DropLast(moves));
             && InFlight(j, x) && Ended(j.pg, P.Act(h, j.pg, a), x) && FlightOk(env, j, x)
             && HasReason(h, env, DropLast(moves), j.flights[x], j.threads[j.flights[x]])
    ensures var j := Play(h, env, DropLast(moves));
            var th := j.threads[j.flights[x]];
            var r := Heard(j.pg.txs[x], P.Act(h, j.pg, a).txs[x].pc.answer, lost);
            HasReason(h, env, moves, j.flights[x], th.(pc := Answered(env, th.call, th.pc, r)))
  {
    hide Play, P.Act, TrueAt, RefusedIn, Answered, TrueOf, Fits;
    var front := DropLast(moves);
    var j := Play(h, env, front);
    var t := j.flights[x];
    var th := j.threads[t];
    assert Fits(th.call, th.pc);
    var answer := P.Act(h, j.pg, a).txs[x].pc.answer;
    var r := Heard(j.pg.txs[x], answer, lost);
    ReasonStays(h, env, moves, t, th);
    AnswerGrounds(env, th.call, th.pc, r);
    if th.pc.Submit? && Answered(env, th.call, th.pc, r).Deny? {
      if a.Go? {
        EndedTruly(h, env, front, x);
        InPosition(h, env, front, x);
        OutcomeReason(env, j, x, answer, lost);
        RefusedNow(h, env, moves, t, Answered(env, th.call, th.pc, r).reason);
      } else {
        RolledBackTold(h, j.pg, x);
      }
    }
  }

  lemma RolledBackTold(h: string -> int, pg: P.Pg, x: nat)
    requires P.AllFit(pg) && Ended(pg, P.Act(h, pg, P.Abort(x)), x)
    ensures P.Act(h, pg, P.Abort(x)).txs[x].pc.answer.RolledBack?
  {
    hide P.UnlockAll;
  }

  lemma EndReason(h: string -> int, env: Env, moves: seq<Move>, x: nat, a: P.Action, lost: bool, t: nat)
    requires moves != [] && (a == P.Go(x) || a == P.Abort(x))
    requires if a.Go? then Last(moves) == Statement(x, lost) else Last(moves) == Drop(x) && !lost
    requires var j := Play(h, env, DropLast(moves));
             t in j.threads && HasReason(h, env, DropLast(moves), t, j.threads[t])
    ensures var j := Play(h, env, DropLast(moves));
            var j2 := Deliver(env, j, P.Act(h, j.pg, a), x, lost);
            t in j2.threads && HasReason(h, env, moves, t, j2.threads[t])
  {
    hide Play, P.Act, HasReason, Answered, Heard, P.AllFit;
    var front := DropLast(moves);
    var j := Play(h, env, front);
    ReasonStays(h, env, moves, t, j.threads[t]);
    if Ended(j.pg, P.Act(h, j.pg, a), x) && x in j.flights && j.flights[x] == t && j.pg.txs[x].job.AppendJob? {
      InPosition(h, env, front, x);
      HeardReason(h, env, moves, x, a, lost);
    }
  }

  /** In every joint run over PostgreSQL, a call that ends refused is refused under its own
      context and stage, for a reason that was true of the committed tables at one of its own
      moves: a read of its own, or the statement that ended its transaction. */
  lemma {:induction false} RefusalsWereTrue(h: string -> int, env: Env, moves: seq<Move>, t: nat)
    requires t in Play(h, env, moves).threads
    ensures HasReason(h, env, moves, t, Play(h, env, moves).threads[t])
  {
    hide HasReason, StepCall, P.Act, Deliver, P.AllFit, JobOf, Busy;
    if moves == [] {
      assert false;
    } else {
      var front, a := DropLast(moves), Last(moves);
      var j := Play(h, env, front);
      if t in j.threads {
        RefusalsWereTrue(h, env, front, t);
        ReasonStays(h, env, moves, t, j.threads[t]);
        match a
        case Read(tid) => if tid == t && Reading(j.threads[t].pc) { ReadReason(h, env, moves, t); }
        case Statement(x, lost) => EndReason(h, env, moves, x, P.Go(x), lost, t);
        case Drop(x) => EndReason(h, env, moves, x, P.Abort(x), false, t);
        case _ =>
      } else {
        NoReasonYet(h, env, moves, t, Play(h, env, moves).threads[t].call);
        NewThread(h, env, moves, t);
      }
    }
  }

  lemma NoReasonYet(h: string -> int, env: Env, moves: seq<Move>, t: nat, call: Call)
    ensures HasReason(h, env, moves, t, Thread(call, Start))
  {
  }

  lemma NewThread(h: string -> int, env: Env, moves: seq<Move>, t: nat)
    requires moves != [] && t in Play(h, env, moves).threads && t !in Play(h, env, DropLast(moves)).threads
    ensures Play(h, env, moves).threads[t].pc.Start?
  {
    hide P.Act, StepCall, Answered, JobOf, Busy, P.AllFit, Heard;
  }
}
