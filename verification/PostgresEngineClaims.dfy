/** The engine's and the x402 rail's main claims, over PostgreSQL: about the committed log and
    tables, whatever the calls' transactions did in between. */
module PostgresEngineClaims {
  import opened Prelude
  import opened Domain
  import opened Lifecycle
  import opened Events
  import opened Evidence
  import opened StoreRuns
  import opened StoreClaims
  import opened Engine
  import opened EngineRuns
  import opened PostgresEngine
  import EngineClaims
  import EngineCalls
  import opened EngineErrors
  import PostgresClaims
  import P = Postgres
  import D = PostgresData
  import R = PostgresRefines
  import opened X402Reference
  import opened X402Rail
  import X402Claims
  import opened X402Runs

  /** The calls and the committed tables, as one system. */
  function AsSystem(j: Joint): System {
    System(Seen(j.pg.db), j.threads)
  }

  lemma Matched(h: string -> int, env: Env, moves: seq<Move>)
    ensures var j, sys := Play(h, env, moves), Exec(env, Shadow(h, env, moves));
            && j.threads == sys.threads
            && j.pg.db.books.records == sys.world.store.books.records
            && R.SameLog(j.pg.db.events, sys.world.history)
            && SystemOk(env, sys)
  {
    hide Play, Exec, D.PgOk, FlightsOk, R.AllPayable, R.BudgetsKnown, R.NeverCorrupt, R.NoSmaller, R.SameLog,
      SystemOk, Solvent;
    JointIsInterleaving(h, env, moves);
    EveryInterleaving(env, Shadow(h, env, moves));
  }

  lemma SameEvent(pg: seq<Event>, mem: seq<Event>, i: nat)
    requires R.SameLog(pg, mem) && i < |pg|
    ensures |mem| == |pg| && pg[i].ctx == mem[i].ctx && pg[i].at == mem[i].at && pg[i].body == mem[i].body
  {
    assert R.Payload(pg[i]) == R.Payload(mem[i]);
  }

  /** The log authorizes `ctx` at `i` only, as both calls asked. */
  ghost predicate OnlyAuthorizedAt(log: seq<Event>, i: nat, ctx: ContextId, a: Call, b: Call) {
    i < |log| && EngineClaims.OnlyAt(log, i) && EngineClaims.AuthorizedAs(log[i], ctx, a, b)
  }

  lemma OnlyAlike(log: seq<Event>, mem: seq<Event>, i: nat)
    requires R.SameLog(log, mem) && i < |mem| && EngineClaims.OnlyAt(mem, i)
    ensures i < |log| && EngineClaims.OnlyAt(log, i)
  {
    SameEvent(log, mem, i);
    forall j | 0 <= j < |log| && log[j].body.Authorized? && log[j].ctx == log[i].ctx
      ensures j == i
    {
      SameEvent(log, mem, j);
    }
  }

  /** Callers told yes for one context hold the same token, and presented exactly the mandate
      body and signer of the one `Authorized` event the committed log holds of it. */
  lemma AuthorizeRace(h: string -> int, env: Env, moves: seq<Move>, s: nat, t: nat)
    requires var threads := Play(h, env, moves).threads;
             && s in threads && threads[s].pc.Done? && threads[s].pc.reply.GotAuthorized?
             && t in threads && threads[t].pc.Done? && threads[t].pc.reply.GotAuthorized?
             && CtxOf(env, threads[s].call) == CtxOf(env, threads[t].call)
    ensures var j := Play(h, env, moves);
            && j.threads[s].pc.reply == j.threads[t].pc.reply
            && exists i: nat :: OnlyAuthorizedAt(j.pg.db.events, i, CtxOf(env, j.threads[s].call),
                                                 j.threads[s].call, j.threads[t].call)
  {
    hide Play, Exec, R.SameLog, SystemOk, EngineClaims.OnlyAt;
    Matched(h, env, moves);
    EngineClaims.AuthorizeRace(env, Shadow(h, env, moves), s, t);
    var j, sys := Play(h, env, moves), Exec(env, Shadow(h, env, moves));
    var log, mem := j.pg.db.events, sys.world.history;
    var ctx := CtxOf(env, j.threads[s].call);
    var i: int :| 0 <= i < |mem| && EngineClaims.OnlyAt(mem, i)
      && EngineClaims.AuthorizedAs(mem[i], ctx, j.threads[s].call, j.threads[t].call);
    OnlyAlike(log, mem, i);
    SameEvent(log, mem, i);
    assert OnlyAuthorizedAt(log, i, ctx, j.threads[s].call, j.threads[t].call);
  }

  /** Every committed chain verifies, adds up to its record and is on one of the three lives. */
  lemma LivesAreLawful(h: string -> int, env: Env, moves: seq<Move>, c: ContextId)
    ensures var db := Play(h, env, moves).pg.db;
            var chain := ChainOf(db.events, c);
            && Linked(c, chain) && Get(db.books.records, c) == RecordFrom(chain)
            && (States(chain) <= DELIVERY || States(chain) <= FAILURE || States(chain) <= LAPSE)
  {
    hide Play, P.Exec;
    JointIsSchedule(h, env, moves);
    PostgresClaims.ChainsVerify(h, Statements(h, env, moves), c);
  }

  /** Once a revocation has committed, no call's authorization under the mandate ever commits,
      wherever its transaction had got to. */
  lemma RevocationHolds(h: string -> int, env: Env, before: seq<Move>, after: seq<Move>, m: MandateId)
    requires m in Play(h, env, before).pg.db.books.revoked
    ensures m in Play(h, env, before + after).pg.db.books.revoked
    ensures TimesUnder(Play(h, env, before + after).pg.db.events, m) == TimesUnder(Play(h, env, before).pg.db.events, m)
  {
    hide Play, P.Exec, Statements, TimesUnder;
    JointIsSchedule(h, env, before);
    JointIsSchedule(h, env, before + after);
    StatementsExtend(h, env, before, after);
    var so, all := Statements(h, env, before), Statements(h, env, before + after);
    assert all == so + all[|so|..];
    PostgresClaims.RevokedForGood(h, so, all[|so|..], m);
  }

  lemma AnsweredAlike(call: Call, auth: Event, paid: Event, outcome: Event, a: Event, p: Event, o: Event)
    requires auth.body == a.body && paid.body == p.body && outcome.body == o.body && outcome.ctx == o.ctx
    requires EngineClaims.AnsweredBy(call, a, p, o)
    ensures EngineClaims.AnsweredBy(call, auth, paid, outcome)
  {
  }

  /** A committed outcome is the recorded rail's answer, to some call, about that very payment. */
  lemma SettlementsAnswerThePayment(h: string -> int, env: Env, moves: seq<Move>, i: nat, k: nat, n: nat)
    requires var log := Play(h, env, moves).pg.db.events;
             && i < |log| && k < |log| && n < |log| && log[i].ctx == log[k].ctx == log[n].ctx
             && log[i].body.Authorized? && log[k].body.Paid? && EngineClaims.IsSettlement(log[n].body)
    ensures var j := Play(h, env, moves);
            var log := j.pg.db.events;
            exists t :: t in j.threads && EngineClaims.AnsweredBy(j.threads[t].call, log[i], log[k], log[n])
  {
    hide Play, Exec, R.SameLog, SystemOk, EngineClaims.AnsweredBy;
    Matched(h, env, moves);
    var j, sys := Play(h, env, moves), Exec(env, Shadow(h, env, moves));
    var log, mem := j.pg.db.events, sys.world.history;
    SameEvent(log, mem, i);
    SameEvent(log, mem, k);
    SameEvent(log, mem, n);
    EngineClaims.SettlementsAnswerThePayment(env, Shadow(h, env, moves), i, k, n);
    var t :| t in sys.threads && EngineClaims.AnsweredBy(sys.threads[t].call, mem[i], mem[k], mem[n]);
    AnsweredAlike(sys.threads[t].call, log[i], log[k], log[n], mem[i], mem[k], mem[n]);
  }

  /** A decided settlement is answered again at any later call's first read, whatever rail or
      evidence it brings, and no transaction is started. */
  lemma SettlementRetried(h: string -> int, env: Env, moves: seq<Move>, s: nat, t: nat)
    requires var threads := Play(h, env, moves).threads;
             && s in threads && threads[s].pc.Done? && threads[s].pc.reply.GotSettlement?
             && !threads[s].pc.reply.settlement.StillPending?
             && t in threads && threads[t].pc.Start? && threads[t].call.RecordSettlement?
             && CtxOf(env, threads[s].call) == threads[t].call.ctx
    ensures var j := Play(h, env, moves);
            Do(h, env, j, Read(t)) == j.(threads := j.threads[t := j.threads[t].(pc := Done(j.threads[s].pc.reply))])
  {
    hide Play, Exec, StepCall, FlightsOk, D.PgOk, R.PayOk, P.AllFit;
    JointIsInterleaving(h, env, moves);
    var j, sys := Play(h, env, moves), Exec(env, Shadow(h, env, moves));
    EngineCalls.SettlementRetried(env, Shadow(h, env, moves), s, t);
    ReadAgrees(h, env, j, sys, t);
  }

  /** A committed payment is for exactly the total its context was authorized for. */
  lemma PaymentsAreWhatWasAuthorized(h: string -> int, env: Env, moves: seq<Move>, i: nat, k: nat)
    requires var log := Play(h, env, moves).pg.db.events;
             i < |log| && k < |log| && log[i].ctx == log[k].ctx && log[i].body.Authorized? && log[k].body.Paid?
    ensures var log := Play(h, env, moves).pg.db.events;
            log[k].body.amount == log[i].body.cart.claims.total
  {
    hide Play, Exec, R.SameLog, SystemOk;
    Matched(h, env, moves);
    var log, mem := Play(h, env, moves).pg.db.events, Exec(env, Shadow(h, env, moves)).world.history;
    SameEvent(log, mem, i);
    SameEvent(log, mem, k);
    EngineClaims.PaymentsAreWhatWasAuthorized(env, Shadow(h, env, moves), i, k);
  }

  lemma SignedAlike(cfg: Config, env: Env, a: System, b: System, e: Event, f: Event)
    requires a.threads == b.threads && a.world.store.books.records == b.world.store.books.records
    requires e.ctx == f.ctx && e.body == f.body && SignedFor(cfg, env, a, e)
    ensures SignedFor(cfg, env, b, f)
  {
    hide Presents, X402Claims.PaysFor;
    var t: nat :| PresentedBy(cfg, env, a, e, t);
    assert PresentedBy(cfg, env, b, f, t);
  }

  /** Each x402 payment in the committed log was presented by some call, signed by its payer
      for the authorized amount, merchant and context, and in time. */
  lemma PaymentsAreSigned(cfg: Config, h: string -> int, env: Env, moves: seq<Move>, i: nat)
    requires var j := Play(h, env, moves);
             AllUse(cfg, AsSystem(j)) && i < |j.pg.db.events| && j.pg.db.events[i].body.Paid?
             && j.pg.db.events[i].body.rail == cfg.id
    ensures var j := Play(h, env, moves); SignedFor(cfg, env, AsSystem(j), j.pg.db.events[i])
  {
    hide Play, Exec, R.SameLog, SystemOk, SignedFor, Uses;
    Matched(h, env, moves);
    var j, sys := Play(h, env, moves), Exec(env, Shadow(h, env, moves));
    SameEvent(j.pg.db.events, sys.world.history, i);
    X402Runs.PaymentsAreSigned(cfg, env, Shadow(h, env, moves), i);
    SignedAlike(cfg, env, sys, AsSystem(j), sys.world.history[i], j.pg.db.events[i]);
  }

  /** No two payments in the committed log spend the same on-chain authorization. */
  lemma OneAuthorizationPaysOnce(
    cfg: Config, h: string -> int, env: Env, moves: seq<Move>, i: nat, k: nat, p: AuthorizationRef, q: AuthorizationRef)
    requires var j := Play(h, env, moves);
             var log := j.pg.db.events;
             && AllUse(cfg, AsSystem(j)) && i < k < |log| && log[i].body.Paid? && log[k].body.Paid?
             && log[i].body.rail == log[k].body.rail == cfg.id
             && log[i].body.reference == Print(p) && log[k].body.reference == Print(q)
    ensures !SameAuthorizationOnChain(p, q)
  {
    hide Play, Exec, R.SameLog, SystemOk, Uses, Print;
    Matched(h, env, moves);
    var j, sys := Play(h, env, moves), Exec(env, Shadow(h, env, moves));
    SameEvent(j.pg.db.events, sys.world.history, i);
    SameEvent(j.pg.db.events, sys.world.history, k);
    X402Runs.OneAuthorizationPaysOnce(cfg, env, Shadow(h, env, moves), i, k, p, q);
  }

  lemma ShownAlike(cfg: Config, env: Env, a: System, b: System, c: ContextId, body: EventBody)
    requires a.threads == b.threads && a.world.store.books.records == b.world.store.books.records
    requires OutcomeShown(cfg, env, a, c, body)
    ensures OutcomeShown(cfg, env, b, c, body)
  {
    hide Brings, Shows;
    var t: nat :| BroughtBy(cfg, env, a, c, body, t);
    assert BroughtBy(cfg, env, b, c, body, t);
  }

  /** A context paid over x402 stops counting against its budget only on a trusted
      facilitator's terminal failure, brought by some call at or past expiry plus grace. */
  lemma ReleasedOnlyAfterExpiry(cfg: Config, h: string -> int, env: Env, moves: seq<Move>, c: ContextId)
    requires var j := Play(h, env, moves);
             var records := j.pg.db.books.records;
             AllUse(cfg, AsSystem(j)) && c in records && records[c].rail == Some(cfg.id) && !IsLive(records[c].state)
    ensures var j := Play(h, env, moves);
            var r := j.pg.db.books.records[c];
            && r.failureReason.Some?
            && OutcomeShown(cfg, env, AsSystem(j), c, EventBody.SettlementFailed(cfg.id, r.failureReason.value))
  {
    hide Play, Exec, R.SameLog, SystemOk, Uses, OutcomeShown;
    Matched(h, env, moves);
    var j, sys := Play(h, env, moves), Exec(env, Shadow(h, env, moves));
    X402Runs.ReleasedOnlyAfterExpiry(cfg, env, Shadow(h, env, moves), c);
    var r := sys.world.store.books.records[c];
    ShownAlike(cfg, env, sys, AsSystem(j), c, EventBody.SettlementFailed(cfg.id, r.failureReason.value));
  }

  /** A recorded x402 payment, presented again by any call at any clock reading, gets its
      first answer at that call's first read, and starts no transaction. */
  lemma PaymentRetriedAnytime(
    cfg: Config, h: string -> int, env: Env, moves: seq<Move>, s: nat, t: nat, now: Time, later: Time, proof: Payload)
    requires var threads := Play(h, env, moves).threads;
             && s in threads && threads[s].pc.Done? && threads[s].pc.reply.GotPaid?
             && t in threads && threads[t].pc.Start?
             && Presents(cfg, threads[s].call, now, proof) && Presents(cfg, threads[t].call, later, proof)
             && threads[s].call.ctx == threads[t].call.ctx
    ensures var j := Play(h, env, moves);
            Do(h, env, j, Read(t)) ==
            j.(threads := j.threads[t := j.threads[t].(pc := Done(j.threads[s].pc.reply))])
  {
    hide Play, Exec, StepCall, FlightsOk, D.PgOk, R.PayOk, Presents, P.AllFit;
    JointIsInterleaving(h, env, moves);
    var j, sys := Play(h, env, moves), Exec(env, Shadow(h, env, moves));
    X402Runs.PaymentRetriedAnytime(cfg, env, Shadow(h, env, moves), s, t, now, later, proof);
    ReadAgrees(h, env, j, sys, t);
  }

  // ----- no corruption -----

  /** What the store turns down, it turns down sincerely. */
  lemma EndSuits(h: string -> int, db: P.Db, locks: P.Locks, t: nat, tx: P.Tx, pc: Pc)
    requires P.Fits(tx) && tx.job.AppendJob? && P.MoveOf(h, db, locks, t, tx).End?
    requires if pc.Submit? then tx.job.body == pc.body && !pc.body.Denied? else pc.Deny? && tx.job.body.Denied?
    ensures match P.MoveOf(h, db, locks, t, tx).answer
            case Refused(outcome) => EngineErrors.Suits(pc, outcome)
            case Failed(e) => e.Corrupt? || EngineErrors.Sincere(db.books.records, tx.job.ctx, pc, Err(e))
            case _ => true
  {
    hide P.WriteDb, P.RevokeDb;
    match tx.pc
    case WantContext =>
    case _ =>
  }

  lemma ToldSincere(h: string -> int, env: Env, j: Joint, sys: System, x: nat, a: P.Action, lost: bool)
    requires JointFit(j) && Agree(h, env, j, sys) && (a == P.Go(x) || a == P.Abort(x))
    requires Ended(j.pg, P.Act(h, j.pg, a), x) && InFlight(j, x) && j.pg.txs[x].job.AppendJob?
    requires !P.Act(h, j.pg, a).txs[x].pc.answer.Committed?
    ensures var pg2 := P.Act(h, j.pg, a);
            SincereAction(env, sys, TurnDown(j.flights[x], Heard(j.pg.txs[x], pg2.txs[x].pc.answer, lost)))
  {
    hide D.PgOk, P.MoveOf, P.UnlockAll, P.Fits, R.Refines, R.AllPayable, R.BudgetsKnown, EngineErrors.Suits;
    var tx := j.pg.txs[x];
    assert FlightOk(env, j, x);
    var th := j.threads[j.flights[x]];
    SameRecords(j.pg, sys.world);
    if a.Go? {
      P.MoveFits(h, j.pg.db, j.pg.locks, x, tx);
      EndSuits(h, j.pg.db, j.pg.locks, x, tx, th.pc);
      NotCorrupt(h, j.pg, sys.world, x);
    }
  }

  lemma SameRecords(pg: P.Pg, w: World)
    requires R.PayOk(pg, w)
    ensures pg.db.books.records == w.store.books.records
  {
    hide R.NoSmaller, R.SameLog, Solvent;
  }

  lemma NotCorrupt(h: string -> int, pg: P.Pg, w: World, x: nat)
    requires P.AllFit(pg) && D.PgOk(h, pg) && R.PayOk(pg, w) && x in pg.txs
    ensures var pg2 := P.Act(h, pg, P.Go(x));
            && x in pg2.txs
            && var pc := pg2.txs[x].pc; pc.Closed? && pc.answer.Failed? ==> !pc.answer.error.Corrupt?
  {
    hide P.Act, D.PgOk, R.AllPayable, R.BudgetsKnown, R.Refines, Run, P.AllFit;
    R.ActPays(h, pg, w, P.Go(x));
    OnlyMoves(h, pg, x, P.Go(x));
  }

  lemma ShadowSincere(h: string -> int, env: Env, j: Joint, sys: System, a: Move)
    requires JointFit(j) && Agree(h, env, j, sys)
    ensures forall b :: b in ShadowOf(h, env, j, a) ==> SincereAction(env, sys, b) && !b.Prune?
  {
    hide P.Act, D.PgOk, R.PayOk, SincereAction, Heard, P.AllFit;
    match a
    case Statement(x, lost) => EndSincere(h, env, j, sys, x, P.Go(x), lost);
    case Drop(x) => EndSincere(h, env, j, sys, x, P.Abort(x), false);
    case Enter(tid, call) => Harmless(env, sys, Begin(tid, call));
    case Read(tid) => Harmless(env, sys, Go(tid));
    case _ =>
  }

  lemma Harmless(env: Env, sys: System, a: Action)
    requires !a.TurnDown?
    ensures SincereAction(env, sys, a)
  {
  }

  lemma EndSincere(h: string -> int, env: Env, j: Joint, sys: System, x: nat, a: P.Action, lost: bool)
    requires JointFit(j) && Agree(h, env, j, sys) && (a == P.Go(x) || a == P.Abort(x))
    ensures forall b :: b in ShadowOfEnd(j, P.Act(h, j.pg, a), x, lost) ==> SincereAction(env, sys, b) && !b.Prune?
  {
    hide P.Act, D.PgOk, R.PayOk, SincereAction, Heard, P.AllFit;
    var pg2 := P.Act(h, j.pg, a);
    if Ended(j.pg, pg2, x) {
      if j.pg.txs[x].job.AppendJob? && x in j.flights {
        Harmless(env, sys, Go(j.flights[x]));
        Harmless(env, sys, LoseAnswer(j.flights[x]));
        if !pg2.txs[x].pc.answer.Committed? {
          ToldSincere(h, env, j, sys, x, a, lost);
        }
      } else if j.pg.txs[x].job.RevokeJob? {
        Harmless(env, sys, Revoke(j.pg.txs[x].job.mandate));
      }
    }
  }

  lemma SincereSnoc(env: Env, schedule: seq<Action>, more: seq<Action>)
    requires AllSincere(env, schedule) && |more| <= 1
    requires forall b :: b in more ==> SincereAction(env, Exec(env, schedule), b)
    ensures AllSincere(env, schedule + more)
  {
    hide Exec, SincereAction;
    var all := schedule + more;
    forall i | 0 <= i < |all|
      ensures SincereAction(env, Exec(env, all[..i]), all[i])
    {
      if i < |schedule| {
        assert all[..i] == schedule[..i];
        assert SincereAction(env, Exec(env, schedule[..i]), schedule[i]);
      } else {
        assert all[..i] == schedule && all[i] in more;
      }
    }
  }

  lemma {:induction false} ShadowsSincere(h: string -> int, env: Env, moves: seq<Move>)
    ensures AllSincere(env, Shadow(h, env, moves))
    ensures forall i :: 0 <= i < |Shadow(h, env, moves)| ==> !Shadow(h, env, moves)[i].Prune?
  {
    hide Play, Exec, ShadowOf, SincereAction, Agree, AllSincere, SystemOk;
    if moves == [] {
      NothingInsincere(env);
    } else {
      var front := DropLast(moves);
      ShadowsSincere(h, env, front);
      JointIsInterleaving(h, env, front);
      EveryInterleaving(env, Shadow(h, env, front));
      var j, sys := Play(h, env, front), Exec(env, Shadow(h, env, front));
      DoAgrees(h, env, j, sys, Last(moves));
      ShadowSincere(h, env, j, sys, Last(moves));
      SincereSnoc(env, Shadow(h, env, front), ShadowOf(h, env, j, Last(moves)));
    }
  }

  lemma NothingInsincere(env: Env)
    ensures AllSincere(env, [])
  {
  }

  /** Over PostgreSQL, which is never pruned, no call is ever told that the store is corrupt:
      the only store errors are money arithmetic, a transition another call made illegal, and
      a failing backend. */
  lemma NeverToldCorrupt(h: string -> int, env: Env, moves: seq<Move>, t: nat)
    requires t in Play(h, env, moves).threads
    ensures var pc := Play(h, env, moves).threads[t].pc;
            pc.Done? && pc.reply.StoreFailed? ==>
              pc.reply.error.BadMoney? || pc.reply.error.IllegalTransition? || pc.reply.error.Backend?
  {
    hide Play, Exec, R.SameLog, SystemOk, AllSincere, LooksUpAt;
    Matched(h, env, moves);
    ShadowsSincere(h, env, moves);
    var pc := Play(h, env, moves).threads[t].pc;
    if ToldCorrupt(pc) {
      CorruptOnlyIfDropped(env, Shadow(h, env, moves), t);
    } else if pc.Done? && pc.reply.StoreFailed? {
      ErrorsAreTolerable(env, Shadow(h, env, moves), t);
    }
  }
}
