/** What a call undisturbed by others ends with, and retries in every interleaving. */
module EngineCalls {
  import opened Prelude
  import opened Domain
  import opened Lifecycle
  import opened Scopes
  import opened Events
  import opened Evidence
  import opened Bookkeeping
  import opened StoreRuns
  import opened StoreClaims
  import opened WorldGrowth
  import opened Rails
  import opened Engine
  import opened EngineRuns

  /** What a call knows at each position when nobody else has moved. */
  predicate Undisturbed(env: Env, w: World, call: Call, pc: Pc) {
    var ctx := CtxOf(env, call);
    match pc
    case CheckRevoked => ctx !in w.store.books.records
    case Submit(body) => LegalStep(w.store.books, ctx, body)
    case ReadAgain => false
    case Replay(rec) => ctx in w.store.books.records && rec == w.store.books.records[ctx]
    case Done(reply) => reply.StoreFailed? ==> reply.error.BadMoney?
    case _ => true
  }

  lemma StartUndisturbed(env: Env, w: World, call: Call)
    requires WorldOk(w)
    ensures Undisturbed(env, w, call, StartCall(env, call, Get(w.store.books.records, CtxOf(env, call))))
  {
    hide Spent, Solvent, ContextsOk, Verified, BindingFault;
    var ctx := CtxOf(env, call);
    if ctx in w.store.books.records {
      RecordWellFormed(w, ctx);
    }
  }

  /** A legal submit is appended, refused in its own way, or fails on money alone. */
  lemma LegalAppend(s: Store, ctx: ContextId, at: Time, body: EventBody)
    requires Solvent(s.books) && LegalStep(s.books, ctx, body)
    ensures var r := Append(s, ctx, at, body).1;
            match r
            case Err(e) => e.BadMoney? && !body.Denied?
            case Ok(Appended(_)) => true
            case Ok(BudgetExceeded(_)) => body.Authorized?
            case Ok(VelocityExceeded(_)) => body.Authorized?
            case Ok(MandateRevoked) => body.Authorized?
            case Ok(NonceAlreadyUsed) => body.Paid?
            case Ok(DenialsCapped) => body.Denied?
  {
    var r := Append(s, ctx, at, body).1;
    if r.Err? && r.error.Corrupt? {
      CorruptOnlyByRelease(s, ctx, at, body);
      ReleaseCovered(s.books, ctx);
    } else {
      hide Solvent, ChainOf, CheckedAdd, CheckedSub, VelocityRefusal, CountSince;
      LegalOutcome(s, ctx, at, body);
    }
  }

  lemma LegalOutcome(s: Store, ctx: ContextId, at: Time, body: EventBody)
    requires LegalStep(s.books, ctx, body)
    ensures var r := Append(s, ctx, at, body).1;
            match r
            case Err(e) => !e.IllegalTransition? && !body.Denied?
            case Ok(Appended(_)) => true
            case Ok(BudgetExceeded(_)) => body.Authorized?
            case Ok(VelocityExceeded(_)) => body.Authorized?
            case Ok(MandateRevoked) => body.Authorized?
            case Ok(NonceAlreadyUsed) => body.Paid?
            case Ok(DenialsCapped) => body.Denied?
  {
    hide ChainOf, CheckedAdd, CheckedSub, CountSince, AdvanceRecords, NewRecord;
  }

  lemma StepUndisturbed(env: Env, w: World, call: Call, pc: Pc)
    requires WorldOk(w) && Fits(call, pc) && PcOk(env, w, call, pc) && Undisturbed(env, w, call, pc)
    ensures var (w2, pc2) := StepCall(env, w, call, pc); Undisturbed(env, w2, call, pc2)
  {
    hide Append, StartCall, Verified, Refusal, Spent, ContextsOk, PcOk, Solvent;
    var ctx := CtxOf(env, call);
    match pc
    case Start => StartUndisturbed(env, w, call);
    case Submit(body) => LegalAppend(w.store, ctx, call.now, body);
    case Deny(reason) => LegalAppend(w.store, ctx, call.now, EventBody.Denied(StageOf(call), reason));
    case Replay(rec) => PrunedMeansOver(w, ctx);
    case _ =>
  }

  /** A context that exists but has no `Authorized` event left is over. */
  lemma PrunedMeansOver(w: World, c: ContextId)
    requires ContextsOk(w) && c in w.store.books.records
    ensures AuthorizedMandate(ChainOf(w.store.events, c)).None? ==> IsTerminal(w.store.books.records[c].state)
    ensures AuthorizedMandate(ChainOf(w.store.events, c)).Some? ==>
              AuthorizedMandate(ChainOf(w.store.events, c)) == MandateOf(w, c)
  {
    assert ContextOk(w, c);
  }

  /** The world and the reply a call ends with are in order. */
  lemma {:induction false} CallEnds(env: Env, w: World, call: Call, pc: Pc)
    requires WorldOk(w) && Fits(call, pc) && PcOk(env, w, call, pc) && Undisturbed(env, w, call, pc)
    ensures var (w2, reply) := RunCall(env, w, call, pc);
            && WorldOk(w2) && ReplyOk(w2, CtxOf(env, call), call, reply)
            && (reply.StoreFailed? ==> reply.error.BadMoney?)
    decreases Rank(pc)
  {
    hide StepCall, WorldOk, ReplyOk, WorldGrows;
    if !pc.Done? {
      StepsAdvance(env, w, call, pc);
      WorldOfStep(env, w, call, pc);
      CallStepOk(env, w, call, pc);
      StepUndisturbed(env, w, call, pc);
      var (w2, pc2) := StepCall(env, w, call, pc);
      CallEnds(env, w2, call, pc2);
    }
  }

  /** An undisturbed call never reports a corrupt store or an illegal transition; the only
      store error it can meet is money arithmetic. */
  lemma CallsNeverCorrupt(env: Env, w: World, call: Call)
    requires WorldOk(w)
    ensures var reply := RunCall(env, w, call, Start).1; reply.StoreFailed? ==> reply.error.BadMoney?
  {
    hide WorldOk, RunCall, ReplyOk;
    CallEnds(env, w, call, Start);
  }

  // ----- retries -----

  /** Retrying an authorization with the mandate it was granted under returns the same token
      and writes nothing, for as long as the context is not over. */
  lemma AuthorizeRetried(env: Env, w: World, call: Call)
    requires WorldOk(w) && call.Authorize? && Verified(env, call.mandate)
    requires var ctx := CtxOf(env, call);
             && ctx in w.store.books.records && !IsTerminal(w.store.books.records[ctx].state)
             && MandateOf(w, ctx).Some?
             && MandateOf(w, ctx).value.body == call.mandate.body
             && MandateOf(w, ctx).value.signer == call.mandate.signer
    ensures RunCall(env, w, call, Start)
              == (w, GotAuthorized(AuthorizedFrom(w.store.books.records[CtxOf(env, call)])))
  {
    hide Spent, Solvent, ContextsOk, Verified, AuthorizedMandate, ChainOf;
    var ctx := CtxOf(env, call);
    PrunedMeansOver(w, ctx);
    var rec := w.store.books.records[ctx];
    assert StepCall(env, w, call, Start) == (w, Replay(rec));
    assert StepCall(env, w, call, Replay(rec)) == (w, Done(GotAuthorized(AuthorizedFrom(rec))));
    assert RunCall(env, w, call, Replay(rec)) == (w, GotAuthorized(AuthorizedFrom(rec)));
  }

  // ----- retries among other calls -----

  /** Thread `t` answers `reply` at its next step, and nothing else changes. */
  ghost predicate AnswersNext(env: Env, sys: System, t: nat, reply: Reply)
    requires ThreadsFit(sys) && t in sys.threads
  {
    Act(env, sys, Go(t)) == sys.(threads := sys.threads[t := sys.threads[t].(pc := Done(reply))])
  }

  lemma StartAnswers(env: Env, sys: System, t: nat, reply: Reply)
    requires ThreadsFit(sys) && t in sys.threads && sys.threads[t].pc.Start?
    requires var call := sys.threads[t].call;
             StartCall(env, call, Get(sys.world.store.books.records, CtxOf(env, call))) == Done(reply)
    ensures AnswersNext(env, sys, t, reply)
  {
    hide StartCall;
  }

  lemma PaidAgain(env: Env, w: World, call: Call, paid: PaidToken, first: Call)
    requires ContextsOk(w) && Named(w.store.books) && call.RecordPayment? && call.railId == paid.rail
    requires ReplyOk(w, call.ctx, first, GotPaid(paid))
    requires var proof := call.verify(ExpectPayment(w.store.books.records[call.ctx]));
             proof.Ok? && proof.value.reference == paid.reference
    ensures StartCall(env, call, Get(w.store.books.records, call.ctx)) == Done(GotPaid(paid))
  {
    hide ContextsOk, BindingFault;
    RecordWellFormed(w, call.ctx);
  }

  /** In every interleaving: once some call has been told a payment is recorded, any call
      that starts for the same context and rail, with a proof its rail recognizes as that
      payment, is told the same at its first step, and writes nothing. */
  lemma PaymentRetried(env: Env, schedule: seq<Action>, s: nat, t: nat)
    requires var sys := Exec(env, schedule);
             && s in sys.threads && sys.threads[s].pc.Done? && sys.threads[s].pc.reply.GotPaid?
             && t in sys.threads && sys.threads[t].pc.Start? && sys.threads[t].call.RecordPayment?
             && CtxOf(env, sys.threads[s].call) == sys.threads[t].call.ctx
             && sys.threads[t].call.railId == sys.threads[s].pc.reply.paid.rail
    requires var sys := Exec(env, schedule);
             var call, records := sys.threads[t].call, sys.world.store.books.records;
             && call.ctx in records && call.verify(ExpectPayment(records[call.ctx])).Ok?
             && call.verify(ExpectPayment(records[call.ctx])).value.reference == sys.threads[s].pc.reply.paid.reference
    ensures AnswersNext(env, Exec(env, schedule), t, Exec(env, schedule).threads[s].pc.reply)
  {
    hide Exec, StartCall, ContextsOk, Spent, Solvent, EventsOk, ReplyOk, AnswersNext;
    EveryInterleaving(env, schedule);
    var sys := Exec(env, schedule);
    assert PcOk(env, sys.world, sys.threads[s].call, sys.threads[s].pc);
    var paid := sys.threads[s].pc.reply.paid;
    PaidAgain(env, sys.world, sys.threads[t].call, paid, sys.threads[s].call);
    StartAnswers(env, sys, t, GotPaid(paid));
  }

  lemma SettledAgain(env: Env, w: World, call: Call, reply: Reply, first: Call)
    requires ContextsOk(w) && Named(w.store.books) && call.RecordSettlement?
    requires reply.GotSettlement? && !reply.settlement.StillPending? && ReplyOk(w, call.ctx, first, reply)
    ensures StartCall(env, call, Get(w.store.books.records, call.ctx)) == Done(reply)
  {
    hide ContextsOk;
    RecordWellFormed(w, call.ctx);
  }

  /** The same of settlements, whatever rail or evidence the later call brings. */
  lemma SettlementRetried(env: Env, schedule: seq<Action>, s: nat, t: nat)
    requires var sys := Exec(env, schedule);
             && s in sys.threads && sys.threads[s].pc.Done? && sys.threads[s].pc.reply.GotSettlement?
             && !sys.threads[s].pc.reply.settlement.StillPending?
             && t in sys.threads && sys.threads[t].pc.Start? && sys.threads[t].call.RecordSettlement?
             && CtxOf(env, sys.threads[s].call) == sys.threads[t].call.ctx
    ensures AnswersNext(env, Exec(env, schedule), t, Exec(env, schedule).threads[s].pc.reply)
  {
    hide Exec, StartCall, ContextsOk, Spent, Solvent, EventsOk, ReplyOk, AnswersNext;
    EveryInterleaving(env, schedule);
    var sys := Exec(env, schedule);
    assert PcOk(env, sys.world, sys.threads[s].call, sys.threads[s].pc);
    SettledAgain(env, sys.world, sys.threads[t].call, sys.threads[s].pc.reply, sys.threads[s].call);
    StartAnswers(env, sys, t, sys.threads[s].pc.reply);
  }

  /** And of authorizations: a retry that presents the body and signer that were granted
      never writes, and is told the same, for as long as the context is not over. */
  lemma AuthorizeRetriedAmongOthers(env: Env, schedule: seq<Action>, s: nat, t: nat)
    requires var sys := Exec(env, schedule);
             && s in sys.threads && sys.threads[s].pc.Done? && sys.threads[s].pc.reply.GotAuthorized?
             && t in sys.threads && sys.threads[t].call.Authorize? && Verified(env, sys.threads[t].call.mandate)
             && (sys.threads[t].pc.Start? || sys.threads[t].pc.Replay?)
    requires var sys := Exec(env, schedule);
             var first, again := sys.threads[s].call, sys.threads[t].call;
             && CtxOf(env, first) == CtxOf(env, again) && first.Authorize?
             && first.mandate.body == again.mandate.body && first.mandate.signer == again.mandate.signer
             && CtxOf(env, again) in sys.world.store.books.records
             && !IsTerminal(sys.world.store.books.records[CtxOf(env, again)].state)
    ensures var sys := Exec(env, schedule);
            var reply := sys.threads[s].pc.reply;
            if sys.threads[t].pc.Replay? then AnswersNext(env, sys, t, reply)
            else
              var sys2 := Act(env, sys, Go(t));
              && sys2.world == sys.world
              && sys2.threads[t].pc.Replay? && reply == GotAuthorized(AuthorizedFrom(sys2.threads[t].pc.rec))
  {
    hide Exec, ContextsOk, Spent, Solvent, EventsOk, AuthorizedMandate, ChainOf, Verified;
    EveryInterleaving(env, schedule);
    var sys := Exec(env, schedule);
    assert PcOk(env, sys.world, sys.threads[s].call, sys.threads[s].pc);
    assert PcOk(env, sys.world, sys.threads[t].call, sys.threads[t].pc);
    PrunedMeansOver(sys.world, CtxOf(env, sys.threads[t].call));
  }

  // ----- where a paid answer came from -----

  /** The call's rail, asked with `e` about the call's own context, knew the payment. */
  predicate ProofSaid(call: Call, e: PaymentExpectation, rail: string, reference: string) {
    && call.RecordPayment? && e.ctx == call.ctx && call.railId == rail
    && call.verify(e).Ok? && call.verify(e).value.reference == reference
  }

  ghost predicate FromItsProof(call: Call, pc: Pc) {
    match pc
    case Submit(body) => body.Paid? ==> exists e: PaymentExpectation :: ProofSaid(call, e, body.rail, body.reference)
    case Done(reply) =>
      reply.GotPaid? ==> exists e: PaymentExpectation :: ProofSaid(call, e, reply.paid.rail, reply.paid.reference)
    case _ => true
  }

  lemma StartFromProof(env: Env, call: Call, rec: Option<Record>)
    ensures FromItsProof(call, StartCall(env, call, rec))
  {
    hide Verified, BindingFault;
    if call.RecordPayment? && rec.Some? {
      var e := ExpectPayment(rec.value).(ctx := call.ctx);
      var proof := call.verify(e);
      assert proof.Ok? ==> ProofSaid(call, e, call.railId, proof.value.reference);
    }
  }

  lemma StepFromProof(env: Env, w: World, call: Call, pc: Pc)
    requires Fits(call, pc) && FromItsProof(call, pc)
    ensures FromItsProof(call, StepCall(env, w, call, pc).1)
  {
    hide Append, AppendWorld, StartCall, Verified, Refusal, ProofSaid;
    if pc.Start? {
      StartFromProof(env, call, Get(w.store.books.records, CtxOf(env, call)));
    }
  }

  /** In every interleaving, a call told a payment is recorded had its own rail say so. */
  lemma {:induction false} PaidFromItsProof(env: Env, schedule: seq<Action>, t: nat)
    requires t in Exec(env, schedule).threads
    ensures FromItsProof(Exec(env, schedule).threads[t].call, Exec(env, schedule).threads[t].pc)
  {
    hide StepCall, Step, FromItsProof, Answered;
    if schedule != [] {
      var front := DropLast(schedule);
      var sys := Exec(env, front);
      if t in sys.threads {
        PaidFromItsProof(env, front, t);
        StepFromProof(env, sys.world, sys.threads[t].call, sys.threads[t].pc);
        if Last(schedule).TurnDown? {
          TurnedDownFromProof(env, sys.threads[t].call, sys.threads[t].pc, Last(schedule).answer);
        } else if Last(schedule).LoseAnswer? {
          TurnedDownFromProof(env, sys.threads[t].call, sys.threads[t].pc, Err(Backend));
        }
      } else {
        FreshFromProof(Exec(env, schedule).threads[t].call);
      }
    }
  }

  lemma TurnedDownFromProof(env: Env, call: Call, pc: Pc, r: Result<AppendOutcome, StoreError>)
    requires Fits(call, pc) && FromItsProof(call, pc)
    ensures !IsAppended(r) ==> FromItsProof(call, Answered(env, call, pc, r))
  {
    hide ProofSaid;
  }

  lemma FreshFromProof(call: Call)
    ensures FromItsProof(call, Start)
  {
  }
}
