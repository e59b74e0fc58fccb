/** Every interleaving of engine calls, prunes and revocations over one store. Besides
    answering as the in-memory store does, the store may turn an append down for reasons of
    its own, as a durable one does when its backend fails or its tables are stricter, and its
    answer may be lost, so that the call is told of a failure although the append was made. */
module EngineRuns {
  import opened Prelude
  import opened Domain
  import opened Lifecycle
  import opened Scopes
  import opened Events
  import opened Evidence
  import opened Bookkeeping
  import opened StoreRuns
  import opened StoreClaims
  import opened WorldGrowth
  import opened Rails
  import opened Engine

  datatype Thread = Thread(call: Call, pc: Pc)

  datatype System = System(world: World, threads: map<nat, Thread>)

  const IDLE: System := System(START, map[])

  datatype Action =
    | Begin(tid: nat, call: Call)
    | Go(tid: nat)
    | TurnDown(tid: nat, answer: Result<AppendOutcome, StoreError>)
    | LoseAnswer(tid: nat)
    | Prune(before: Time)
    | Revoke(mandate: MandateId)

  ghost predicate ThreadsFit(sys: System) {
    forall t :: t in sys.threads ==> Fits(sys.threads[t].call, sys.threads[t].pc)
  }

  /** The store operation one step of a call performs, if any. */
  function OpOf(env: Env, call: Call, pc: Pc): Option<Op> {
    match pc
    case Submit(body) => Some(DoAppend(CtxOf(env, call), call.now, body))
    case Deny(reason) => Some(DoAppend(CtxOf(env, call), call.now, EventBody.Denied(StageOf(call), reason)))
    case _ => None
  }

  /** A call's next position when the store answers its append with `r`. */
  function Answered(env: Env, call: Call, pc: Pc, r: Result<AppendOutcome, StoreError>): (pc2: Pc)
    requires Fits(call, pc)
    ensures Fits(call, pc2)
  {
    match pc
    case Submit(body) => AfterSubmit(CtxOf(env, call), call, body, r)
    case Deny(reason) => AfterDenial(CtxOf(env, call), call, reason, r)
    case _ => pc
  }

  function Act(env: Env, sys: System, a: Action): System
    requires ThreadsFit(sys)
  {
    match a
    case Begin(tid, call) =>
      if tid in sys.threads then sys else sys.(threads := sys.threads[tid := Thread(call, Start)])
    case Go(tid) =>
      if tid !in sys.threads then sys
      else
        var th := sys.threads[tid];
        var (w, pc) := StepCall(env, sys.world, th.call, th.pc);
        System(w, sys.threads[tid := th.(pc := pc)])
    case TurnDown(tid, answer) =>
      if tid !in sys.threads || IsAppended(answer) then sys
      else
        var th := sys.threads[tid];
        sys.(threads := sys.threads[tid := th.(pc := Answered(env, th.call, th.pc, answer))])
    case LoseAnswer(tid) =>
      if tid !in sys.threads then sys
      else
        var th := sys.threads[tid];
        System(StepCall(env, sys.world, th.call, th.pc).0,
               sys.threads[tid := th.(pc := Answered(env, th.call, th.pc, Err(Backend)))])
    case Prune(before) => sys.(world := Step(sys.world, DoPrune(before)))
    case Revoke(mandate) => sys.(world := Step(sys.world, DoRevoke(mandate)))
  }

  lemma ActFits(env: Env, sys: System, a: Action)
    requires ThreadsFit(sys)
    ensures ThreadsFit(Act(env, sys, a))
  {
    hide StepCall, Step, Answered;
  }

  function Exec(env: Env, schedule: seq<Action>): (sys: System)
    ensures ThreadsFit(sys)
  {
    if schedule == [] then IDLE
    else
      var sys := Exec(env, DropLast(schedule));
      ActFits(env, sys, Last(schedule));
      Act(env, sys, Last(schedule))
  }

  /** The store operation one action performs, if any. */
  function OpOfAction(env: Env, sys: System, a: Action): Option<Op> {
    match a
    case Prune(moment) => Some(DoPrune(moment))
    case Revoke(mandate) => Some(DoRevoke(mandate))
    case Go(tid) => if tid in sys.threads then OpOf(env, sys.threads[tid].call, sys.threads[tid].pc) else None
    case LoseAnswer(tid) => if tid in sys.threads then OpOf(env, sys.threads[tid].call, sys.threads[tid].pc) else None
    case _ => None
  }

  /** The store operations an interleaving performs, in order. */
  function Trace(env: Env, schedule: seq<Action>): seq<Op> {
    if schedule == [] then []
    else
      var before := Trace(env, DropLast(schedule));
      match OpOfAction(env, Exec(env, DropLast(schedule)), Last(schedule))
      case None => before
      case Some(op) => before + [op]
  }

  // ----- why a call may submit what it submits -----

  predicate AuthorizeJustified(env: Env, call: Call, body: EventBody) {
    && call.Authorize?
    && body == EventBody.Authorized(call.mandate, call.cart, call.requestKey)
    && Verified(env, call.mandate)
    && env.trusted(call.mandate.body.principal, call.mandate.signer)
    && Admits(call.mandate.body.scope, call.cart.claims, call.cart.attestation, call.now)
  }

  /** A verified proof is of the record's amount, names its context or its cart, and names no
      context, cart or merchant but the record's own. */
  predicate BoundTo(r: Record, v: VerifiedProof) {
    && v.amount == r.amount
    && (v.boundCtx.Some? || v.boundCart.Some?)
    && (v.boundCtx.Some? ==> v.boundCtx.value == r.ctx)
    && (v.boundCart.Some? ==> v.boundCart.value == r.cartHash)
    && (v.boundMerchant.Some? ==> v.boundMerchant.value == r.merchant)
  }

  lemma BindingExactly(r: Record, v: VerifiedProof)
    ensures BindingFault(r, v).None? <==> BoundTo(r, v)
  {
  }

  /** The call's rail verified a fresh proof for this context's own cart and amount. */
  predicate PaymentJustified(records: map<ContextId, Record>, call: Call, body: EventBody) {
    && call.RecordPayment? && call.ctx in records
    && var r := records[call.ctx];
       var proof := call.verify(PaymentExpectation(call.ctx, r.cartHash, r.amount, r.merchant, None));
       && proof.Ok?
       && BoundTo(r, proof.value)
       && body == EventBody.Paid(call.railId, proof.value.reference, proof.value.nonce, proof.value.amount,
                                 Idempotency(call.ctx, call.railId, proof.value.nonce))
  }

  /** The rail that recorded the payment answered for exactly that payment. */
  predicate SettlementJustified(records: map<ContextId, Record>, call: Call, body: EventBody) {
    && call.RecordSettlement? && call.ctx in records
    && var r := records[call.ctx];
       && r.rail == Some(call.railId) && r.paymentReference.Some?
       && match call.finality(SettlementExpectation(call.ctx, r.paymentReference.value, r.amount, r.merchant))
          case Ok(Final(reference)) => body == EventBody.Settled(call.railId, reference)
          case Ok(Failed(cause)) => body == EventBody.SettlementFailed(call.railId, cause)
          case _ => false
  }

  predicate Justified(env: Env, records: map<ContextId, Record>, call: Call, body: EventBody) {
    match body
    case Authorized(_, _, _) => AuthorizeJustified(env, call, body)
    case Paid(_, _, _, _, _) => PaymentJustified(records, call, body)
    case Settled(_, _) => SettlementJustified(records, call, body)
    case SettlementFailed(_, _) => SettlementJustified(records, call, body)
    case Compensated(reference) => call.Compensate? && reference == call.reference
    case Delivered(receipt) => call.RecordDelivery? && receipt == call.receipt
    case Expired => call.Expire?
    case Denied(_, _) => false
  }

  /** `e` is what `call` writes, of its own context and dated by its own clock reading: the
      event it is justified in, or a refusal of its own stage. */
  predicate Writes(env: Env, records: map<ContextId, Record>, call: Call, e: Event) {
    && e.ctx == CtxOf(env, call) && e.at == call.now
    && if e.body.Denied? then e.body.stage == StageOf(call) else Justified(env, records, call, e.body)
  }

  // ----- what a call's position says about the world -----

  /** An answer is a fact about the context's record, and stays one. */
  predicate ReplyOk(w: World, ctx: ContextId, call: Call, reply: Reply) {
    var records := w.store.books.records;
    match reply
    case GotAuthorized(t) =>
      && call.Authorize? && ctx in records && t == AuthorizedFrom(records[ctx])
      && MandateOf(w, ctx).Some?
      && MandateOf(w, ctx).value.body == call.mandate.body
      && MandateOf(w, ctx).value.signer == call.mandate.signer
    case GotPaid(t) => ctx in records && PaidFrom(records[ctx]) == Ok(t)
    case GotSettlement(SettledNow(t)) => ctx in records && SettledFrom(records[ctx]) == Ok(t)
    case GotSettlement(FailedNow(t)) => ctx in records && FailedFrom(records[ctx]) == Ok(t)
    case GotCompensated(c) => c == ctx && ctx in records && records[ctx].state.Compensated?
    case GotExpired => ctx in records && records[ctx].state.Expired?
    case GotDelivered(t) => ctx in records && DeliveredFrom(records[ctx]) == Ok(t)
    case _ => true
  }

  predicate PcOk(env: Env, w: World, call: Call, pc: Pc) {
    var ctx := CtxOf(env, call);
    match pc
    case CheckRevoked =>
      call.Authorize? && Verified(env, call.mandate)
      && env.trusted(call.mandate.body.principal, call.mandate.signer)
    case Submit(body) => Justified(env, w.store.books.records, call, body)
    case Replay(rec) =>
      ctx in w.store.books.records && AuthorizedFrom(rec) == AuthorizedFrom(w.store.books.records[ctx])
    case Done(reply) => ReplyOk(w, ctx, call, reply)
    case _ => true
  }

  /** Some call in the system had reason to write this event. */
  ghost predicate EventOk(env: Env, sys: System, e: Event) {
    exists t :: t in sys.threads && Writes(env, sys.world.store.books.records, sys.threads[t].call, e)
  }

  ghost predicate EventsOk(env: Env, sys: System) {
    forall i :: 0 <= i < |sys.world.history| ==> EventOk(env, sys, sys.world.history[i])
  }

  ghost predicate PcsOk(env: Env, sys: System) {
    forall t :: t in sys.threads ==> PcOk(env, sys.world, sys.threads[t].call, sys.threads[t].pc)
  }

  ghost predicate SystemOk(env: Env, sys: System) {
    WorldOk(sys.world) && ThreadsFit(sys) && PcsOk(env, sys) && EventsOk(env, sys)
  }

  // ----- stability: other calls cannot take a fact away -----

  lemma JustifiedStays(env: Env, a: map<ContextId, Record>, b: map<ContextId, Record>, call: Call, body: EventBody)
    requires RecordsGrow(a, b) && Justified(env, a, call, body)
    ensures Justified(env, b, call, body)
  {
    hide Verified, Admits, IsTerminal;
  }

  lemma WritesStays(env: Env, a: map<ContextId, Record>, b: map<ContextId, Record>, call: Call, e: Event)
    requires RecordsGrow(a, b) && Writes(env, a, call, e)
    ensures Writes(env, b, call, e)
  {
    hide Justified, RecordsGrow;
    if !e.body.Denied? {
      JustifiedStays(env, a, b, call, e.body);
    }
  }

  lemma ReplyStays(w: World, w2: World, ctx: ContextId, call: Call, reply: Reply)
    requires WorldGrows(w, w2) && ReplyOk(w, ctx, call, reply)
    ensures ReplyOk(w2, ctx, call, reply)
  {
    hide AuthorizedMandate, ChainOf;
    if ctx in w.store.books.records {
      assert Grows(w.store.books.records[ctx], w2.store.books.records[ctx]);
    }
  }

  lemma PcStays(env: Env, w: World, w2: World, call: Call, pc: Pc)
    requires WorldGrows(w, w2) && PcOk(env, w, call, pc)
    ensures PcOk(env, w2, call, pc)
  {
    hide Justified, ReplyOk, Verified, AuthorizedMandate, ChainOf, IsTerminal;
    match pc
    case Submit(body) => JustifiedStays(env, w.store.books.records, w2.store.books.records, call, body);
    case Done(reply) => ReplyStays(w, w2, CtxOf(env, call), call, reply);
    case _ =>
  }

  // ----- one step of one call -----

  lemma StartOfCall(env: Env, w: World, call: Call)
    requires WorldOk(w)
    ensures PcOk(env, w, call, StartCall(env, call, Get(w.store.books.records, CtxOf(env, call))))
  {
    hide Spent, Solvent, ContextsOk, Verified, Refusal, AuthorizedMandate, ChainOf;
    var ctx := CtxOf(env, call);
    if ctx in w.store.books.records {
      RecordWellFormed(w, ctx);
    }
  }

  lemma OpIsChargeable(env: Env, w: World, call: Call, pc: Pc)
    requires Fits(call, pc) && PcOk(env, w, call, pc) && OpOf(env, call, pc).Some?
    ensures Chargeable(OpOf(env, call, pc).value)
    ensures StepCall(env, w, call, pc).0 == Step(w, OpOf(env, call, pc).value)
  {
    hide Append, Verified;
  }

  lemma StepWithoutOp(env: Env, w: World, call: Call, pc: Pc)
    requires Fits(call, pc) && OpOf(env, call, pc).None?
    ensures StepCall(env, w, call, pc).0 == w
  {
  }

  lemma AuthorizedReply(env: Env, w: World, call: Call, body: EventBody, w2: World, e: Event)
    requires WorldOk(w) && AuthorizeJustified(env, call, body)
    requires Applied(w.store.books, w2.store.books, CtxOf(env, call), call.now, body)
    requires w2.history == w.history + [e] && e.ctx == CtxOf(env, call) && e.body == body
    ensures ReplyOk(w2, CtxOf(env, call), call,
                    GotAuthorized(AuthorizedToken(CtxOf(env, call), call.mandate.body.id, call.cart.hash,
                                                  call.cart.claims.merchant, call.cart.claims.total)))
  {
    hide Verified, Admits, Spent, Solvent, ContextsOk, Refunded, NoncesMove, VelocityMoves, AuthorizedMandate, ChainOf;
    MandateSnoc(w.history, e, e.ctx);
    NoMandateYet(w, e.ctx);
  }

  lemma MovedReply(w: World, ctx: ContextId, call: Call, body: EventBody, w2: World)
    requires WorldOk(w) && Submits(call, body) && !body.Authorized? && (call.RecordPayment? ==> ctx == call.ctx)
    requires Applied(w.store.books, w2.store.books, ctx, call.now, body)
    ensures body.Paid? ==>
              ReplyOk(w2, ctx, call, GotPaid(PaidToken(ctx, body.rail, body.reference, body.idempotencyKey)))
    ensures !body.Paid? ==> ReplyOk(w2, ctx, call, PlainReply(ctx, body))
  {
    hide Spent, Solvent, ContextsOk, Refunded, NoncesMove, VelocityMoves, AuthorizedMandate, ChainOf;
    RecordWellFormed(w, ctx);
  }

  /** After a submit that was appended, the record says what the reply says. */
  lemma SubmittedReply(env: Env, w: World, call: Call, body: EventBody)
    requires WorldOk(w) && Submits(call, body) && Justified(env, w.store.books.records, call, body)
    requires IsAppended(Append(w.store, CtxOf(env, call), call.now, body).1)
    ensures PcOk(env, AppendWorld(w, CtxOf(env, call), call.now, body), call,
                 AfterSubmit(CtxOf(env, call), call, body, Append(w.store, CtxOf(env, call), call.now, body).1))
  {
    hide Append, WorldOk, ReplyOk, Applied, AuthorizeJustified, PaymentJustified, SettlementJustified;
    var ctx := CtxOf(env, call);
    AppendEffect(w.store, ctx, call.now, body);
    var w2 := AppendWorld(w, ctx, call.now, body);
    if body.Authorized? {
      AuthorizedReply(env, w, call, body, w2, Append(w.store, ctx, call.now, body).1.value.event);
    } else {
      MovedReply(w, ctx, call, body, w2);
    }
  }

  lemma NoMandateYet(w: World, c: ContextId)
    requires ContextsOk(w) && c !in w.store.books.records
    ensures MandateOf(w, c).None?
  {
    assert ContextOk(w, c);
  }

  lemma RefusedSubmit(env: Env, w: World, call: Call, body: EventBody, r: Result<AppendOutcome, StoreError>)
    requires Submits(call, body) && !IsAppended(r)
    ensures PcOk(env, w, call, AfterSubmit(CtxOf(env, call), call, body, r))
  {
  }

  /** The stored mandate a replay reads is the one in the full history. */
  lemma StoredMandate(w: World, c: ContextId)
    requires ContextsOk(w)
    ensures var stored := AuthorizedMandate(ChainOf(w.store.events, c));
            stored.Some? ==> MandateOf(w, c) == stored
  {
    assert ContextOk(w, c);
  }

  lemma CallStepOk(env: Env, w: World, call: Call, pc: Pc)
    requires WorldOk(w) && Fits(call, pc) && PcOk(env, w, call, pc)
    ensures var (w2, pc2) := StepCall(env, w, call, pc); PcOk(env, w2, call, pc2)
  {
    hide Append, AppendWorld, StartCall, Verified, Spent, Solvent, ContextsOk, AuthorizedMandate, ChainOf, Justified,
      AfterSubmit, BindingFault;
    var ctx := CtxOf(env, call);
    match pc
    case Start => StartOfCall(env, w, call);
    case Submit(body) =>
      if IsAppended(Append(w.store, ctx, call.now, body).1) {
        SubmittedReply(env, w, call, body);
      } else {
        RefusedSubmit(env, AppendWorld(w, ctx, call.now, body), call, body, Append(w.store, ctx, call.now, body).1);
      }
    case CheckRevoked => AdmittedIsJustified(env, w, call);
    case Replay(rec) => StoredMandate(w, ctx);
    case _ =>
  }

  lemma AdmittedIsJustified(env: Env, w: World, call: Call)
    requires call.Authorize? && PcOk(env, w, call, CheckRevoked)
    ensures forall revoked :: PcOk(env, w, call, AfterRevocationRead(call, revoked))
  {
  }

  // ----- the system -----

  lemma WorldOfStep(env: Env, w: World, call: Call, pc: Pc)
    requires WorldOk(w) && Fits(call, pc) && PcOk(env, w, call, pc)
    ensures WorldOk(StepCall(env, w, call, pc).0)
    ensures WorldGrows(w, StepCall(env, w, call, pc).0)
  {
    hide StepCall, WorldOk, WorldGrows, Step, PcOk, Chargeable;
    var op := OpOf(env, call, pc);
    if op.Some? {
      OpIsChargeable(env, w, call, pc);
      WorldStepGrows(w, op.value);
      StepWorldOk(w, op.value);
    } else {
      StepWithoutOp(env, w, call, pc);
      GrowsToItself(w);
    }
  }

  /** A step adds at most the event its call was justified in submitting, or a refusal. */
  lemma EventOfStep(env: Env, w: World, call: Call, pc: Pc)
    requires Fits(call, pc) && PcOk(env, w, call, pc)
    ensures var w2 := StepCall(env, w, call, pc).0;
            || w2.history == w.history
            || (exists e :: w2.history == w.history + [e] && Writes(env, w.store.books.records, call, e))
  {
    hide Append, Justified, Applied, AfterSubmit, AfterDenial;
    var ctx := CtxOf(env, call);
    match pc
    case Submit(body) =>
      AppendEffect(w.store, ctx, call.now, body);
      AddedEvent(w, ctx, call.now, body);
    case Deny(reason) =>
      AppendEffect(w.store, ctx, call.now, EventBody.Denied(StageOf(call), reason));
      AddedEvent(w, ctx, call.now, EventBody.Denied(StageOf(call), reason));
    case _ =>
  }

  lemma AddedEvent(w: World, ctx: ContextId, at: Time, body: EventBody)
    ensures var w2 := AppendWorld(w, ctx, at, body);
            if IsAppended(Append(w.store, ctx, at, body).1) then
              w2.history == w.history + [NextEvent(w.store, ctx, at, body)]
            else w2.history == w.history
  {
    hide Append, Applied;
    AppendEffect(w.store, ctx, at, body);
  }

  lemma EventsStay(env: Env, sys: System, sys2: System)
    requires EventsOk(env, sys) && RecordsGrow(sys.world.store.books.records, sys2.world.store.books.records)
    requires forall t :: t in sys.threads ==> t in sys2.threads && sys2.threads[t].call == sys.threads[t].call
    ensures forall i :: 0 <= i < |sys.world.history| ==> EventOk(env, sys2, sys.world.history[i])
  {
    hide Justified, RecordsGrow;
    forall i | 0 <= i < |sys.world.history|
      ensures EventOk(env, sys2, sys.world.history[i])
    {
      var e := sys.world.history[i];
      assert EventOk(env, sys, e);
      var t :| t in sys.threads && Writes(env, sys.world.store.books.records, sys.threads[t].call, e);
      WritesStays(env, sys.world.store.books.records, sys2.world.store.books.records, sys.threads[t].call, e);
      assert t in sys2.threads && Writes(env, sys2.world.store.books.records, sys2.threads[t].call, e);
    }
  }

  /** A call's step, which leaves it at `pc`. */
  lemma MovedOk(env: Env, sys: System, tid: nat, pc: Pc)
    requires SystemOk(env, sys) && tid in sys.threads && Fits(sys.threads[tid].call, pc)
    requires PcOk(env, StepCall(env, sys.world, sys.threads[tid].call, sys.threads[tid].pc).0,
                  sys.threads[tid].call, pc)
    ensures var w := StepCall(env, sys.world, sys.threads[tid].call, sys.threads[tid].pc).0;
            SystemOk(env, System(w, sys.threads[tid := sys.threads[tid].(pc := pc)]))
  {
    hide WorldOk, WorldGrows, StepCall, PcOk, EventOk, Justified, Fits;
    var th := sys.threads[tid];
    var w := StepCall(env, sys.world, th.call, th.pc).0;
    var sys2 := System(w, sys.threads[tid := th.(pc := pc)]);
    WorldOfStep(env, sys.world, th.call, th.pc);
    forall t | t in sys2.threads
      ensures PcOk(env, w, sys2.threads[t].call, sys2.threads[t].pc)
    {
      if t != tid {
        PcStays(env, sys.world, w, sys.threads[t].call, sys.threads[t].pc);
      }
    }
    MovedEvents(env, sys, tid, sys2);
  }

  lemma MovedEvents(env: Env, sys: System, tid: nat, sys2: System)
    requires SystemOk(env, sys) && tid in sys.threads && tid in sys2.threads
    requires var th := sys.threads[tid];
             sys2 == System(StepCall(env, sys.world, th.call, th.pc).0,
                            sys.threads[tid := th.(pc := sys2.threads[tid].pc)])
    ensures EventsOk(env, sys2)
  {
    hide WorldOk, StepCall, PcOk, Justified, RecordsGrow;
    var th := sys.threads[tid];
    WorldOfStep(env, sys.world, th.call, th.pc);
    EventsStay(env, sys, sys2);
    EventOfStep(env, sys.world, th.call, th.pc);
    if sys2.world.history != sys.world.history {
      var e :| sys2.world.history == sys.world.history + [e] && Writes(env, sys.world.store.books.records, th.call, e);
      WritesStays(env, sys.world.store.books.records, sys2.world.store.books.records, th.call, e);
      assert tid in sys2.threads && Writes(env, sys2.world.store.books.records, sys2.threads[tid].call, e);
      assert EventOk(env, sys2, e);
    }
  }

  lemma GoOk(env: Env, sys: System, tid: nat)
    requires SystemOk(env, sys) && tid in sys.threads
    ensures SystemOk(env, Act(env, sys, Go(tid)))
  {
    hide WorldOk, StepCall, PcOk, EventsOk, Fits;
    var th := sys.threads[tid];
    CallStepOk(env, sys.world, th.call, th.pc);
    MovedOk(env, sys, tid, StepCall(env, sys.world, th.call, th.pc).1);
  }

  lemma LoseOk(env: Env, sys: System, tid: nat)
    requires SystemOk(env, sys) && tid in sys.threads
    ensures SystemOk(env, Act(env, sys, LoseAnswer(tid)))
  {
    hide WorldOk, WorldGrows, StepCall, PcOk, EventsOk, Fits, Answered;
    var th := sys.threads[tid];
    var w := StepCall(env, sys.world, th.call, th.pc).0;
    TurnedDown(env, sys.world, th.call, th.pc, Err(Backend));
    WorldOfStep(env, sys.world, th.call, th.pc);
    var pc := Answered(env, th.call, th.pc, Err(Backend));
    PcStays(env, sys.world, w, th.call, pc);
    MovedOk(env, sys, tid, pc);
  }

  lemma ExternalOk(env: Env, sys: System, op: Op)
    requires SystemOk(env, sys) && !op.DoAppend?
    ensures SystemOk(env, sys.(world := Step(sys.world, op)))
  {
    hide WorldOk, PcOk, EventOk, RecordsGrow, MandateOf;
    var sys2 := sys.(world := Step(sys.world, op));
    WorldStepGrows(sys.world, op);
    StepWorldOk(sys.world, op);
    forall t | t in sys2.threads
      ensures PcOk(env, sys2.world, sys2.threads[t].call, sys2.threads[t].pc)
    {
      PcStays(env, sys.world, sys2.world, sys.threads[t].call, sys.threads[t].pc);
    }
    EventsStay(env, sys, sys2);
  }

  lemma BeginOk(env: Env, sys: System, tid: nat, call: Call)
    requires SystemOk(env, sys) && tid !in sys.threads
    ensures SystemOk(env, Act(env, sys, Begin(tid, call)))
  {
    hide WorldOk, EventOk, Justified, ReplyOk;
    var sys2 := Act(env, sys, Begin(tid, call));
    RecordsGrowToThemselves(sys.world.store.books.records);
    EventsStay(env, sys, sys2);
  }

  lemma TurnDownOk(env: Env, sys: System, tid: nat, answer: Result<AppendOutcome, StoreError>)
    requires SystemOk(env, sys) && tid in sys.threads && !IsAppended(answer)
    ensures SystemOk(env, Act(env, sys, TurnDown(tid, answer)))
  {
    hide WorldOk, EventOk, Justified, ReplyOk, Fits;
    var th := sys.threads[tid];
    var sys2 := Act(env, sys, TurnDown(tid, answer));
    TurnedDown(env, sys.world, th.call, th.pc, answer);
    RecordsGrowToThemselves(sys.world.store.books.records);
    EventsStay(env, sys, sys2);
  }

  lemma TurnedDown(env: Env, w: World, call: Call, pc: Pc, r: Result<AppendOutcome, StoreError>)
    requires Fits(call, pc) && PcOk(env, w, call, pc) && !IsAppended(r)
    ensures PcOk(env, w, call, Answered(env, call, pc, r))
  {
    hide PcOk, AfterSubmit;
    match pc
    case Submit(body) => RefusedSubmit(env, w, call, body, r);
    case Deny(reason) => RefusedDenial(env, w, call, reason, r);
    case _ =>
  }

  lemma RefusedDenial(env: Env, w: World, call: Call, reason: DenyReason, r: Result<AppendOutcome, StoreError>)
    ensures PcOk(env, w, call, AfterDenial(CtxOf(env, call), call, reason, r))
  {
  }

  lemma RecordsGrowToThemselves(records: map<ContextId, Record>)
    ensures RecordsGrow(records, records)
  {
  }

  lemma ActOk(env: Env, sys: System, a: Action)
    requires SystemOk(env, sys)
    ensures SystemOk(env, Act(env, sys, a))
  {
    hide WorldOk, PcsOk, EventsOk, StepCall, Step;
    match a
    case Begin(tid, call) => if tid !in sys.threads { BeginOk(env, sys, tid, call); }
    case Go(tid) => if tid in sys.threads { GoOk(env, sys, tid); }
    case TurnDown(tid, answer) => if tid in sys.threads && !IsAppended(answer) { TurnDownOk(env, sys, tid, answer); }
    case LoseAnswer(tid) => if tid in sys.threads { LoseOk(env, sys, tid); }
    case Prune(before) => ExternalOk(env, sys, DoPrune(before));
    case Revoke(mandate) => ExternalOk(env, sys, DoRevoke(mandate));
  }

  /** Every interleaving keeps the system in order: the world's invariants, the facts each
      call relies on, and a justification for every event. */
  lemma {:induction false} EveryInterleaving(env: Env, schedule: seq<Action>)
    ensures SystemOk(env, Exec(env, schedule))
  {
    hide SystemOk, Act;
    if schedule == [] {
      IdleOk(env);
    } else {
      EveryInterleaving(env, DropLast(schedule));
      ActOk(env, Exec(env, DropLast(schedule)), Last(schedule));
    }
  }

  lemma IdleOk(env: Env)
    ensures SystemOk(env, IDLE)
  {
    hide WorldOk;
    StartOk();
  }
}
