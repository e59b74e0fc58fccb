/** The engine as the object hosts hold (ml-core: ledger): each method drives the mutable
    store in order, and is proved to do what the step-by-step call does when nothing
    comes in between. */
module Ledgers {
  import opened Prelude
  import opened Domain
  import opened Lifecycle
  import opened Scopes
  import opened Events
  import opened Evidence
  import opened Bookkeeping
  import opened StoreRuns
  import opened MemoryStores
  import opened Rails
  import opened Engine

  /** One step of a call, spelled out. */
  lemma Unroll(env: Env, w: World, call: Call, pc: Pc)
    requires Fits(call, pc) && !pc.Done?
    ensures var (w2, pc2) := StepCall(env, w, call, pc);
            RunCall(env, w, call, pc) == RunCall(env, w2, call, pc2)
  {
    hide StepCall;
    StepsAdvance(env, w, call, pc);
  }

  class Ledger {
    const env: Env
    const store: MemoryStore

    constructor (env: Env, store: MemoryStore)
      ensures this.env == env && this.store == store
    {
      this.env := env;
      this.store := store;
    }

    ghost function Here(): World
      reads store
    {
      World(store.View(), store.history)
    }

    /** Refuse: write the refusal unless the chain already holds the cap, and return it. */
    method Deny(call: Call, reason: DenyReason) returns (reply: Reply)
      requires store.Valid()
      modifies store
      ensures store.Valid() && (Here(), reply) == RunCall(env, old(Here()), call, Pc.Deny(reason))
    {
      hide Bookkeeping.Append;
      var ctx := CtxOf(env, call);
      Unroll(env, Here(), call, Pc.Deny(reason));
      label before:
      var r := store.Append(ctx, call.now, EventBody.Denied(StageOf(call), reason));
      assert Here() == AppendWorld(old@before(Here()), ctx, call.now, EventBody.Denied(StageOf(call), reason));
      match r {
        case Ok(Appended(_)) => reply := Refused(ctx, StageOf(call), reason, true);
        case Ok(DenialsCapped) => reply := Refused(ctx, StageOf(call), reason, false);
        case Ok(_) => reply := StoreFailed(Corrupt(WrongOutcome));
        case Err(e) => reply := StoreFailed(e);
      }
    }

    method Authorize(now: Time, mandate: Mandate, cart: Cart, requestKey: string) returns (reply: Reply)
      requires store.Valid()
      modifies store
      ensures store.Valid()
      ensures (Here(), reply) == RunCall(env, old(Here()), Call.Authorize(now, mandate, cart, requestKey), Start)
    {
      hide RunCall, Bookkeeping.Append, Refusal, Verified;
      var call := Call.Authorize(now, mandate, cart, requestKey);
      var ctx := env.derive(mandate.body.id, cart.hash, requestKey);
      Unroll(env, Here(), call, Start);
      var rec := store.RecordOf(ctx);
      if rec.Some? {
        reply := ReplayAuthorize(call, rec.value);
        return;
      }
      if !Verified(env, mandate) {
        reply := Deny(call, MandateSignatureInvalid);
        return;
      }
      if !env.trusted(mandate.body.principal, mandate.signer) {
        reply := Deny(call, MandateSignerUntrusted);
        return;
      }
      Unroll(env, Here(), call, CheckRevoked);
      if mandate.body.id in store.revoked {
        reply := Deny(call, DenyReason.MandateRevoked);
        return;
      }
      var refusal := Refusal(mandate.body.scope, cart.claims, cart.attestation, now);
      if refusal.Some? {
        reply := Deny(call, refusal.value);
        return;
      }
      reply := SubmitAuthorized(call, ctx);
    }

    method SubmitAuthorized(call: Call, ctx: ContextId) returns (reply: Reply)
      requires store.Valid() && call.Authorize? && ctx == CtxOf(env, call)
      modifies store
      ensures store.Valid()
      ensures (Here(), reply) ==
              RunCall(env, old(Here()), call, Submit(EventBody.Authorized(call.mandate, call.cart, call.requestKey)))
    {
      hide RunCall, Bookkeeping.Append, Verified;
      var body := EventBody.Authorized(call.mandate, call.cart, call.requestKey);
      Unroll(env, Here(), call, Submit(body));
      label before:
      var r := store.Append(ctx, call.now, body);
      assert Here() == AppendWorld(old@before(Here()), ctx, call.now, body);
      match r {
        case Ok(Appended(_)) =>
          reply := GotAuthorized(AuthorizedToken(ctx, call.mandate.body.id, call.cart.hash,
                                                 call.cart.claims.merchant, call.cart.claims.total));
          Finished(Here(), call, reply);
        case Ok(BudgetExceeded(_)) => reply := Deny(call, ScopeTotalExceeded);
        case Ok(VelocityExceeded(_)) => reply := Deny(call, DenyReason.VelocityExceeded);
        case Ok(MandateRevoked) => reply := Deny(call, DenyReason.MandateRevoked);
        case Ok(_) =>
          reply := StoreFailed(Corrupt(WrongOutcome));
          Finished(Here(), call, reply);
        case Err(IllegalTransition(_, Some(_), Authorized)) =>
          Unroll(env, Here(), call, ReadAgain);
          var rec := store.RecordOf(ctx);
          if rec.None? {
            reply := StoreFailed(Corrupt(NoRecord));
            Finished(Here(), call, reply);
          } else {
            reply := ReplayAuthorize(call, rec.value);
          }
        case Err(e) =>
          reply := StoreFailed(e);
          Finished(Here(), call, reply);
      }
    }

    lemma Finished(w: World, call: Call, reply: Reply)
      ensures RunCall(env, w, call, Done(reply)) == (w, reply)
    {
    }

    method ReplayAuthorize(call: Call, rec: Record) returns (reply: Reply)
      requires store.Valid() && call.Authorize?
      modifies store
      ensures store.Valid() && (Here(), reply) == RunCall(env, old(Here()), call, BeginReplay(env, call, rec))
    {
      hide RunCall, Verified, AuthorizedMandate, ChainOf;
      if !Verified(env, call.mandate) {
        reply := Deny(call, MandateSignatureInvalid);
        return;
      }
      Unroll(env, Here(), call, Replay(rec));
      var stored := store.AuthorizedMandateOf(CtxOf(env, call));
      if stored.None? {
        if IsTerminal(rec.state) {
          reply := Deny(call, InvalidState);
        } else {
          reply := StoreFailed(Corrupt(NoAuthorizedEvent));
          Finished(Here(), call, reply);
        }
      } else if stored.value.body != call.mandate.body || stored.value.signer != call.mandate.signer {
        reply := Deny(call, ContextMismatch);
      } else {
        reply := GotAuthorized(AuthorizedFrom(rec));
        Finished(Here(), call, reply);
      }
    }

    method SubmitBody(call: Call, body: EventBody) returns (reply: Reply)
      requires store.Valid() && !call.Authorize? && Submits(call, body)
      modifies store
      ensures store.Valid() && (Here(), reply) == RunCall(env, old(Here()), call, Submit(body))
    {
      hide RunCall, Bookkeeping.Append;
      var ctx := CtxOf(env, call);
      Unroll(env, Here(), call, Submit(body));
      label before:
      var r := store.Append(ctx, call.now, body);
      assert Here() == AppendWorld(old@before(Here()), ctx, call.now, body);
      if call.RecordPayment? {
        match r {
          case Ok(Appended(_)) =>
            reply := GotPaid(PaidToken(ctx, body.rail, body.reference, body.idempotencyKey));
            Finished(Here(), call, reply);
          case Ok(NonceAlreadyUsed) => reply := Deny(call, DenyReason.NonceAlreadyUsed);
          case Ok(_) =>
            reply := StoreFailed(Corrupt(WrongOutcome));
            Finished(Here(), call, reply);
          case Err(e) =>
            reply := StoreFailed(e);
            Finished(Here(), call, reply);
        }
      } else {
        match r {
          case Ok(Appended(_)) => reply := PlainReply(ctx, body);
          case Ok(_) => reply := StoreFailed(Corrupt(WrongOutcome));
          case Err(e) => reply := StoreFailed(e);
        }
        Finished(Here(), call, reply);
      }
    }

    method RecordPayment(call: Call) returns (reply: Reply)
      requires store.Valid() && call.RecordPayment?
      modifies store
      ensures store.Valid() && (Here(), reply) == RunCall(env, old(Here()), call, Start)
    {
      hide RunCall, AfterProof;
      Unroll(env, Here(), call, Start);
      var rec := store.RecordOf(call.ctx);
      if rec.None? {
        reply := Deny(call, ContextNotFound);
        return;
      }
      var r := rec.value;
      var proof := call.verify(PaymentExpectation(call.ctx, r.cartHash, r.amount, r.merchant, r.paymentReference));
      match proof {
        case Err(InvalidProof) => reply := Deny(call, ProofInvalid);
        case Err(Unavailable) =>
          reply := RailUnavailable;
          Finished(Here(), call, reply);
        case Ok(v) => reply := PayWith(call, r, v);
      }
    }

    /** The rest of `record_payment`, once the rail has verified the proof. */
    method PayWith(call: Call, r: Record, v: VerifiedProof) returns (reply: Reply)
      requires store.Valid() && call.RecordPayment?
      modifies store
      ensures store.Valid() && (Here(), reply) == RunCall(env, old(Here()), call, AfterProof(call, r, v))
    {
      hide RunCall, BindingFault;
      if r.state.Authorized? {
        var fault := BindingFault(r.(ctx := call.ctx), v);
        if fault.Some? {
          reply := Deny(call, fault.value);
        } else {
          reply := SubmitBody(call, PaidBody(call.ctx, call.railId, v));
        }
      } else if r.rail == Some(call.railId) && r.paymentReference == Some(v.reference) {
        reply := if r.idempotencyKey.None? then StoreFailed(Corrupt(PaidIncomplete))
                 else GotPaid(PaidToken(call.ctx, call.railId, v.reference, r.idempotencyKey.value));
        Finished(Here(), call, reply);
      } else {
        reply := Deny(call, InvalidState);
      }
    }

    method RecordSettlement(call: Call) returns (reply: Reply)
      requires store.Valid() && call.RecordSettlement?
      modifies store
      ensures store.Valid() && (Here(), reply) == RunCall(env, old(Here()), call, Start)
    {
      hide RunCall, AskFinality;
      Unroll(env, Here(), call, Start);
      var rec := store.RecordOf(call.ctx);
      if rec.None? {
        reply := Deny(call, ContextNotFound);
        return;
      }
      match rec.value.state {
        case Paid => reply := SettleBy(call, rec.value);
        case Settled =>
          reply := SettledReply(rec.value);
          Finished(Here(), call, reply);
        case Delivered =>
          reply := SettledReply(rec.value);
          Finished(Here(), call, reply);
        case SettlementFailed =>
          reply := FailedReply(rec.value);
          Finished(Here(), call, reply);
        case Compensated =>
          reply := FailedReply(rec.value);
          Finished(Here(), call, reply);
        case _ => reply := Deny(call, InvalidState);
      }
    }

    /** `settlement_replay`, for a context that settled. */
    method SettledReply(r: Record) returns (reply: Reply)
      ensures ReplaySettled(r) == Done(reply)
    {
      match SettledFrom(r) {
        case Ok(token) => reply := GotSettlement(SettledNow(token));
        case Err(e) => reply := StoreFailed(e);
      }
    }

    /** `settlement_replay`, for a context whose settlement failed. */
    method FailedReply(r: Record) returns (reply: Reply)
      ensures ReplayFailed(r) == Done(reply)
    {
      match FailedFrom(r) {
        case Ok(token) => reply := GotSettlement(FailedNow(token));
        case Err(e) => reply := StoreFailed(e);
      }
    }

    /** The rest of `record_settlement`, for a context that is paid. */
    method SettleBy(call: Call, r: Record) returns (reply: Reply)
      requires store.Valid() && call.RecordSettlement?
      modifies store
      ensures store.Valid() && (Here(), reply) == RunCall(env, old(Here()), call, AskFinality(call, r))
    {
      hide RunCall;
      if r.rail != Some(call.railId) {
        reply := Deny(call, RailMismatch);
      } else if r.paymentReference.None? {
        reply := StoreFailed(Corrupt(PaidIncomplete));
        Finished(Here(), call, reply);
      } else {
        var status := call.finality(SettlementExpectation(call.ctx, r.paymentReference.value, r.amount, r.merchant));
        match status {
          case Err(InvalidProof) => reply := Deny(call, FinalityInvalid);
          case Err(Unavailable) =>
            reply := RailUnavailable;
            Finished(Here(), call, reply);
          case Ok(Final(reference)) => reply := SubmitBody(call, EventBody.Settled(call.railId, reference));
          case Ok(Pending) =>
            reply := GotSettlement(StillPending);
            Finished(Here(), call, reply);
          case Ok(Failed(cause)) => reply := SubmitBody(call, EventBody.SettlementFailed(call.railId, cause));
        }
      }
    }

    method Compensate(now: Time, ctx: ContextId, reference: Option<string>) returns (reply: Reply)
      requires store.Valid()
      modifies store
      ensures store.Valid()
      ensures (Here(), reply) == RunCall(env, old(Here()), Call.Compensate(now, ctx, reference), Start)
    {
      hide RunCall;
      var call := Call.Compensate(now, ctx, reference);
      Unroll(env, Here(), call, Start);
      var rec := store.RecordOf(ctx);
      if rec.None? {
        reply := Deny(call, ContextNotFound);
      } else {
        match rec.value.state {
          case SettlementFailed => reply := SubmitBody(call, EventBody.Compensated(reference));
          case Compensated =>
            reply := GotCompensated(ctx);
            Finished(Here(), call, reply);
          case _ => reply := Deny(call, InvalidState);
        }
      }
    }

    method Expire(now: Time, ctx: ContextId) returns (reply: Reply)
      requires store.Valid()
      modifies store
      ensures store.Valid()
      ensures (Here(), reply) == RunCall(env, old(Here()), Call.Expire(now, ctx), Start)
    {
      hide RunCall;
      var call := Call.Expire(now, ctx);
      Unroll(env, Here(), call, Start);
      var rec := store.RecordOf(ctx);
      if rec.None? {
        reply := Deny(call, ContextNotFound);
      } else {
        match rec.value.state {
          case Authorized => reply := SubmitBody(call, EventBody.Expired);
          case Expired =>
            reply := GotExpired;
            Finished(Here(), call, reply);
          case _ => reply := Deny(call, InvalidState);
        }
      }
    }

    method RecordDelivery(now: Time, ctx: ContextId, receipt: DeliveryReceipt) returns (reply: Reply)
      requires store.Valid()
      modifies store
      ensures store.Valid()
      ensures (Here(), reply) == RunCall(env, old(Here()), Call.RecordDelivery(now, ctx, receipt), Start)
    {
      hide RunCall;
      var call := Call.RecordDelivery(now, ctx, receipt);
      Unroll(env, Here(), call, Start);
      var rec := store.RecordOf(ctx);
      if rec.None? {
        reply := Deny(call, ContextNotFound);
      } else if rec.value.state.Settled? {
        reply := SubmitBody(call, EventBody.Delivered(receipt));
      } else if rec.value.state.Delivered? {
        reply := if rec.value.receiptReference.None? then StoreFailed(Corrupt(DeliveredIncomplete))
                 else GotDelivered(DeliveredToken(ctx, rec.value.receiptReference.value));
        Finished(Here(), call, reply);
      } else {
        reply := Deny(call, InvalidState);
      }
    }
  }
}
