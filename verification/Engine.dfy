/** The payment engine (ml-core: ledger): each call is a thread of separate store steps,
    so other calls, revocations and prunes can land between any two of them. */
module Engine {
  import opened Prelude
  import opened Domain
  import opened Lifecycle
  import opened Scopes
  import opened Events
  import opened Evidence
  import opened Bookkeeping
  import opened StoreRuns
  import opened Rails

  /** What the engine is configured with. Signatures, signer trust and context-id
      derivation are arbitrary functions. */
  datatype Env = Env(
    derive: (MandateId, Digest, string) -> ContextId,
    signed: Mandate -> bool,
    trusted: (PrincipalId, Key) -> bool)

  /** A call, with the clock reading it starts from. A rail is its id and the answer it
      gives to each expectation, so one call's rail may answer differently from another's. */
  datatype Call =
    | Authorize(now: Time, mandate: Mandate, cart: Cart, requestKey: string)
    | RecordPayment(now: Time, ctx: ContextId, railId: string,
                    verify: PaymentExpectation -> Result<VerifiedProof, RailError>)
    | RecordSettlement(now: Time, ctx: ContextId, railId: string,
                       finality: SettlementExpectation -> Result<FinalityStatus, RailError>)
    | Compensate(now: Time, ctx: ContextId, reference: Option<string>)
    | Expire(now: Time, ctx: ContextId)
    | RecordDelivery(now: Time, ctx: ContextId, receipt: DeliveryReceipt)

  datatype Settlement = SettledNow(settled: SettledToken) | StillPending | FailedNow(failed: FailedToken)

  datatype Reply =
    | GotAuthorized(authorized: AuthorizedToken)
    | GotPaid(paid: PaidToken)
    | GotSettlement(settlement: Settlement)
    | GotCompensated(ctx: ContextId)
    | GotExpired
    | GotDelivered(delivered: DeliveredToken)
    | Refused(ctx: ContextId, stage: Stage, reason: DenyReason, recorded: bool)
    | StoreFailed(error: StoreError)
    | RailUnavailable

  /** Where a call is. `Submit` and `Deny` are about to append; `Replay` is about to read
      the mandate the context was authorized under. */
  datatype Pc =
    | Start
    | CheckRevoked
    | Submit(body: EventBody)
    | ReadAgain
    | Replay(rec: Record)
    | Deny(reason: DenyReason)
    | Done(reply: Reply)

  function CtxOf(env: Env, call: Call): ContextId {
    match call
    case Authorize(_, mandate, cart, key) => env.derive(mandate.body.id, cart.hash, key)
    case RecordPayment(_, ctx, _, _) => ctx
    case RecordSettlement(_, ctx, _, _) => ctx
    case Compensate(_, ctx, _) => ctx
    case Expire(_, ctx) => ctx
    case RecordDelivery(_, ctx, _) => ctx
  }

  function StageOf(call: Call): Stage {
    match call
    case Authorize(_, _, _, _) => Stage.Authorize
    case RecordPayment(_, _, _, _) => Stage.Payment
    case RecordSettlement(_, _, _, _) => Stage.Settlement
    case Compensate(_, _, _) => Stage.Compensation
    case Expire(_, _) => Stage.Expiry
    case RecordDelivery(_, _, _) => Stage.Delivery
  }

  /** `Mandate::verify`. */
  predicate Verified(env: Env, m: Mandate) {
    Fault(m.body.scope).None? && env.signed(m)
  }

  function FailedWith(e: StoreError): Pc {
    Done(StoreFailed(e))
  }

  // ----- the first step: read the record and decide what comes next -----

  function BeginReplay(env: Env, call: Call, rec: Record): Pc
    requires call.Authorize?
  {
    if !Verified(env, call.mandate) then Deny(MandateSignatureInvalid) else Replay(rec)
  }

  function StartAuthorize(env: Env, call: Call, rec: Option<Record>): Pc
    requires call.Authorize?
  {
    if rec.Some? then BeginReplay(env, call, rec.value)
    else if !Verified(env, call.mandate) then Deny(MandateSignatureInvalid)
    else if !env.trusted(call.mandate.body.principal, call.mandate.signer) then Deny(MandateSignerUntrusted)
    else CheckRevoked
  }

  function ExpectPayment(r: Record): PaymentExpectation {
    PaymentExpectation(r.ctx, r.cartHash, r.amount, r.merchant, r.paymentReference)
  }

  /** `check_proof_binding`: why a verified proof is not for this context. */
  function BindingFault(r: Record, v: VerifiedProof): Option<DenyReason> {
    if v.amount != r.amount then Some(AmountMismatch)
    else if v.boundCtx.None? && v.boundCart.None? then Some(UnboundProof)
    else if v.boundCtx.Some? && v.boundCtx.value != r.ctx then Some(ContextBindingMismatch)
    else if v.boundCart.Some? && v.boundCart.value != r.cartHash then Some(CartBindingMismatch)
    else if v.boundMerchant.Some? && v.boundMerchant.value != r.merchant then Some(MerchantBindingMismatch)
    else None
  }

  function PaidBody(ctx: ContextId, railId: string, v: VerifiedProof): EventBody {
    EventBody.Paid(railId, v.reference, v.nonce, v.amount, Idempotency(ctx, railId, v.nonce))
  }

  /** What a verified proof leads to, on record `r`. */
  function AfterProof(call: Call, r: Record, v: VerifiedProof): Pc
    requires call.RecordPayment?
  {
    if !r.state.Authorized? then
      if r.rail == Some(call.railId) && r.paymentReference == Some(v.reference) then
        if r.idempotencyKey.None? then FailedWith(Corrupt(PaidIncomplete))
        else Done(GotPaid(PaidToken(call.ctx, call.railId, v.reference, r.idempotencyKey.value)))
      else Deny(InvalidState)
    else
      match BindingFault(r.(ctx := call.ctx), v)
      case Some(reason) => Deny(reason)
      case None => Submit(PaidBody(call.ctx, call.railId, v))
  }

  function StartPayment(call: Call, rec: Option<Record>): Pc
    requires call.RecordPayment?
  {
    if rec.None? then Deny(ContextNotFound)
    else
      var r := rec.value;
      match call.verify(ExpectPayment(r).(ctx := call.ctx))
      case Err(InvalidProof) => Deny(ProofInvalid)
      case Err(Unavailable) => Done(RailUnavailable)
      case Ok(v) => AfterProof(call, r, v)
  }

  function ExpectSettlement(ctx: ContextId, r: Record, reference: string): SettlementExpectation {
    SettlementExpectation(ctx, reference, r.amount, r.merchant)
  }

  function AskFinality(call: Call, r: Record): Pc
    requires call.RecordSettlement?
  {
    if r.rail != Some(call.railId) then Deny(RailMismatch)
    else if r.paymentReference.None? then FailedWith(Corrupt(PaidIncomplete))
    else
      match call.finality(ExpectSettlement(call.ctx, r, r.paymentReference.value))
      case Err(InvalidProof) => Deny(FinalityInvalid)
      case Err(Unavailable) => Done(RailUnavailable)
      case Ok(Final(reference)) => Submit(EventBody.Settled(call.railId, reference))
      case Ok(Pending) => Done(GotSettlement(StillPending))
      case Ok(Failed(cause)) => Submit(EventBody.SettlementFailed(call.railId, cause))
  }

  function StartSettlement(call: Call, rec: Option<Record>): Pc
    requires call.RecordSettlement?
  {
    if rec.None? then Deny(ContextNotFound)
    else
      var r := rec.value;
      match r.state
      case Paid => AskFinality(call, r)
      case Settled => ReplaySettled(r)
      case Delivered => ReplaySettled(r)
      case SettlementFailed => ReplayFailed(r)
      case Compensated => ReplayFailed(r)
      case _ => Deny(InvalidState)
  }

  function ReplaySettled(r: Record): Pc {
    match SettledFrom(r)
    case Err(e) => FailedWith(e)
    case Ok(t) => Done(GotSettlement(SettledNow(t)))
  }

  function ReplayFailed(r: Record): Pc {
    match FailedFrom(r)
    case Err(e) => FailedWith(e)
    case Ok(t) => Done(GotSettlement(FailedNow(t)))
  }

  function StartCompensate(call: Call, rec: Option<Record>): Pc
    requires call.Compensate?
  {
    if rec.None? then Deny(ContextNotFound)
    else if rec.value.state.SettlementFailed? then Submit(EventBody.Compensated(call.reference))
    else if rec.value.state.Compensated? then Done(GotCompensated(call.ctx))
    else Deny(InvalidState)
  }

  function StartExpire(call: Call, rec: Option<Record>): Pc
    requires call.Expire?
  {
    if rec.None? then Deny(ContextNotFound)
    else if rec.value.state.Authorized? then Submit(EventBody.Expired)
    else if rec.value.state.Expired? then Done(GotExpired)
    else Deny(InvalidState)
  }

  function StartDelivery(call: Call, rec: Option<Record>): Pc
    requires call.RecordDelivery?
  {
    if rec.None? then Deny(ContextNotFound)
    else if rec.value.state.Settled? then Submit(EventBody.Delivered(call.receipt))
    else if rec.value.state.Delivered? then
      if rec.value.receiptReference.None? then FailedWith(Corrupt(DeliveredIncomplete))
      else Done(GotDelivered(DeliveredToken(call.ctx, rec.value.receiptReference.value)))
    else Deny(InvalidState)
  }

  function StartCall(env: Env, call: Call, rec: Option<Record>): (pc: Pc)
    ensures Fits(call, pc)
  {
    match call
    case Authorize(_, _, _, _) => StartAuthorize(env, call, rec)
    case RecordPayment(_, _, _, _) => StartPayment(call, rec)
    case RecordSettlement(_, _, _, _) => StartSettlement(call, rec)
    case Compensate(_, _, _) => StartCompensate(call, rec)
    case Expire(_, _) => StartExpire(call, rec)
    case RecordDelivery(_, _, _) => StartDelivery(call, rec)
  }

  // ----- the later steps -----

  /** Which bodies a call may submit. */
  predicate Submits(call: Call, body: EventBody) {
    match call
    case Authorize(_, _, _, _) => body.Authorized?
    case RecordPayment(_, _, _, _) => body.Paid?
    case RecordSettlement(_, _, _, _) => body.Settled? || body.SettlementFailed?
    case Compensate(_, _, _) => body.Compensated?
    case Expire(_, _) => body.Expired?
    case RecordDelivery(_, _, _) => body.Delivered?
  }

  /** Positions only some calls can be in. */
  predicate Fits(call: Call, pc: Pc) {
    match pc
    case CheckRevoked => call.Authorize?
    case ReadAgain => call.Authorize?
    case Replay(_) => call.Authorize?
    case Submit(body) => Submits(call, body)
    case _ => true
  }

  function AfterRevocationRead(call: Call, revoked: bool): Pc
    requires call.Authorize?
  {
    if revoked then Deny(DenyReason.MandateRevoked)
    else
      match Refusal(call.mandate.body.scope, call.cart.claims, call.cart.attestation, call.now)
      case Some(reason) => Deny(reason)
      case None => Submit(EventBody.Authorized(call.mandate, call.cart, call.requestKey))
  }

  /** `replay`: the stored mandate decides whether the retry is the same purchase attempt. */
  function AfterMandateRead(call: Call, rec: Record, stored: Option<Mandate>): Pc
    requires call.Authorize?
  {
    if stored.None? then
      if IsTerminal(rec.state) then Deny(InvalidState) else FailedWith(Corrupt(NoAuthorizedEvent))
    else if stored.value.body != call.mandate.body || stored.value.signer != call.mandate.signer then
      Deny(ContextMismatch)
    else Done(GotAuthorized(AuthorizedFrom(rec)))
  }

  function AuthorizeAnswer(ctx: ContextId, call: Call, r: Result<AppendOutcome, StoreError>): Pc
    requires call.Authorize?
  {
    match r
    case Ok(Appended(_)) =>
      Done(GotAuthorized(AuthorizedToken(ctx, call.mandate.body.id, call.cart.hash,
                                         call.cart.claims.merchant, call.cart.claims.total)))
    case Ok(BudgetExceeded(_)) => Deny(ScopeTotalExceeded)
    case Ok(VelocityExceeded(_)) => Deny(DenyReason.VelocityExceeded)
    case Ok(MandateRevoked) => Deny(DenyReason.MandateRevoked)
    case Ok(_) => FailedWith(Corrupt(WrongOutcome))
    case Err(IllegalTransition(_, Some(_), Authorized)) => ReadAgain
    case Err(e) => FailedWith(e)
  }

  function PaymentAnswer(call: Call, body: EventBody, r: Result<AppendOutcome, StoreError>): Pc
    requires call.RecordPayment? && body.Paid?
  {
    match r
    case Ok(Appended(_)) => Done(GotPaid(PaidToken(call.ctx, body.rail, body.reference, body.idempotencyKey)))
    case Ok(NonceAlreadyUsed) => Deny(DenyReason.NonceAlreadyUsed)
    case Ok(_) => FailedWith(Corrupt(WrongOutcome))
    case Err(e) => FailedWith(e)
  }

  function PlainReply(ctx: ContextId, body: EventBody): Reply {
    match body
    case Settled(_, reference) => GotSettlement(SettledNow(SettledToken(ctx, reference)))
    case SettlementFailed(_, cause) => GotSettlement(FailedNow(FailedToken(ctx, cause)))
    case Compensated(_) => GotCompensated(ctx)
    case Delivered(receipt) => GotDelivered(DeliveredToken(ctx, receipt.reference))
    case _ => GotExpired
  }

  function PlainAnswer(ctx: ContextId, body: EventBody, r: Result<AppendOutcome, StoreError>): Pc {
    match r
    case Ok(Appended(_)) => Done(PlainReply(ctx, body))
    case Ok(_) => FailedWith(Corrupt(WrongOutcome))
    case Err(e) => FailedWith(e)
  }

  function AfterSubmit(ctx: ContextId, call: Call, body: EventBody, r: Result<AppendOutcome, StoreError>): Pc
    requires Submits(call, body)
  {
    match call
    case Authorize(_, _, _, _) => AuthorizeAnswer(ctx, call, r)
    case RecordPayment(_, _, _, _) => PaymentAnswer(call, body, r)
    case _ => PlainAnswer(ctx, body, r)
  }

  function AfterDenial(ctx: ContextId, call: Call, reason: DenyReason, r: Result<AppendOutcome, StoreError>): Pc {
    match r
    case Ok(Appended(_)) => Done(Refused(ctx, StageOf(call), reason, true))
    case Ok(DenialsCapped) => Done(Refused(ctx, StageOf(call), reason, false))
    case Ok(_) => FailedWith(Corrupt(WrongOutcome))
    case Err(e) => FailedWith(e)
  }

  /** One step of a call: at most one store operation. */
  function StepCall(env: Env, w: World, call: Call, pc: Pc): (r: (World, Pc))
    requires Fits(call, pc)
    ensures Fits(call, r.1)
  {
    var ctx := CtxOf(env, call);
    match pc
    case Start => (w, StartCall(env, call, Get(w.store.books.records, ctx)))
    case CheckRevoked => (w, AfterRevocationRead(call, call.mandate.body.id in w.store.books.revoked))
    case Submit(body) =>
      (AppendWorld(w, ctx, call.now, body), AfterSubmit(ctx, call, body, Append(w.store, ctx, call.now, body).1))
    case ReadAgain =>
      var rec := Get(w.store.books.records, ctx);
      (w, if rec.None? then FailedWith(Corrupt(NoRecord)) else BeginReplay(env, call, rec.value))
    case Replay(rec) => (w, AfterMandateRead(call, rec, AuthorizedMandate(ChainOf(w.store.events, ctx))))
    case Deny(reason) =>
      var body := EventBody.Denied(StageOf(call), reason);
      (AppendWorld(w, ctx, call.now, body), AfterDenial(ctx, call, reason, Append(w.store, ctx, call.now, body).1))
    case Done(_) => (w, pc)
  }

  /** Steps only go forward. */
  function Rank(pc: Pc): nat {
    match pc
    case Start => 6
    case CheckRevoked => 5
    case Submit(_) => 4
    case ReadAgain => 3
    case Replay(_) => 2
    case Deny(_) => 1
    case Done(_) => 0
  }

  lemma StepsAdvance(env: Env, w: World, call: Call, pc: Pc)
    requires Fits(call, pc) && !pc.Done?
    ensures Rank(StepCall(env, w, call, pc).1) < Rank(pc)
  {
    hide Append, Refusal, Verified;
  }

  /** A call run to its end with nothing in between. */
  function RunCall(env: Env, w: World, call: Call, pc: Pc): (r: (World, Reply))
    requires Fits(call, pc)
    decreases Rank(pc)
  {
    if pc.Done? then (w, pc.reply)
    else
      StepsAdvance(env, w, call, pc);
      var (w2, pc2) := StepCall(env, w, call, pc);
      RunCall(env, w2, call, pc2)
  }
}
