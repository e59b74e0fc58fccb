/** The rail boundary and the typestate tokens (ml-core: rail, state). */
module Rails {
  import opened Prelude
  import opened Domain
  import opened Lifecycle
  import opened Bookkeeping

  datatype PaymentExpectation = PaymentExpectation(
    ctx: ContextId, cartHash: Digest, amount: Money, merchant: string, recordedReference: Option<string>)

  datatype VerifiedProof = VerifiedProof(
    reference: string,
    nonce: string,
    amount: Money,
    boundCtx: Option<ContextId>,
    boundCart: Option<Digest>,
    boundMerchant: Option<string>)

  datatype SettlementExpectation = SettlementExpectation(
    ctx: ContextId, paymentReference: string, amount: Money, merchant: string)

  datatype FinalityStatus = Final(reference: string) | Pending | Failed(cause: string)

  datatype RailError = InvalidProof | Unavailable

  // ----- tokens -----

  datatype AuthorizedToken = AuthorizedToken(
    ctx: ContextId, mandateId: MandateId, cartHash: Digest, merchant: string, amount: Money)

  datatype PaidToken = PaidToken(ctx: ContextId, rail: string, reference: string, idempotencyKey: Digest)

  datatype SettledToken = SettledToken(ctx: ContextId, reference: string)

  datatype FailedToken = FailedToken(ctx: ContextId, cause: string)

  datatype DeliveredToken = DeliveredToken(ctx: ContextId, receiptReference: string)

  function AuthorizedFrom(r: Record): AuthorizedToken {
    AuthorizedToken(r.ctx, r.mandateId, r.cartHash, r.merchant, r.amount)
  }

  function PaidFrom(r: Record): Result<PaidToken, StoreError> {
    if r.rail.None? || r.paymentReference.None? || r.idempotencyKey.None? then Err(Corrupt(PaidIncomplete))
    else Ok(PaidToken(r.ctx, r.rail.value, r.paymentReference.value, r.idempotencyKey.value))
  }

  function SettledFrom(r: Record): Result<SettledToken, StoreError> {
    if r.settlementReference.None? then Err(Corrupt(SettledIncomplete))
    else Ok(SettledToken(r.ctx, r.settlementReference.value))
  }

  function FailedFrom(r: Record): Result<FailedToken, StoreError> {
    if r.failureReason.None? then Err(Corrupt(FailedIncomplete))
    else Ok(FailedToken(r.ctx, r.failureReason.value))
  }

  function DeliveredFrom(r: Record): Result<DeliveredToken, StoreError> {
    if r.receiptReference.None? then Err(Corrupt(DeliveredIncomplete))
    else Ok(DeliveredToken(r.ctx, r.receiptReference.value))
  }

  /** Every token a context has earned so far. */
  datatype Reached = Reached(
    state: PaymentState,
    authorized: AuthorizedToken,
    paid: Option<PaidToken>,
    settled: Option<SettledToken>,
    settlementFailed: Option<FailedToken>,
    compensated: Option<ContextId>,
    delivered: Option<DeliveredToken>,
    expired: bool)

  function Earned<T>(yes: bool, token: Result<T, StoreError>): Result<Option<T>, StoreError> {
    if !yes then Ok(None)
    else
      match token
      case Err(e) => Err(e)
      case Ok(t) => Ok(Some(t))
  }

  /** `Ledger::reached`, from the context's record. */
  function ReachedFrom(r: Record): Result<Reached, StoreError> {
    var s := r.state;
    var paid := Earned(!s.Authorized? && !s.Expired?, PaidFrom(r));
    var settled := Earned(s.Settled? || s.Delivered?, SettledFrom(r));
    var failed := Earned(s.SettlementFailed? || s.Compensated?, FailedFrom(r));
    var delivered := Earned(s.Delivered?, DeliveredFrom(r));
    if paid.Err? then Err(paid.error)
    else if settled.Err? then Err(settled.error)
    else if failed.Err? then Err(failed.error)
    else if delivered.Err? then Err(delivered.error)
    else Ok(Reached(s, AuthorizedFrom(r), paid.value, settled.value, failed.value,
                    if s.Compensated? then Some(r.ctx) else None, delivered.value, s.Expired?))
  }

  datatype Resumed =
    | AtAuthorized(authorized: AuthorizedToken)
    | AtPaid(paid: PaidToken)
    | AtSettled(settled: SettledToken)
    | AtFailed(failed: FailedToken)
    | AtCompensated(ctx: ContextId)
    | AtDelivered(delivered: DeliveredToken)
    | AtExpired(ctx: ContextId)

  function Wrap<T, U>(token: Result<T, StoreError>, wrap: T -> U): Result<U, StoreError> {
    match token
    case Err(e) => Err(e)
    case Ok(t) => Ok(wrap(t))
  }

  /** `Ledger::resume`, from the context's record. */
  function ResumedFrom(r: Record): Result<Resumed, StoreError> {
    match r.state
    case Authorized => Ok(AtAuthorized(AuthorizedFrom(r)))
    case Paid => Wrap(PaidFrom(r), t => AtPaid(t))
    case Settled => Wrap(SettledFrom(r), t => AtSettled(t))
    case SettlementFailed => Wrap(FailedFrom(r), t => AtFailed(t))
    case Compensated => Ok(AtCompensated(r.ctx))
    case Delivered => Wrap(DeliveredFrom(r), t => AtDelivered(t))
    case Expired => Ok(AtExpired(r.ctx))
  }
}
