/** What the in-memory store decides and does, as functions on values (ml-core: store).
    `MemoryStore` is the mutable object that carries these steps out in place. */
module Bookkeeping {
  import opened Prelude
  import opened Domain
  import opened Lifecycle
  import opened Scopes
  import opened Events
  import opened Evidence

  const DENIAL_CAP: nat := 32

  datatype Record = Record(
    ctx: ContextId,
    state: PaymentState,
    mandateId: MandateId,
    cartHash: Digest,
    merchant: string,
    amount: Money,
    rail: Option<string>,
    paymentReference: Option<string>,
    idempotencyKey: Option<Digest>,
    settlementReference: Option<string>,
    failureReason: Option<string>,
    receiptReference: Option<string>)

  datatype Corruption =
    | NoRecord
    | NoReservation
    | NegativeRelease
    | WrongOutcome
    | PaidIncomplete
    | SettledIncomplete
    | FailedIncomplete
    | DeliveredIncomplete
    | NoAuthorizedEvent

  datatype StoreError =
    | IllegalTransition(ctx: ContextId, from: Option<PaymentState>, to: PaymentState)
    | Corrupt(what: Corruption)
    | BadMoney(fault: MoneyError)
    | Backend

  datatype AppendOutcome =
    | Appended(event: Event)
    | BudgetExceeded(remaining: Money)
    | VelocityExceeded(count: Count32)
    | NonceAlreadyUsed
    | MandateRevoked
    | DenialsCapped

  /** Everything the store derives from its log, and the revocations. */
  datatype Books = Books(
    records: map<ContextId, Record>,
    reserved: map<MandateId, Money>,
    authTimes: map<MandateId, seq<Time>>,
    windows: map<MandateId, Time>,
    nonces: map<(string, string), ContextId>,
    revoked: set<MandateId>)

  datatype Store = Store(books: Books, events: seq<Event>, lastSeq: nat)

  const EMPTY: Store := Store(Books(map[], map[], map[], map[], map[], {}), [], 0)

  /** What phase 1 decided, applied only once every check has passed. */
  datatype Effects = Effects(
    reserve: Option<(MandateId, Money)>,
    window: Option<Time>,
    release: Option<(MandateId, Money)>,
    consume: Option<(string, string)>,
    create: Option<Record>)

  const NOTHING: Effects := Effects(None, None, None, None, None)

  datatype Decision = Refuse(outcome: AppendOutcome) | Proceed(fx: Effects)

  // ----- phase 1 -----

  function CheckTransition(b: Books, ctx: ContextId, to: PaymentState): Option<StoreError> {
    var existing := Get(b.records, ctx);
    var legal := if existing.None? then to.Authorized? else CanTransition(existing.value.state, to);
    if legal then None
    else Some(IllegalTransition(ctx, if existing.None? then None else Some(existing.value.state), to))
  }

  /** How many of `times` are at or after `since`. */
  function CountSince(times: seq<Time>, since: Time): nat {
    if times == [] then 0
    else CountSince(DropLast(times), since) + if Last(times) >= since then 1 else 0
  }

  function TimesOf(b: Books, mandate: MandateId): seq<Time> {
    if mandate in b.authTimes then b.authTimes[mandate] else []
  }

  function WindowOf(b: Books, mandate: MandateId): Time {
    if mandate in b.windows then b.windows[mandate] else 0
  }

  function ToCount32(n: nat): Count32 {
    if n <= U32_MAX then n else U32_MAX
  }

  /** The velocity refusal, if the mandate's window is full at `at`. */
  function VelocityRefusal(b: Books, id: MandateId, velocity: Option<Velocity>, at: Time): Option<AppendOutcome> {
    if velocity.None? then None
    else
      var v := velocity.value;
      var count := ToCount32(CountSince(TimesOf(b, id), SatSub(at, v.windowSecs)));
      if count >= v.maxCount then Some(AppendOutcome.VelocityExceeded(count)) else None
  }

  function ReservedOr(b: Books, id: MandateId, currency: Currency): Money {
    if id in b.reserved then b.reserved[id] else Zero(currency)
  }

  function NewRecord(ctx: ContextId, mandate: Mandate, cart: Cart): Record {
    Record(ctx, PaymentState.Authorized, mandate.body.id, cart.hash, cart.claims.merchant,
           cart.claims.total, None, None, None, None, None, None)
  }

  function DecideBudget(b: Books, ctx: ContextId, mandate: Mandate, cart: Cart): Result<Decision, StoreError> {
    var id := mandate.body.id;
    var scope := mandate.body.scope;
    var amount := cart.claims.total;
    var current := ReservedOr(b, id, amount.currency);
    match CheckedAdd(current, amount)
    case Err(e) => Err(BadMoney(e))
    case Ok(next) =>
      var fx := Effects(Some((id, next)),
                        if scope.velocity.None? then None else Some(scope.velocity.value.windowSecs),
                        None, None, Some(NewRecord(ctx, mandate, cart)));
      if scope.maxTotal.None? then Ok(Proceed(fx))
      else
        match Exceeds(next, scope.maxTotal.value)
        case Err(e) => Err(BadMoney(e))
        case Ok(false) => Ok(Proceed(fx))
        case Ok(true) =>
          match CheckedSub(scope.maxTotal.value, current)
          case Err(e) => Err(BadMoney(e))
          case Ok(remaining) => Ok(Refuse(BudgetExceeded(remaining)))
  }

  function DecideAuthorized(b: Books, ctx: ContextId, at: Time, mandate: Mandate, cart: Cart)
    : Result<Decision, StoreError>
  {
    var id := mandate.body.id;
    var illegal := CheckTransition(b, ctx, PaymentState.Authorized);
    if illegal.Some? then Err(illegal.value)
    else if id in b.revoked then Ok(Refuse(AppendOutcome.MandateRevoked))
    else
      var fast := VelocityRefusal(b, id, mandate.body.scope.velocity, at);
      if fast.Some? then Ok(Refuse(fast.value)) else DecideBudget(b, ctx, mandate, cart)
  }

  function DecidePaid(b: Books, ctx: ContextId, key: (string, string)): Result<Decision, StoreError> {
    var illegal := CheckTransition(b, ctx, PaymentState.Paid);
    if illegal.Some? then Err(illegal.value)
    else if key in b.nonces && b.nonces[key] != ctx then Ok(Refuse(AppendOutcome.NonceAlreadyUsed))
    else Ok(Proceed(NOTHING.(consume := Some(key))))
  }

  /** The bodies whose only check is the transition; some give the reservation back. */
  function DecideMove(b: Books, ctx: ContextId, to: PaymentState, releases: bool): Result<Decision, StoreError> {
    var illegal := CheckTransition(b, ctx, to);
    if illegal.Some? then Err(illegal.value)
    else if !releases then Ok(Proceed(NOTHING))
    else if ctx !in b.records then Err(Corrupt(NoRecord))
    else Ok(Proceed(NOTHING.(release := Some((b.records[ctx].mandateId, b.records[ctx].amount)))))
  }

  /** Phase 1 of `append`: every check, no change. `denials` is how many refusals
      the context's chain already holds. */
  function Decide(b: Books, denials: nat, ctx: ContextId, at: Time, body: EventBody): Result<Decision, StoreError> {
    match body
    case Authorized(mandate, cart, _) => DecideAuthorized(b, ctx, at, mandate, cart)
    case Paid(rail, _, nonce, _, _) => DecidePaid(b, ctx, (rail, nonce))
    case Settled(_, _) => DecideMove(b, ctx, PaymentState.Settled, false)
    case SettlementFailed(_, _) => DecideMove(b, ctx, PaymentState.SettlementFailed, true)
    case Compensated(_) => DecideMove(b, ctx, PaymentState.Compensated, false)
    case Delivered(_) => DecideMove(b, ctx, PaymentState.Delivered, false)
    case Expired => DecideMove(b, ctx, PaymentState.Expired, true)
    case Denied(_, _) =>
      if denials >= DENIAL_CAP then Ok(Refuse(DenialsCapped)) else Ok(Proceed(NOTHING))
  }

  // ----- phase 2 -----

  /** `Inner::release`: the reservation after giving `amount` back. */
  function Release(b: Books, mandate: MandateId, amount: Money): Result<Money, StoreError> {
    if mandate !in b.reserved then Err(Corrupt(NoReservation))
    else
      match CheckedSub(b.reserved[mandate], amount)
      case Err(e) => Err(BadMoney(e))
      case Ok(next) => if next.amount < 0 then Err(Corrupt(NegativeRelease)) else Ok(next)
  }

  function Advance(r: Record, body: EventBody): Record {
    match body
    case Paid(rail, reference, _, _, key) =>
      r.(state := PaymentState.Paid, rail := Some(rail), paymentReference := Some(reference),
         idempotencyKey := Some(key))
    case Settled(_, reference) => r.(state := PaymentState.Settled, settlementReference := Some(reference))
    case SettlementFailed(_, reason) => r.(state := PaymentState.SettlementFailed, failureReason := Some(reason))
    case Compensated(_) => r.(state := PaymentState.Compensated)
    case Delivered(receipt) => r.(state := PaymentState.Delivered, receiptReference := Some(receipt.reference))
    case Expired => r.(state := PaymentState.Expired)
    case Authorized(_, _, _) => r
    case Denied(_, _) => r
  }

  function AdvanceRecords(records: map<ContextId, Record>, ctx: ContextId, create: Option<Record>, body: EventBody)
    : map<ContextId, Record>
  {
    var created := if create.Some? then records[ctx := create.value] else records;
    if ctx in created then created[ctx := Advance(created[ctx], body)] else created
  }

  function Max(a: Time, b: Time): Time {
    if a >= b then a else b
  }

  function Reserve(b: Books, at: Time, mandate: MandateId, next: Money, window: Option<Time>): Books {
    b.(windows := if window.None? then b.windows
                  else b.windows[mandate := Max(WindowOf(b, mandate), window.value)],
       reserved := b.reserved[mandate := next],
       authTimes := b.authTimes[mandate := TimesOf(b, mandate) + [at]])
  }

  /** The money side of phase 2: reserve, or give back. */
  function Fund(b: Books, at: Time, fx: Effects): Result<Books, StoreError> {
    var reserved := if fx.reserve.None? then b else Reserve(b, at, fx.reserve.value.0, fx.reserve.value.1, fx.window);
    if fx.release.None? then Ok(reserved)
    else
      match Release(reserved, fx.release.value.0, fx.release.value.1)
      case Err(e) => Err(e)
      case Ok(next) => Ok(reserved.(reserved := reserved.reserved[fx.release.value.0 := next]))
  }

  /** The rest of phase 2: the nonce and the record. */
  function Note(b: Books, ctx: ContextId, body: EventBody, fx: Effects): Books {
    b.(nonces := if fx.consume.None? then b.nonces else b.nonces[fx.consume.value := ctx],
       records := AdvanceRecords(b.records, ctx, fx.create, body))
  }

  /** Phase 2 of `append` on the books. Fails only if the reservation cannot be given back. */
  function Commit(b: Books, ctx: ContextId, at: Time, body: EventBody, fx: Effects): Result<Books, StoreError> {
    match Fund(b, at, fx)
    case Err(e) => Err(e)
    case Ok(funded) => Ok(Note(funded, ctx, body, fx))
  }

  // ----- operations -----

  function NextEvent(s: Store, ctx: ContextId, at: Time, body: EventBody): Event {
    NewEvent(Tip(ChainOf(s.events, ctx)), s.lastSeq + 1, ctx, at, body)
  }

  /** `Store::append`. */
  function Append(s: Store, ctx: ContextId, at: Time, body: EventBody)
    : (Store, Result<AppendOutcome, StoreError>)
  {
    match Decide(s.books, Denials(ChainOf(s.events, ctx)), ctx, at, body)
    case Err(e) => (s, Err(e))
    case Ok(Refuse(outcome)) => (s, Ok(outcome))
    case Ok(Proceed(fx)) =>
      match Commit(s.books, ctx, at, body, fx)
      case Err(e) => (s, Err(e))
      case Ok(books) =>
        var e := NextEvent(s, ctx, at, body);
        (Store(books, s.events + [e], s.lastSeq + 1), Ok(Appended(e)))
  }

  /** The times at or after `cutoff`, in order. */
  function KeepSince(times: seq<Time>, cutoff: Time): seq<Time> {
    if times == [] then []
    else if Last(times) >= cutoff then KeepSince(DropLast(times), cutoff) + [Last(times)]
    else KeepSince(DropLast(times), cutoff)
  }

  /** How far back a mandate's authorizations still count for some window, as of `before`. */
  function Cutoff(windows: map<MandateId, Time>, mandate: MandateId, before: Time): Time {
    SatSub(before, if mandate in windows then windows[mandate] else 0)
  }

  /** A context whose chain `prune` forgets: over, and quiet since before `before`. */
  predicate Finished(s: Store, before: Time, ctx: ContextId) {
    && (ctx in s.books.records ==> IsTerminal(s.books.records[ctx].state))
    && ChainOf(s.events, ctx) != []
    && Last(ChainOf(s.events, ctx)).at < before
  }

  function Contexts(events: seq<Event>): set<ContextId> {
    set e | e in events :: e.ctx
  }

  function Gone(s: Store, before: Time): set<ContextId> {
    set c | c in Contexts(s.events) && Finished(s, before, c)
  }

  function PruneTimes(times: map<MandateId, seq<Time>>, windows: map<MandateId, Time>, before: Time)
    : map<MandateId, seq<Time>>
  {
    map m | m in times && KeepSince(times[m], Cutoff(windows, m, before)) != []
      :: KeepSince(times[m], Cutoff(windows, m, before))
  }

  /** `MemoryStore::prune`. */
  function Prune(s: Store, before: Time): Store {
    s.(books := s.books.(authTimes := PruneTimes(s.books.authTimes, s.books.windows, before)),
       events := Without(s.events, Gone(s, before)))
  }

  /** `Store::revoke`. */
  function Revoke(s: Store, mandate: MandateId): Store {
    s.(books := s.books.(revoked := s.books.revoked + {mandate}))
  }
}
