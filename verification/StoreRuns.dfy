/** Runs of the store: any sequence of appends, prunes and revocations, together with
    the full history that pruning cannot touch. */
module StoreRuns {
  import opened Prelude
  import opened Domain
  import opened Lifecycle
  import opened Events
  import opened Evidence
  import opened Bookkeeping

  datatype World = World(store: Store, history: seq<Event>)

  const START: World := World(EMPTY, [])

  datatype Op =
    | DoAppend(ctx: ContextId, at: Time, body: EventBody)
    | DoPrune(before: Time)
    | DoRevoke(mandate: MandateId)

  predicate IsAppended(r: Result<AppendOutcome, StoreError>) {
    r.Ok? && r.value.Appended?
  }

  function AppendWorld(w: World, ctx: ContextId, at: Time, body: EventBody): World {
    var (s, r) := Append(w.store, ctx, at, body);
    World(s, w.history + if IsAppended(r) then [r.value.event] else [])
  }

  function Step(w: World, op: Op): World {
    match op
    case DoAppend(ctx, at, body) => AppendWorld(w, ctx, at, body)
    case DoPrune(before) => w.(store := Prune(w.store, before))
    case DoRevoke(mandate) => w.(store := Revoke(w.store, mandate))
  }

  function Run(w: World, ops: seq<Op>): World {
    if ops == [] then w else Step(Run(w, DropLast(ops)), Last(ops))
  }

  // ----- what one committed append does -----

  /** The record map after `body` is committed. */
  function RecordsAfter(b: Books, ctx: ContextId, body: EventBody): map<ContextId, Record>
    requires !body.Authorized? && !body.Denied? ==> ctx in b.records
  {
    match body
    case Authorized(mandate, cart, _) => b.records[ctx := NewRecord(ctx, mandate, cart)]
    case Denied(_, _) => b.records
    case _ => b.records[ctx := Advance(b.records[ctx], body)]
  }

  predicate Releases(body: EventBody) {
    body.SettlementFailed? || body.Expired?
  }

  /** A legal step of the context's own state machine. */
  predicate LegalStep(b: Books, ctx: ContextId, body: EventBody) {
    match ResultingState(body)
    case None => true
    case Some(to) => if ctx in b.records then CanTransition(b.records[ctx].state, to) else to.Authorized?
  }

  /** How the reservation map may move from `b` to `b2`. */
  predicate Refunded(b: Books, b2: Books, ctx: ContextId, body: EventBody) {
    if body.Authorized? then
      var id := body.mandate.body.id;
      var amount := body.cart.claims.total;
      var current := ReservedOr(b, id, amount.currency);
      && CheckedAdd(current, amount).Ok?
      && b2.reserved == b.reserved[id := CheckedAdd(current, amount).value]
      && (body.mandate.body.scope.maxTotal.Some? ==>
            Exceeds(b2.reserved[id], body.mandate.body.scope.maxTotal.value) == Ok(false))
    else if Releases(body) then
      && ctx in b.records
      && Release(b, b.records[ctx].mandateId, b.records[ctx].amount).Ok?
      && b2.reserved == b.reserved[b.records[ctx].mandateId :=
                                     Release(b, b.records[ctx].mandateId, b.records[ctx].amount).value]
    else b2.reserved == b.reserved
  }

  predicate NoncesMove(b: Books, b2: Books, ctx: ContextId, body: EventBody) {
    if body.Paid? then
      && ((body.rail, body.nonce) in b.nonces ==> b.nonces[(body.rail, body.nonce)] == ctx)
      && b2.nonces == b.nonces[(body.rail, body.nonce) := ctx]
    else b2.nonces == b.nonces
  }

  /** An authorization passed the revocation and velocity checks, and is counted. */
  predicate TimesMove(b: Books, b2: Books, at: Time, body: EventBody) {
    if body.Authorized? then
      var id := body.mandate.body.id;
      && id !in b.revoked
      && VelocityRefusal(b, id, body.mandate.body.scope.velocity, at).None?
      && b2.authTimes == b.authTimes[id := TimesOf(b, id) + [at]]
    else b2.authTimes == b.authTimes
  }

  predicate VelocityMoves(b: Books, b2: Books, at: Time, body: EventBody) {
    && TimesMove(b, b2, at, body)
    && b2.windows == if body.Authorized? && body.mandate.body.scope.velocity.Some? then
                       b.windows[body.mandate.body.id := Max(WindowOf(b, body.mandate.body.id),
                                                             body.mandate.body.scope.velocity.value.windowSecs)]
                     else b.windows
  }

  /** The context took a legal step, and its record and the nonces say so. */
  predicate Recorded(b: Books, b2: Books, ctx: ContextId, body: EventBody) {
    && LegalStep(b, ctx, body)
    && (!body.Authorized? && !body.Denied? ==> ctx in b.records)
    && b2.records == RecordsAfter(b, ctx, body)
    && NoncesMove(b, b2, ctx, body)
  }

  predicate Applied(b: Books, b2: Books, ctx: ContextId, at: Time, body: EventBody) {
    && Recorded(b, b2, ctx, body)
    && Refunded(b, b2, ctx, body)
    && VelocityMoves(b, b2, at, body)
    && b2.revoked == b.revoked
  }

  lemma AuthorizedApplies(b: Books, ctx: ContextId, at: Time, body: EventBody)
    requires body.Authorized?
    requires var d := DecideAuthorized(b, ctx, at, body.mandate, body.cart); d.Ok? && d.value.Proceed?
    ensures var c := Commit(b, ctx, at, body, DecideAuthorized(b, ctx, at, body.mandate, body.cart).value.fx);
            c.Ok? && Applied(b, c.value, ctx, at, body)
  {
    hide VelocityRefusal, CountSince, NewRecord;
  }

  lemma MoveApplies(b: Books, denials: nat, ctx: ContextId, at: Time, body: EventBody)
    requires !body.Authorized?
    requires var d := Decide(b, denials, ctx, at, body);
             d.Ok? && d.value.Proceed? && Commit(b, ctx, at, body, d.value.fx).Ok?
    ensures Applied(b, Commit(b, ctx, at, body, Decide(b, denials, ctx, at, body).value.fx).value, ctx, at, body)
  {
    hide DecideAuthorized, Release;
  }

  lemma DecidedApplies(b: Books, denials: nat, ctx: ContextId, at: Time, body: EventBody)
    requires var d := Decide(b, denials, ctx, at, body);
             d.Ok? && d.value.Proceed? && Commit(b, ctx, at, body, d.value.fx).Ok?
    ensures Applied(b, Commit(b, ctx, at, body, Decide(b, denials, ctx, at, body).value.fx).value, ctx, at, body)
  {
    hide Commit, Applied, DecideAuthorized, DecidePaid, DecideMove;
    if body.Authorized? {
      AuthorizedApplies(b, ctx, at, body);
    } else {
      MoveApplies(b, denials, ctx, at, body);
    }
  }

  /** An append either writes one event and applies it, or changes nothing. */
  lemma AppendEffect(s: Store, ctx: ContextId, at: Time, body: EventBody)
    ensures var (s2, r) := Append(s, ctx, at, body);
            if IsAppended(r) then
              && r.value.event == NextEvent(s, ctx, at, body)
              && s2.events == s.events + [NextEvent(s, ctx, at, body)]
              && s2.lastSeq == s.lastSeq + 1
              && Applied(s.books, s2.books, ctx, at, body)
              && (body.Denied? ==> Denials(ChainOf(s.events, ctx)) < DENIAL_CAP)
            else s2 == s
  {
    hide Commit, Applied, NextEvent;
    var denials := Denials(ChainOf(s.events, ctx));
    var d := Decide(s.books, denials, ctx, at, body);
    if d.Ok? && d.value.Proceed? && Commit(s.books, ctx, at, body, d.value.fx).Ok? {
      DecidedApplies(s.books, denials, ctx, at, body);
    }
  }

  // ----- one context, through any run -----

  /** The fields a record has filled in, by state. */
  predicate WellFormed(r: Record) {
    var paid := r.rail.Some? && r.paymentReference.Some? && r.idempotencyKey.Some?;
    var unpaid := r.rail.None? && r.paymentReference.None? && r.idempotencyKey.None?;
    && (if r.state.Authorized? || r.state.Expired? then unpaid else paid)
    && (r.settlementReference.Some? <==> r.state.Settled? || r.state.Delivered?)
    && (r.failureReason.Some? <==> r.state.SettlementFailed? || r.state.Compensated?)
    && (r.receiptReference.Some? <==> r.state.Delivered?)
  }

  /** The record a context's own events add up to. */
  function RecordFrom(chain: seq<Event>): Option<Record> {
    if chain == [] then None
    else
      var e := Last(chain);
      var before := RecordFrom(DropLast(chain));
      if e.body.Authorized? then Some(NewRecord(e.ctx, e.body.mandate, e.body.cart))
      else if before.None? then None
      else Some(Advance(before.value, e.body))
  }

  /** A context's full history lives one lawful life, and its record is where that life stands. */
  predicate LifeOk(full: seq<Event>, rec: Option<Record>) {
    && rec == RecordFrom(full)
    && Path(States(full))
    && (rec.None? <==> States(full) == [])
    && (rec.Some? ==> rec.value.state == Last(States(full)) && WellFormed(rec.value))
    && (AuthorizedMandate(full).Some? <==> rec.Some?)
    && (rec.Some? ==> AuthorizedMandate(full).value.body.id == rec.value.mandateId)
  }

  predicate IsTail(chain: seq<Event>, full: seq<Event>) {
    |chain| <= |full| && chain == full[|full| - |chain|..]
  }

  /** The state changes are all still there, or all gone because the life is over. */
  predicate Kept(chain: seq<Event>, full: seq<Event>, rec: Option<Record>) {
    if States(chain) == States(full) then AuthorizedMandate(chain) == AuthorizedMandate(full)
    else States(chain) == [] && AuthorizedMandate(chain).None? && rec.Some? && IsTerminal(rec.value.state)
  }

  /** What the log still holds of a context: an intact suffix of its history, with at
      most `DENIAL_CAP` refusals, that has lost state changes only if the life is over. */
  predicate ChainOk(c: ContextId, chain: seq<Event>, full: seq<Event>, rec: Option<Record>, lastSeq: nat) {
    && Linked(c, chain) && TipSeq(chain) <= lastSeq
    && IsTail(chain, full)
    && Denials(chain) <= DENIAL_CAP
    && Kept(chain, full, rec)
  }

  predicate ContextOk(w: World, c: ContextId) {
    && LifeOk(ChainOf(w.history, c), Get(w.store.books.records, c))
    && ChainOk(c, ChainOf(w.store.events, c), ChainOf(w.history, c), Get(w.store.books.records, c), w.store.lastSeq)
  }

  ghost predicate ContextsOk(w: World) {
    forall c :: ContextOk(w, c)
  }

  lemma AdvanceWellFormed(r: Record, body: EventBody)
    requires WellFormed(r) && !body.Authorized?
    requires ResultingState(body).Some? ==> CanTransition(r.state, ResultingState(body).value)
    ensures WellFormed(Advance(r, body))
    ensures Advance(r, body).mandateId == r.mandateId
    ensures ResultingState(body).Some? ==> Advance(r, body).state == ResultingState(body).value
    ensures ResultingState(body).None? ==> Advance(r, body) == r
  {
  }

  /** `e` is a legal next event for a context whose record is `rec`. */
  predicate LegalNext(rec: Option<Record>, body: EventBody) {
    match ResultingState(body)
    case None => true
    case Some(to) => if rec.Some? then CanTransition(rec.value.state, to) else to.Authorized?
  }

  function NextRecord(rec: Option<Record>, e: Event): Option<Record> {
    if e.body.Authorized? then Some(NewRecord(e.ctx, e.body.mandate, e.body.cart))
    else if rec.None? then None
    else Some(Advance(rec.value, e.body))
  }

  lemma LifeStep(full: seq<Event>, rec: Option<Record>, e: Event)
    requires LifeOk(full, rec) && LegalNext(rec, e.body)
    ensures LifeOk(full + [e], NextRecord(rec, e))
  {
    SnocParts(full, e);
    StatesSnoc(full, e);
    AuthorizedMandateSnoc(full, e);
    if ResultingState(e.body).Some? {
      PathSnoc(States(full), ResultingState(e.body).value);
    }
    if rec.Some? {
      AdvanceWellFormed(rec.value, e.body);
    }
  }

  lemma TailSnoc(chain: seq<Event>, full: seq<Event>, e: Event)
    requires IsTail(chain, full)
    ensures IsTail(chain + [e], full + [e])
  {
    var k := |full| - |chain|;
    assert (full + [e])[k..] == full[k..] + [e];
  }

  lemma KeptStep(chain: seq<Event>, full: seq<Event>, rec: Option<Record>, e: Event)
    requires LifeOk(full, rec) && Kept(chain, full, rec) && LegalNext(rec, e.body)
    ensures Kept(chain + [e], full + [e], NextRecord(rec, e))
  {
    hide States, AuthorizedMandate, RecordFrom, Path;
    StatesSnoc(chain, e);
    StatesSnoc(full, e);
    AuthorizedMandateSnoc(chain, e);
    AuthorizedMandateSnoc(full, e);
  }

  lemma LinkStep(c: ContextId, chain: seq<Event>, lastSeq: nat, e: Event)
    requires Linked(c, chain) && TipSeq(chain) <= lastSeq
    requires e == NewEvent(Tip(chain), lastSeq + 1, c, e.at, e.body)
    ensures Linked(c, chain + [e]) && TipSeq(chain + [e]) == lastSeq + 1
  {
    LinkedSnoc(c, chain, e);
  }

  lemma ChainStep(c: ContextId, chain: seq<Event>, full: seq<Event>, rec: Option<Record>, lastSeq: nat, e: Event)
    requires LifeOk(full, rec) && ChainOk(c, chain, full, rec, lastSeq) && LegalNext(rec, e.body)
    requires e == NewEvent(Tip(chain), lastSeq + 1, c, e.at, e.body)
    requires e.body.Denied? ==> Denials(chain) < DENIAL_CAP
    ensures ChainOk(c, chain + [e], full + [e], NextRecord(rec, e), lastSeq + 1)
  {
    LinkStep(c, chain, lastSeq, e);
    TailSnoc(chain, full, e);
    DenialsSnoc(chain, e);
    KeptStep(chain, full, rec, e);
  }

  lemma RecordsStep(b: Books, b2: Books, e: Event)
    requires Recorded(b, b2, e.ctx, e.body)
    ensures LegalNext(Get(b.records, e.ctx), e.body)
    ensures Get(b2.records, e.ctx) == NextRecord(Get(b.records, e.ctx), e)
    ensures forall c :: c != e.ctx ==> Get(b2.records, c) == Get(b.records, c)
  {
  }

  lemma AppendOwnContext(w: World, e: Event, s: Store)
    requires ContextOk(w, e.ctx)
    requires e == NextEvent(w.store, e.ctx, e.at, e.body)
    requires e.body.Denied? ==> Denials(ChainOf(w.store.events, e.ctx)) < DENIAL_CAP
    requires Recorded(w.store.books, s.books, e.ctx, e.body)
    requires s.events == w.store.events + [e] && s.lastSeq == w.store.lastSeq + 1
    ensures ContextOk(World(s, w.history + [e]), e.ctx)
  {
    hide LifeOk, ChainOk, Recorded, ChainOf;
    var c := e.ctx;
    ChainOfSnoc(w.history, e, c);
    ChainOfSnoc(w.store.events, e, c);
    var full, rec := ChainOf(w.history, c), Get(w.store.books.records, c);
    RecordsStep(w.store.books, s.books, e);
    LifeStep(full, rec, e);
    ChainStep(c, ChainOf(w.store.events, c), full, rec, w.store.lastSeq, e);
  }

  /** An append touches only its own context. */
  lemma AppendOtherContext(w: World, e: Event, s: Store, c: ContextId)
    requires ContextOk(w, c) && c != e.ctx
    requires Recorded(w.store.books, s.books, e.ctx, e.body)
    requires s.events == w.store.events + [e] && s.lastSeq == w.store.lastSeq + 1
    ensures ContextOk(World(s, w.history + [e]), c)
  {
    ChainOfSnoc(w.history, e, c);
    ChainOfSnoc(w.store.events, e, c);
    RecordsStep(w.store.books, s.books, e);
  }

  lemma AppendContext(w: World, ctx: ContextId, at: Time, body: EventBody, c: ContextId)
    requires ContextOk(w, c)
    ensures ContextOk(AppendWorld(w, ctx, at, body), c)
  {
    hide ContextOk, Append, Recorded, Refunded, VelocityMoves;
    AppendEffect(w.store, ctx, at, body);
    var (s, r) := Append(w.store, ctx, at, body);
    if IsAppended(r) {
      if c == ctx {
        AppendOwnContext(w, r.value.event, s);
      } else {
        AppendOtherContext(w, r.value.event, s, c);
      }
    } else {
      assert w.history + [] == w.history;
    }
  }

  lemma PruneContext(w: World, before: Time, c: ContextId)
    requires ContextOk(w, c)
    ensures ContextOk(Step(w, DoPrune(before)), c)
  {
    hide RecordFrom, Path, PruneTimes, WellFormed;
    ChainOfWithout(w.store.events, Gone(w.store, before), c);
  }

  lemma StepContexts(w: World, op: Op)
    requires ContextsOk(w)
    ensures ContextsOk(Step(w, op))
  {
    hide LifeOk, ChainOk, Append, Prune, ChainOf;
    forall c
      ensures ContextOk(Step(w, op), c)
    {
      match op
      case DoAppend(ctx, at, body) => AppendContext(w, ctx, at, body, c);
      case DoPrune(before) => PruneContext(w, before, c);
      case DoRevoke(_) => assert ContextOk(w, c);
    }
  }

  /** Every context is in order after every run of appends, prunes and revocations. */
  lemma {:induction false} RunContexts(ops: seq<Op>)
    ensures ContextsOk(Run(START, ops))
  {
    if ops != [] {
      RunContexts(DropLast(ops));
      StepContexts(Run(START, DropLast(ops)), Last(ops));
    }
  }
}
