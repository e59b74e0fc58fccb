/** What the typestate tokens say: `reached` and `resume` report exactly what a context's
    whole history recorded, prunes notwithstanding (ml-core: ledger, state). */
module TokenClaims {
  import opened Prelude
  import opened Domain
  import opened Lifecycle
  import opened Events
  import opened Evidence
  import opened Bookkeeping
  import opened StoreRuns
  import opened WorldGrowth
  import opened Rails

  // ----- one event, one token -----

  predicate GrantsToken(e: Event, t: AuthorizedToken) {
    && e.body.Authorized?
    && t == AuthorizedToken(e.ctx, e.body.mandate.body.id, e.body.cart.hash, e.body.cart.claims.merchant,
                            e.body.cart.claims.total)
  }

  predicate PaysToken(e: Event, t: PaidToken) {
    e.body.Paid? && t == PaidToken(e.ctx, e.body.rail, e.body.reference, e.body.idempotencyKey)
  }

  predicate SettlesToken(e: Event, t: SettledToken) {
    e.body.Settled? && t == SettledToken(e.ctx, e.body.reference)
  }

  predicate FailsToken(e: Event, t: FailedToken) {
    e.body.SettlementFailed? && t == FailedToken(e.ctx, e.body.cause)
  }

  predicate DeliversToken(e: Event, t: DeliveredToken) {
    e.body.Delivered? && t == DeliveredToken(e.ctx, e.body.receipt.reference)
  }

  // ----- what a chain's record says of it -----

  /** Each part of the record was written by an event of the chain, and every event that
      writes one is told of. */
  ghost predicate Tells(chain: seq<Event>, r: Record) {
    TellsTokens(chain, r) && TellsAll(chain, r)
  }

  /** Each part of the record was written by an event of the chain. */
  ghost predicate TellsTokens(chain: seq<Event>, r: Record) {
    && (exists e :: e in chain && GrantsToken(e, AuthorizedFrom(r)))
    && (PaidFrom(r).Ok? ==> exists e :: e in chain && PaysToken(e, PaidFrom(r).value))
    && (SettledFrom(r).Ok? ==> exists e :: e in chain && SettlesToken(e, SettledFrom(r).value))
    && (FailedFrom(r).Ok? ==> exists e :: e in chain && FailsToken(e, FailedFrom(r).value))
    && (DeliveredFrom(r).Ok? ==> exists e :: e in chain && DeliversToken(e, DeliveredFrom(r).value))
  }

  /** Every event that writes a part is told of. */
  ghost predicate TellsAll(chain: seq<Event>, r: Record) {
    && (forall e :: e in chain && e.body.Paid? ==> PaidFrom(r).Ok?)
    && (forall e :: e in chain && e.body.Settled? ==> SettledFrom(r).Ok?)
    && (forall e :: e in chain && e.body.SettlementFailed? ==> FailedFrom(r).Ok?)
    && (forall e :: e in chain && e.body.Delivered? ==> DeliveredFrom(r).Ok?)
    && (forall e :: e in chain && e.body.Compensated? ==> r.state.Compensated?)
    && (forall e :: e in chain && e.body.Expired? ==> r.state.Expired?)
  }

  lemma {:induction false} OnlyRefusals(chain: seq<Event>)
    requires States(chain) == []
    ensures forall e :: e in chain ==> e.body.Denied?
  {
    if chain != [] {
      OnlyRefusals(DropLast(chain));
      assert chain == DropLast(chain) + [Last(chain)];
    }
  }

  lemma NewTells(front: seq<Event>, e: Event)
    requires States(front) == [] && e.body.Authorized?
    ensures Tells(front + [e], NewRecord(e.ctx, e.body.mandate, e.body.cart))
  {
    OnlyRefusals(front);
    assert e in front + [e] && GrantsToken(e, AuthorizedFrom(NewRecord(e.ctx, e.body.mandate, e.body.cart)));
  }

  /** The next event's own part is told of, and nothing told before is lost. */
  lemma AdvanceTells(front: seq<Event>, e: Event, r: Record)
    requires Tells(front, r) && WellFormed(r) && e.ctx == r.ctx && !e.body.Authorized?
    requires ResultingState(e.body).Some? ==> CanTransition(r.state, ResultingState(e.body).value)
    ensures Tells(front + [e], Advance(r, e.body))
  {
    hide TellsTokens, TellsAll, WellFormed, Advance;
    AdvanceTellsTokens(front, e, r);
    AdvanceTellsAll(front, e, r);
  }

  lemma AdvanceTellsAll(front: seq<Event>, e: Event, r: Record)
    requires TellsAll(front, r) && WellFormed(r) && !e.body.Authorized?
    requires ResultingState(e.body).Some? ==> CanTransition(r.state, ResultingState(e.body).value)
    ensures TellsAll(front + [e], Advance(r, e.body))
  {
  }

  lemma AdvanceTellsTokens(front: seq<Event>, e: Event, r: Record)
    requires TellsTokens(front, r) && WellFormed(r) && e.ctx == r.ctx && !e.body.Authorized?
    requires ResultingState(e.body).Some? ==> CanTransition(r.state, ResultingState(e.body).value)
    ensures TellsTokens(front + [e], Advance(r, e.body))
  {
    var chain, r2 := front + [e], Advance(r, e.body);
    assert e in chain && forall d :: d in front ==> d in chain;
    match e.body
    case Paid(_, _, _, _, _) => assert PaysToken(e, PaidFrom(r2).value);
    case Settled(_, _) => assert SettlesToken(e, SettledFrom(r2).value);
    case SettlementFailed(_, _) => assert FailsToken(e, FailedFrom(r2).value);
    case Delivered(_) => assert DeliversToken(e, DeliveredFrom(r2).value);
    case _ =>
  }

  lemma {:induction false} RecordTells(chain: seq<Event>, c: ContextId)
    requires Path(States(chain)) && RecordFrom(chain).Some? && forall e :: e in chain ==> e.ctx == c
    ensures var r := RecordFrom(chain).value;
            && Tells(chain, r) && WellFormed(r) && r.ctx == c && States(chain) != [] && r.state == Last(States(chain))
  {
    hide Tells, WellFormed, Advance;
    var front, e := DropLast(chain), Last(chain);
    assert chain == front + [e];
    StatesSnoc(front, e);
    PathFront(States(front), States(chain));
    if e.body.Authorized? {
      OnlyFirst(States(front));
      NewTells(front, e);
      NewWellFormed(e);
    } else {
      RecordTells(front, c);
      var r := RecordFrom(front).value;
      if ResultingState(e.body).Some? {
        LastStep(States(front), ResultingState(e.body).value);
      }
      AdvanceTells(front, e, r);
      AdvanceWellFormed(r, e.body);
      AdvanceKeepsName(r, e.body);
    }
  }

  lemma NewWellFormed(e: Event)
    requires e.body.Authorized?
    ensures WellFormed(NewRecord(e.ctx, e.body.mandate, e.body.cart))
  {
  }

  lemma PathFront(a: seq<PaymentState>, b: seq<PaymentState>)
    requires a <= b && Path(b)
    ensures Path(a)
  {
    assert forall i :: 0 <= i < |a| ==> a[i] == b[i];
  }

  lemma OnlyFirst(states: seq<PaymentState>)
    requires Path(states + [PaymentState.Authorized])
    ensures states == []
  {
    var all := states + [PaymentState.Authorized];
    assert states != [] ==> CanTransition(all[|states| - 1], all[|states|]);
  }

  lemma LastStep(states: seq<PaymentState>, next: PaymentState)
    requires Path(states + [next]) && states != []
    ensures CanTransition(Last(states), next)
  {
    var all := states + [next];
    assert CanTransition(all[|states| - 1], all[|states|]);
  }

  // ----- `reached` and `resume` -----

  /** `t` holds exactly the tokens of the chain's events. */
  ghost predicate Reports(chain: seq<Event>, t: Reached) {
    && (exists e :: e in chain && GrantsToken(e, t.authorized))
    && (if t.paid.Some? then exists e :: e in chain && PaysToken(e, t.paid.value)
        else forall e :: e in chain ==> !e.body.Paid?)
    && (if t.settled.Some? then exists e :: e in chain && SettlesToken(e, t.settled.value)
        else forall e :: e in chain ==> !e.body.Settled?)
    && (if t.settlementFailed.Some? then exists e :: e in chain && FailsToken(e, t.settlementFailed.value)
        else forall e :: e in chain ==> !e.body.SettlementFailed?)
    && (if t.delivered.Some? then exists e :: e in chain && DeliversToken(e, t.delivered.value)
        else forall e :: e in chain ==> !e.body.Delivered?)
    && (if t.compensated.Some? then exists e :: e in chain && e.body.Compensated? && e.ctx == t.compensated.value
        else forall e :: e in chain ==> !e.body.Compensated?)
    && (t.expired <==> exists e :: e in chain && e.body.Expired?)
    && States(chain) != [] && t.state == Last(States(chain))
  }

  lemma ReachedReports(chain: seq<Event>, r: Record)
    requires Tells(chain, r) && WellFormed(r) && forall e :: e in chain ==> e.ctx == r.ctx
    requires States(chain) != [] && r.state == Last(States(chain))
    ensures ReachedFrom(r).Ok? && Reports(chain, ReachedFrom(r).value)
  {
    hide States;
    var e := LastStateEvent(chain);
  }

  lemma {:induction false} LastStateEvent(chain: seq<Event>) returns (e: Event)
    requires States(chain) != []
    ensures e in chain && ResultingState(e.body) == Some(Last(States(chain)))
  {
    if ResultingState(Last(chain).body).Some? {
      e := Last(chain);
    } else {
      e := LastStateEvent(DropLast(chain));
    }
  }

  /** Where a context stands, as a token. */
  function Standing(t: Reached, c: ContextId): Option<Resumed> {
    match t.state
    case Authorized => Some(AtAuthorized(t.authorized))
    case Paid => if t.paid.Some? then Some(AtPaid(t.paid.value)) else None
    case Settled => if t.settled.Some? then Some(AtSettled(t.settled.value)) else None
    case SettlementFailed => if t.settlementFailed.Some? then Some(AtFailed(t.settlementFailed.value)) else None
    case Compensated => Some(AtCompensated(c))
    case Delivered => if t.delivered.Some? then Some(AtDelivered(t.delivered.value)) else None
    case Expired => Some(AtExpired(c))
  }

  lemma ResumesStanding(r: Record)
    requires WellFormed(r)
    ensures ReachedFrom(r).Ok? && ResumedFrom(r).Ok?
    ensures Standing(ReachedFrom(r).value, r.ctx) == Some(ResumedFrom(r).value)
  {
  }

  /** After any run, `reached` reports of a context exactly what its whole history recorded,
      and `resume` the token of the state it stands in. */
  lemma TokensTell(ops: seq<Op>, c: ContextId)
    requires c in Run(START, ops).store.books.records
    ensures var w := Run(START, ops);
            var reached, resumed := ReachedFrom(w.store.books.records[c]), ResumedFrom(w.store.books.records[c]);
            && reached.Ok? && Reports(ChainOf(w.history, c), reached.value)
            && resumed.Ok? && Standing(reached.value, c) == Some(resumed.value)
  {
    hide Run, Tells, Reports, ReachedFrom, ResumedFrom, Linked, Kept, Standing;
    RunContexts(ops);
    var w := Run(START, ops);
    assert ContextOk(w, c);
    var chain, r := ChainOf(w.history, c), w.store.books.records[c];
    forall e | e in chain
      ensures e.ctx == c
    {
      ChainOfMember(w.history, c, e);
    }
    RecordTells(chain, c);
    ReachedReports(chain, r);
    ResumesStanding(r);
  }
}
