/** What no step of any run takes back: records only fill in, histories only extend. */
module WorldGrowth {
  import opened Prelude
  import opened Domain
  import opened Lifecycle
  import opened Scopes
  import opened Events
  import opened Evidence
  import opened Bookkeeping
  import opened StoreRuns
  import opened StoreClaims
  import opened Rails

  /** A field once filled in is never changed. */
  predicate WriteOnce<T(==)>(a: Option<T>, b: Option<T>) {
    a.Some? ==> b == a
  }

  /** `r2` is a later reading of the record `r`. */
  predicate Grows(r: Record, r2: Record) {
    && r2.ctx == r.ctx && r2.mandateId == r.mandateId && r2.cartHash == r.cartHash
    && r2.merchant == r.merchant && r2.amount == r.amount
    && WriteOnce(r.rail, r2.rail)
    && WriteOnce(r.paymentReference, r2.paymentReference)
    && WriteOnce(r.idempotencyKey, r2.idempotencyKey)
    && WriteOnce(r.settlementReference, r2.settlementReference)
    && WriteOnce(r.failureReason, r2.failureReason)
    && WriteOnce(r.receiptReference, r2.receiptReference)
    && (IsTerminal(r.state) ==> r2 == r)
    && (r2.state.Authorized? ==> r.state.Authorized?)
  }

  /** The mandate a context was authorized under, over its full history. */
  function MandateOf(w: World, c: ContextId): Option<Mandate> {
    AuthorizedMandate(ChainOf(w.history, c))
  }

  ghost predicate RecordsGrow(a: map<ContextId, Record>, b: map<ContextId, Record>) {
    forall c :: c in a ==> c in b && Grows(a[c], b[c])
  }

  ghost predicate WorldGrows(w: World, w2: World) {
    && RecordsGrow(w.store.books.records, w2.store.books.records)
    && (forall c :: MandateOf(w, c).Some? ==> MandateOf(w2, c) == MandateOf(w, c))
    && w.history <= w2.history
  }

  predicate Named(b: Books) {
    forall c :: c in b.records ==> b.records[c].ctx == c
  }

  /** Everything every reachable world keeps. */
  ghost predicate WorldOk(w: World) {
    ContextsOk(w) && Named(w.store.books) && Spent(w) && Solvent(w.store.books)
  }

  lemma AdvanceGrows(r: Record, body: EventBody)
    requires WellFormed(r) && !body.Authorized?
    requires ResultingState(body).Some? ==> CanTransition(r.state, ResultingState(body).value)
    ensures Grows(r, Advance(r, body))
  {
  }

  lemma AppliedGrows(b: Books, b2: Books, ctx: ContextId, at: Time, body: EventBody)
    requires Applied(b, b2, ctx, at, body)
    requires ctx in b.records ==> WellFormed(b.records[ctx])
    ensures RecordsGrow(b.records, b2.records)
    ensures Named(b) ==> Named(b2)
  {
    hide Refunded, NoncesMove, VelocityMoves, Grows, WellFormed, Advance;
    forall r: Record
      ensures Grows(r, r)
    {
      GrowsReflexive(r);
    }
    if ctx in b.records && !body.Authorized? {
      AdvanceGrows(b.records[ctx], body);
      AdvanceKeepsName(b.records[ctx], body);
    }
  }

  lemma GrowsReflexive(r: Record)
    ensures Grows(r, r)
  {
  }

  lemma AdvanceKeepsName(r: Record, body: EventBody)
    ensures Advance(r, body).ctx == r.ctx
  {
  }

  lemma MandateSnoc(history: seq<Event>, e: Event, c: ContextId)
    ensures var m := AuthorizedMandate(ChainOf(history, c));
            var m2 := AuthorizedMandate(ChainOf(history + [e], c));
            && (m.Some? ==> m2 == m)
            && (m.None? ==> m2 == if e.ctx == c && e.body.Authorized? then Some(e.body.mandate) else None)
  {
    hide AuthorizedMandate, ChainOf;
    ChainOfSnoc(history, e, c);
    AuthorizedMandateSnoc(ChainOf(history, c), e);
  }

  lemma RecordWellFormed(w: World, c: ContextId)
    requires ContextsOk(w) && c in w.store.books.records
    ensures WellFormed(w.store.books.records[c])
    ensures MandateOf(w, c).Some?
  {
    assert ContextOk(w, c);
  }

  lemma StepGrows(w: World, op: Op)
    requires ContextsOk(w)
    ensures WorldGrows(w, Step(w, op))
    ensures Named(w.store.books) ==> Named(Step(w, op).store.books)
  {
    hide Append, Applied, ContextsOk, Spent, Solvent, AuthorizedMandate, ChainOf, WellFormed, Grows, Without;
    forall r: Record
      ensures Grows(r, r)
    {
      GrowsReflexive(r);
    }
    if op.DoAppend? {
      AppendEffect(w.store, op.ctx, op.at, op.body);
      var (s, r) := Append(w.store, op.ctx, op.at, op.body);
      if IsAppended(r) {
        if op.ctx in w.store.books.records {
          RecordWellFormed(w, op.ctx);
        }
        AppliedGrows(w.store.books, s.books, op.ctx, op.at, op.body);
        forall c
          ensures MandateOf(w, c).Some? ==> MandateOf(Step(w, op), c) == MandateOf(w, c)
        {
          MandateSnoc(w.history, r.value.event, c);
        }
      } else {
        assert w.history + [] == w.history;
      }
    }
  }

  lemma WorldStepGrows(w: World, op: Op)
    requires WorldOk(w)
    ensures WorldGrows(w, Step(w, op))
  {
    hide Step, WorldGrows, ContextsOk;
    StepGrows(w, op);
  }

  lemma StepWorldOk(w: World, op: Op)
    requires WorldOk(w) && Chargeable(op)
    ensures WorldOk(Step(w, op))
  {
    hide Step, ContextsOk, Spent, Solvent, Named;
    StepContexts(w, op);
    StepGrows(w, op);
    StepSpends(w, op);
    StepSolvent(w, op);
  }

  lemma GrowsTransitive(a: World, b: World, c: World)
    requires WorldGrows(a, b) && WorldGrows(b, c)
    ensures WorldGrows(a, c)
  {
    hide AuthorizedMandate, ChainOf, IsTerminal;
  }

  lemma {:induction false} RunGrows(w: World, ops: seq<Op>)
    requires ContextsOk(w)
    ensures ContextsOk(Run(w, ops)) && WorldGrows(w, Run(w, ops))
  {
    hide Step, ContextsOk, WorldGrows;
    if ops == [] {
      GrowsToItself(w);
    } else {
      var front := DropLast(ops);
      RunGrows(w, front);
      StepGrows(Run(w, front), Last(ops));
      StepContexts(Run(w, front), Last(ops));
      GrowsTransitive(w, Run(w, front), Run(w, ops));
    }
  }

  lemma GrowsToItself(w: World)
    ensures WorldGrows(w, w)
  {
    hide AuthorizedMandate, ChainOf;
  }

  lemma StartOk()
    ensures WorldOk(START)
  {
    RunContexts([]);
  }

  // ----- tokens -----

  /** Everything `a` reports, `b` reports identically. */
  predicate Confirms(a: Reached, b: Reached) {
    && b.authorized == a.authorized
    && WriteOnce(a.paid, b.paid)
    && WriteOnce(a.settled, b.settled)
    && WriteOnce(a.settlementFailed, b.settlementFailed)
    && WriteOnce(a.compensated, b.compensated)
    && WriteOnce(a.delivered, b.delivered)
    && (a.expired ==> b.expired)
  }

  /** A record the store wrote always yields its tokens: no corruption branch is reachable. */
  lemma TokensAvailable(r: Record)
    requires WellFormed(r)
    ensures ReachedFrom(r).Ok? && ResumedFrom(r).Ok?
    ensures var t := ReachedFrom(r).value;
            && (t.paid.Some? <==> PaidFrom(r).Ok?)
            && (t.settled.Some? <==> SettledFrom(r).Ok?)
            && (t.settlementFailed.Some? <==> FailedFrom(r).Ok?)
            && (t.delivered.Some? <==> DeliveredFrom(r).Ok?)
  {
  }

  /** A record that has grown reports everything it reported before. */
  lemma GrownConfirms(r: Record, r2: Record)
    requires WellFormed(r) && WellFormed(r2) && Grows(r, r2)
    ensures Confirms(ReachedFrom(r).value, ReachedFrom(r2).value)
  {
  }

  /** Tokens are write-once: what `reached` reports of a context, it reports identically
      after any further run. */
  lemma TokensAreForever(w: World, ops: seq<Op>, c: ContextId)
    requires ContextsOk(w) && c in w.store.books.records
    ensures var later := Run(w, ops).store.books.records;
            && c in later
            && ReachedFrom(w.store.books.records[c]).Ok? && ReachedFrom(later[c]).Ok?
            && Confirms(ReachedFrom(w.store.books.records[c]).value, ReachedFrom(later[c]).value)
  {
    hide Run, ReachedFrom, Confirms, Grows, WellFormed, ContextsOk, Spent, Solvent;
    RunGrows(w, ops);
    RecordWellFormed(w, c);
    RecordWellFormed(Run(w, ops), c);
    TokensAvailable(w.store.books.records[c]);
    TokensAvailable(Run(w, ops).store.books.records[c]);
    GrownConfirms(w.store.books.records[c], Run(w, ops).store.books.records[c]);
  }
}
