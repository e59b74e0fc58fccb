/** What every run of the store guarantees: evidence, budgets, nonces, revocation. */
module StoreClaims {
  import opened Prelude
  import opened Domain
  import opened Lifecycle
  import opened Events
  import opened Evidence
  import opened Bookkeeping
  import opened StoreRuns

  // ----- evidence -----

  /** Every chain the store can show verifies, after any appends and prunes. */
  lemma ChainsVerify(ops: seq<Op>, c: ContextId)
    ensures Linked(c, ChainOf(Run(START, ops).store.events, c))
  {
    RunContexts(ops);
    assert ContextOk(Run(START, ops), c);
  }

  /** A context's record is what its own full history adds up to, and that history is
      a prefix of one of the three lives. */
  lemma RecordsAreReplayed(ops: seq<Op>, c: ContextId)
    ensures var w := Run(START, ops);
            var life := States(ChainOf(w.history, c));
            && Get(w.store.books.records, c) == RecordFrom(ChainOf(w.history, c))
            && (life <= DELIVERY || life <= FAILURE || life <= LAPSE)
            && (c in w.store.books.records ==> life != [] && w.store.books.records[c].state == Last(life))
  {
    RunContexts(ops);
    assert ContextOk(Run(START, ops), c);
    PathShapes(States(ChainOf(Run(START, ops).history, c)));
  }

  /** The state a bundle shows is the record's, unless pruning took the finished
      context's state changes; then it shows none, and never a wrong one. */
  lemma EvidenceShowsState(ops: seq<Op>, c: ContextId)
    ensures var w := Run(START, ops);
            var shown := FinalState(ChainOf(w.store.events, c));
            if c !in w.store.books.records then shown == None
            else
              var state := w.store.books.records[c].state;
              shown == Some(state) || (shown == None && IsTerminal(state))
  {
    RunContexts(ops);
    var w := Run(START, ops);
    assert ContextOk(w, c);
    FinalStateIsLast(ChainOf(w.store.events, c));
  }

  /** No stored chain is longer than 32 refusals and 4 state changes. */
  lemma ChainsStayShort(ops: seq<Op>, c: ContextId)
    ensures |ChainOf(Run(START, ops).store.events, c)| <= DENIAL_CAP + 4
  {
    RunContexts(ops);
    var w := Run(START, ops);
    assert ContextOk(w, c);
    ChainParts(ChainOf(w.store.events, c));
    PathShapes(States(ChainOf(w.history, c)));
  }

  // ----- budgets -----

  /** The amounts a mandate's live contexts hold, by context. */
  function LiveAmounts(records: map<ContextId, Record>, m: MandateId): map<ContextId, int> {
    map c | c in records && records[c].mandateId == m && IsLive(records[c].state) :: records[c].amount.amount
  }

  ghost function LiveTotal(records: map<ContextId, Record>, m: MandateId): int {
    Total(LiveAmounts(records, m))
  }

  /** Every record is backed by a reservation in its own currency. */
  predicate Backed(b: Books) {
    forall c :: c in b.records ==>
      && b.records[c].mandateId in b.reserved
      && b.records[c].amount.currency == b.reserved[b.records[c].mandateId].currency
  }

  /** Reservations are exactly the live totals. */
  ghost predicate Conserved(b: Books) {
    && Backed(b)
    && forall m :: m in b.reserved ==> b.reserved[m].amount == LiveTotal(b.records, m)
  }

  predicate NonNegative(b: Books) {
    forall c :: c in b.records ==> b.records[c].amount.amount >= 0
  }

  /** Conserved, with no negative amount on record: then any live amount can be given back. */
  ghost predicate Solvent(b: Books) {
    Conserved(b) && NonNegative(b)
  }

  /** The engine asks for no negative amount (`Scope::admits` refuses them). */
  predicate Chargeable(op: Op) {
    op.DoAppend? && op.body.Authorized? ==> op.body.cart.claims.total.amount >= 0
  }

  lemma LiveInsert(b: Books, ctx: ContextId, r: Record, m: MandateId)
    requires ctx !in b.records && IsLive(r.state)
    ensures LiveTotal(b.records[ctx := r], m) ==
            LiveTotal(b.records, m) + if r.mandateId == m then r.amount.amount else 0
  {
    var before, after := LiveAmounts(b.records, m), LiveAmounts(b.records[ctx := r], m);
    if r.mandateId == m {
      assert after == before[ctx := r.amount.amount];
      TotalInsert(before, ctx, r.amount.amount);
    } else {
      assert after == before;
    }
  }

  lemma LiveChange(b: Books, ctx: ContextId, r: Record, m: MandateId)
    requires ctx in b.records
    requires r.mandateId == b.records[ctx].mandateId && r.amount == b.records[ctx].amount
    requires IsLive(r.state) ==> IsLive(b.records[ctx].state)
    ensures LiveTotal(b.records[ctx := r], m) ==
            LiveTotal(b.records, m)
            - if r.mandateId == m && IsLive(b.records[ctx].state) && !IsLive(r.state) then r.amount.amount else 0
  {
    var before, after := LiveAmounts(b.records, m), LiveAmounts(b.records[ctx := r], m);
    if r.mandateId == m && IsLive(b.records[ctx].state) && !IsLive(r.state) {
      assert after == before - {ctx};
      TotalRemove(before, ctx);
    } else {
      assert after == before;
    }
  }

  /** A live context's amount is covered by its mandate's reservation, so it can be given back. */
  lemma ReleaseCovered(b: Books, ctx: ContextId)
    requires Solvent(b) && ctx in b.records && IsLive(b.records[ctx].state)
    ensures Release(b, b.records[ctx].mandateId, b.records[ctx].amount).Ok?
  {
    var r := b.records[ctx];
    var live := LiveAmounts(b.records, r.mandateId);
    assert ctx in live && live[ctx] == r.amount.amount;
    TotalAtLeast(live, ctx);
  }

  lemma MovesKeepLiveness(from: PaymentState, body: EventBody)
    requires ResultingState(body).Some? && CanTransition(from, ResultingState(body).value)
    ensures Releases(body) <==> IsLive(from) && !IsLive(ResultingState(body).value)
    ensures IsLive(ResultingState(body).value) ==> IsLive(from)
  {
  }

  lemma AppliedConserves(b: Books, b2: Books, ctx: ContextId, at: Time, body: EventBody)
    requires Conserved(b) && Applied(b, b2, ctx, at, body)
    ensures Conserved(b2)
  {
    if body.Authorized? {
      AuthorizedConserves(b, b2, ctx, at, body);
    } else if !body.Denied? {
      MoveConserves(b, b2, ctx, at, body);
    }
  }

  lemma AuthorizedConserves(b: Books, b2: Books, ctx: ContextId, at: Time, body: EventBody)
    requires Conserved(b) && Applied(b, b2, ctx, at, body)
    requires body.Authorized?
    ensures Conserved(b2)
  {
    hide Conserved, VelocityMoves, NoncesMove;
    RecordInsertConserves(b, b2, ctx, NewRecord(ctx, body.mandate, body.cart));
  }

  lemma RecordInsertConserves(b: Books, b2: Books, ctx: ContextId, r: Record)
    requires Conserved(b) && ctx !in b.records && b2.records == b.records[ctx := r]
    requires IsLive(r.state)
    requires var sum := CheckedAdd(ReservedOr(b, r.mandateId, r.amount.currency), r.amount);
             sum.Ok? && b2.reserved == b.reserved[r.mandateId := sum.value]
    ensures Conserved(b2)
  {
    hide IsLive;
    forall m | m in b2.reserved
      ensures b2.reserved[m].amount == LiveTotal(b2.records, m)
    {
      LiveInsert(b, ctx, r, m);
      if m !in b.reserved {
        assert LiveAmounts(b.records, m) == map[];
      }
    }
  }

  lemma MoveConserves(b: Books, b2: Books, ctx: ContextId, at: Time, body: EventBody)
    requires Conserved(b) && Applied(b, b2, ctx, at, body)
    requires !body.Authorized? && !body.Denied?
    ensures Conserved(b2)
  {
    MovesKeepLiveness(b.records[ctx].state, body);
    var r := Advance(b.records[ctx], body);
    assert r.state == ResultingState(body).value;
    RecordMoveConserves(b, b2, ctx, r, Releases(body));
  }

  lemma RecordMoveConserves(b: Books, b2: Books, ctx: ContextId, r: Record, releases: bool)
    requires Conserved(b) && ctx in b.records && b2.records == b.records[ctx := r]
    requires r.mandateId == b.records[ctx].mandateId && r.amount == b.records[ctx].amount
    requires IsLive(r.state) ==> IsLive(b.records[ctx].state)
    requires releases <==> IsLive(b.records[ctx].state) && !IsLive(r.state)
    requires if releases then Release(b, r.mandateId, r.amount).Ok?
                              && b2.reserved == b.reserved[r.mandateId := Release(b, r.mandateId, r.amount).value]
             else b2.reserved == b.reserved
    ensures Conserved(b2)
  {
    forall m | m in b2.reserved
      ensures b2.reserved[m].amount == LiveTotal(b2.records, m)
    {
      LiveChange(b, ctx, r, m);
    }
  }

  lemma StepConserves(w: World, op: Op)
    requires Conserved(w.store.books)
    ensures Conserved(Step(w, op).store.books)
  {
    hide Append, Applied, Conserved;
    if op.DoAppend? {
      AppendEffect(w.store, op.ctx, op.at, op.body);
      var (s, r) := Append(w.store, op.ctx, op.at, op.body);
      if IsAppended(r) {
        AppliedConserves(w.store.books, s.books, op.ctx, op.at, op.body);
      }
    } else {
      TablesConserve(w.store.books, Step(w, op).store.books);
    }
  }

  lemma TablesConserve(b: Books, b2: Books)
    requires Conserved(b) && b2.records == b.records && b2.reserved == b.reserved
    ensures Conserved(b2)
  {
  }

  /** Budget conservation: in every run, what is reserved against a mandate is exactly the
      sum over its contexts that have not failed, been compensated, or expired. */
  lemma {:induction false} ReservationsConserved(ops: seq<Op>)
    ensures Conserved(Run(START, ops).store.books)
  {
    hide Step, Conserved;
    if ops == [] {
      NothingToConserve();
    } else {
      ReservationsConserved(DropLast(ops));
      StepConserves(Run(START, DropLast(ops)), Last(ops));
    }
  }

  lemma NothingToConserve()
    ensures Solvent(EMPTY.books)
  {
  }

  lemma AppliedNonNegative(b: Books, b2: Books, ctx: ContextId, at: Time, body: EventBody)
    requires NonNegative(b) && Applied(b, b2, ctx, at, body)
    requires body.Authorized? ==> body.cart.claims.total.amount >= 0
    ensures NonNegative(b2)
  {
    hide Refunded, VelocityMoves, NoncesMove;
  }

  lemma AppliedSolvent(b: Books, b2: Books, ctx: ContextId, at: Time, body: EventBody)
    requires Solvent(b) && Applied(b, b2, ctx, at, body)
    requires body.Authorized? ==> body.cart.claims.total.amount >= 0
    ensures Solvent(b2)
  {
    hide Applied, Conserved, NonNegative;
    AppliedConserves(b, b2, ctx, at, body);
    AppliedNonNegative(b, b2, ctx, at, body);
  }

  lemma StepSolvent(w: World, op: Op)
    requires Solvent(w.store.books) && Chargeable(op)
    ensures Solvent(Step(w, op).store.books)
  {
    hide Append, Applied, Conserved;
    StepConserves(w, op);
    if op.DoAppend? {
      AppendEffect(w.store, op.ctx, op.at, op.body);
      var (s, r) := Append(w.store, op.ctx, op.at, op.body);
      if IsAppended(r) {
        AppliedNonNegative(w.store.books, s.books, op.ctx, op.at, op.body);
      }
    }
  }

  lemma {:induction false} RunSolvent(ops: seq<Op>)
    requires forall i :: 0 <= i < |ops| ==> Chargeable(ops[i])
    ensures Solvent(Run(START, ops).store.books)
  {
    hide Step, Solvent, Chargeable;
    if ops == [] {
      NothingToConserve();
    } else {
      RunSolvent(DropLast(ops));
      StepSolvent(Run(START, DropLast(ops)), Last(ops));
    }
  }

  lemma CorruptOnlyByRelease(s: Store, ctx: ContextId, at: Time, body: EventBody)
    requires var r := Append(s, ctx, at, body).1; r.Err? && r.error.Corrupt?
    ensures ctx in s.books.records && IsLive(s.books.records[ctx].state)
    ensures Release(s.books, s.books.records[ctx].mandateId, s.books.records[ctx].amount).Err?
  {
  }

  /** Hence no append is ever answered with a corruption error: the reservation to give
      back is always there, and giving it back never goes negative. */
  lemma AppendNeverCorrupt(ops: seq<Op>, ctx: ContextId, at: Time, body: EventBody)
    requires forall i :: 0 <= i < |ops| ==> Chargeable(ops[i])
    ensures var r := Append(Run(START, ops).store, ctx, at, body).1; r.Err? ==> !r.error.Corrupt?
  {
    RunSolvent(ops);
    var s := Run(START, ops).store;
    var r := Append(s, ctx, at, body).1;
    if r.Err? && r.error.Corrupt? {
      CorruptOnlyByRelease(s, ctx, at, body);
      ReleaseCovered(s.books, ctx);
    }
  }

  /** Every authorization under `m` in these operations carries this cap. */
  predicate CarriesCap(op: Op, m: MandateId, cap: Money) {
    op.DoAppend? && op.body.Authorized? && op.body.mandate.body.id == m ==>
      op.body.mandate.body.scope.maxTotal == Some(cap)
  }

  predicate WithinCap(b: Books, m: MandateId, cap: Money) {
    m in b.reserved ==> b.reserved[m].currency == cap.currency && b.reserved[m].amount <= cap.amount
  }

  lemma AppliedWithinCap(b: Books, b2: Books, ctx: ContextId, at: Time, body: EventBody, m: MandateId, cap: Money)
    requires WithinCap(b, m, cap) && Applied(b, b2, ctx, at, body)
    requires body.Authorized? && body.mandate.body.id == m ==> body.mandate.body.scope.maxTotal == Some(cap)
    requires ctx in b.records ==> b.records[ctx].amount.amount >= 0
    ensures WithinCap(b2, m, cap)
  {
  }

  /** A shared cap is never exceeded. */
  lemma {:induction false} CapHolds(ops: seq<Op>, m: MandateId, cap: Money)
    requires forall i :: 0 <= i < |ops| ==> Chargeable(ops[i]) && CarriesCap(ops[i], m, cap)
    ensures WithinCap(Run(START, ops).store.books, m, cap)
  {
    hide Append, Applied;
    if ops != [] {
      CapHolds(DropLast(ops), m, cap);
      RunSolvent(DropLast(ops));
      var w, op := Run(START, DropLast(ops)), Last(ops);
      if op.DoAppend? {
        AppendEffect(w.store, op.ctx, op.at, op.body);
        var (s, r) := Append(w.store, op.ctx, op.at, op.body);
        if IsAppended(r) {
          AppliedWithinCap(w.store.books, s.books, op.ctx, op.at, op.body, m, cap);
        }
      }
    }
  }

  // ----- nonces and single authorization -----

  /** The parts of a record fixed at authorization. */
  predicate SamePurchase(r: Record, r2: Record) {
    && r2.ctx == r.ctx && r2.mandateId == r.mandateId && r2.cartHash == r.cartHash
    && r2.merchant == r.merchant && r2.amount == r.amount
  }

  /** The parts of a record fixed at payment. */
  predicate SameRail(r: Record, r2: Record) {
    r2.rail == r.rail && r2.paymentReference == r.paymentReference
  }

  /** Each authorized context keeps the record it was authorized with. */
  ghost predicate AuthorizationsKept(h: seq<Event>, b: Books) {
    forall i :: 0 <= i < |h| && h[i].body.Authorized? ==>
      h[i].ctx in b.records && SamePurchase(NewRecord(h[i].ctx, h[i].body.mandate, h[i].body.cart), b.records[h[i].ctx])
  }

  /** Each payment owns its nonce for good, and its context is past paying. */
  ghost predicate PaymentsKept(h: seq<Event>, b: Books) {
    forall i :: 0 <= i < |h| && h[i].body.Paid? ==>
      && PaidKey(h[i].body) in b.nonces
      && b.nonces[PaidKey(h[i].body)] == h[i].ctx
      && h[i].ctx in b.records
      && !b.records[h[i].ctx].state.Authorized?
      && b.records[h[i].ctx].rail == Some(h[i].body.rail)
      && b.records[h[i].ctx].paymentReference == Some(h[i].body.reference)
  }

  ghost predicate PaymentsDistinct(h: seq<Event>) {
    forall i, j :: 0 <= i < j < |h| ==> !SamePayment(h[i], h[j])
  }

  ghost predicate AuthorizationsDistinct(h: seq<Event>) {
    forall i, j :: 0 <= i < j < |h| ==> !SameAuthorization(h[i], h[j])
  }

  ghost predicate Spent(w: World) {
    && AuthorizationsKept(w.history, w.store.books)
    && PaymentsKept(w.history, w.store.books)
    && PaymentsDistinct(w.history)
    && AuthorizationsDistinct(w.history)
  }

  function PaidKey(body: EventBody): (string, string)
    requires body.Paid?
  {
    (body.rail, body.nonce)
  }

  predicate SamePayment(a: Event, b: Event) {
    a.body.Paid? && b.body.Paid? && PaidKey(a.body) == PaidKey(b.body)
  }

  predicate SameAuthorization(a: Event, b: Event) {
    a.body.Authorized? && b.body.Authorized? && a.ctx == b.ctx
  }

  /** Records are never dropped, and never return to `Authorized`. */
  lemma RecordsOnlyAdvance(b: Books, b2: Books, ctx: ContextId, body: EventBody, c: ContextId)
    requires Recorded(b, b2, ctx, body) && c in b.records
    ensures c in b2.records && (b2.records[c].state.Authorized? ==> b.records[c].state.Authorized?)
    ensures SamePurchase(b.records[c], b2.records[c])
    ensures !b.records[c].state.Authorized? ==> SameRail(b.records[c], b2.records[c])
  {
    hide NoncesMove;
  }

  lemma PaidStep(b: Books, b2: Books, e: Event)
    requires Recorded(b, b2, e.ctx, e.body) && e.body.Paid?
    ensures e.ctx in b.records && b.records[e.ctx].state.Authorized?
    ensures e.ctx in b2.records && b2.records[e.ctx].state.Paid?
    ensures b2.records[e.ctx].rail == Some(e.body.rail) && b2.records[e.ctx].paymentReference == Some(e.body.reference)
    ensures b2.nonces == b.nonces[PaidKey(e.body) := e.ctx]
    ensures PaidKey(e.body) in b.nonces ==> b.nonces[PaidKey(e.body)] == e.ctx
  {
  }

  lemma AuthorizedStep(b: Books, b2: Books, e: Event)
    requires Recorded(b, b2, e.ctx, e.body)
    ensures e.body.Authorized? ==>
              && e.ctx !in b.records && e.ctx in b2.records
              && SamePurchase(NewRecord(e.ctx, e.body.mandate, e.body.cart), b2.records[e.ctx])
    ensures !e.body.Paid? ==> b2.nonces == b.nonces
  {
  }

  lemma RecordedSpends(h: seq<Event>, b: Books, b2: Books, e: Event)
    requires AuthorizationsKept(h, b) && PaymentsKept(h, b) && PaymentsDistinct(h) && AuthorizationsDistinct(h)
    requires Recorded(b, b2, e.ctx, e.body)
    ensures AuthorizationsKept(h + [e], b2) && PaymentsKept(h + [e], b2)
    ensures PaymentsDistinct(h + [e]) && AuthorizationsDistinct(h + [e])
  {
    hide Recorded;
    forall c | c in b.records
      ensures c in b2.records && (b2.records[c].state.Authorized? ==> b.records[c].state.Authorized?)
      ensures SamePurchase(b.records[c], b2.records[c])
      ensures !b.records[c].state.Authorized? ==> SameRail(b.records[c], b2.records[c])
    {
      RecordsOnlyAdvance(b, b2, e.ctx, e.body, c);
    }
    AuthorizedStep(b, b2, e);
    if e.body.Paid? {
      PaidStep(b, b2, e);
    }
  }

  lemma StepSpends(w: World, op: Op)
    requires Spent(w)
    ensures Spent(Step(w, op))
  {
    hide Append, Recorded, Refunded, VelocityMoves, PaymentsDistinct, AuthorizationsDistinct;
    if op.DoAppend? {
      AppendEffect(w.store, op.ctx, op.at, op.body);
      var (s, r) := Append(w.store, op.ctx, op.at, op.body);
      if IsAppended(r) {
        RecordedSpends(w.history, w.store.books, s.books, r.value.event);
      } else {
        assert w.history + [] == w.history;
      }
    }
  }

  /** Over the whole history of any run, prunes included, no two payments share a rail's
      nonce, and no context is authorized twice. */
  lemma {:induction false} NothingSpentTwice(ops: seq<Op>)
    ensures Spent(Run(START, ops))
  {
    if ops != [] {
      NothingSpentTwice(DropLast(ops));
      StepSpends(Run(START, DropLast(ops)), Last(ops));
    }
  }

  /** The nonces a history spends, each with the context that spent it. */
  function NoncesFrom(h: seq<Event>): map<(string, string), ContextId> {
    if h == [] then map[]
    else if Last(h).body.Paid? then NoncesFrom(DropLast(h))[PaidKey(Last(h).body) := Last(h).ctx]
    else NoncesFrom(DropLast(h))
  }

  lemma {:induction false} NonceHasPayment(h: seq<Event>, key: (string, string)) returns (i: nat)
    requires key in NoncesFrom(h)
    ensures i < |h| && h[i].body.Paid? && PaidKey(h[i].body) == key && h[i].ctx == NoncesFrom(h)[key]
  {
    if Last(h).body.Paid? && PaidKey(Last(h).body) == key {
      i := |h| - 1;
    } else {
      i := NonceHasPayment(DropLast(h), key);
    }
  }

  lemma StepNonces(w: World, op: Op)
    requires w.store.books.nonces == NoncesFrom(w.history)
    ensures Step(w, op).store.books.nonces == NoncesFrom(Step(w, op).history)
  {
    hide Append, RecordsAfter, LegalStep, Refunded, VelocityMoves, NoncesFrom;
    if op.DoAppend? {
      AppendEffect(w.store, op.ctx, op.at, op.body);
      var (s, r) := Append(w.store, op.ctx, op.at, op.body);
      if IsAppended(r) {
        NoncesSnoc(w.history, r.value.event);
      } else {
        assert w.history + [] == w.history;
      }
    }
  }

  lemma NoncesSnoc(h: seq<Event>, e: Event)
    ensures NoncesFrom(h + [e]) ==
            if e.body.Paid? then NoncesFrom(h)[PaidKey(e.body) := e.ctx] else NoncesFrom(h)
  {
    SnocParts(h, e);
  }

  /** The nonces on the books are those the whole history spent, after any run. */
  lemma {:induction false} NoncesAreReplayed(ops: seq<Op>)
    ensures Run(START, ops).store.books.nonces == NoncesFrom(Run(START, ops).history)
  {
    hide Step, NoncesFrom;
    if ops == [] {
      assert NoncesFrom([]) == map[] by { NoNonces(); }
    } else {
      NoncesAreReplayed(DropLast(ops));
      StepNonces(Run(START, DropLast(ops)), Last(ops));
    }
  }

  lemma NoNonces()
    ensures NoncesFrom([]) == map[]
  {
  }

  // ----- revocation -----

  /** When the authorizations under a mandate were recorded, in order. */
  function TimesUnder(history: seq<Event>, m: MandateId): seq<Time> {
    if history == [] then []
    else if Under(Last(history), m) then TimesUnder(DropLast(history), m) + [Last(history).at]
    else TimesUnder(DropLast(history), m)
  }

  predicate Under(e: Event, m: MandateId) {
    e.body.Authorized? && e.body.mandate.body.id == m
  }

  lemma TimesUnderSnoc(history: seq<Event>, e: Event, m: MandateId)
    ensures TimesUnder(history + [e], m) ==
            if Under(e, m) then TimesUnder(history, m) + [e.at] else TimesUnder(history, m)
  {
    SnocParts(history, e);
  }

  /** Once a mandate is revoked, no run from there adds an authorization under it. */
  lemma {:induction false} RevokedForGood(w: World, ops: seq<Op>, m: MandateId)
    requires m in w.store.books.revoked
    ensures m in Run(w, ops).store.books.revoked
    ensures TimesUnder(Run(w, ops).history, m) == TimesUnder(w.history, m)
  {
    if ops != [] {
      RevokedForGood(w, DropLast(ops), m);
      var v, op := Run(w, DropLast(ops)), Last(ops);
      if op.DoAppend? {
        AppendEffect(v.store, op.ctx, op.at, op.body);
        var (s, r) := Append(v.store, op.ctx, op.at, op.body);
        if IsAppended(r) {
          TimesUnderSnoc(v.history, r.value.event, m);
        } else {
          assert v.history + [] == v.history;
        }
      }
    }
  }
}
