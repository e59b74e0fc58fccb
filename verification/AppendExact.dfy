/** Exactly how the in-memory store answers an append: first from its books, then, over any
    run, from what has happened so far. */
module AppendExact {
  import opened Prelude
  import opened Domain
  import opened Lifecycle
  import opened Scopes
  import opened Events
  import opened Evidence
  import opened Bookkeeping
  import opened StoreRuns
  import opened StoreClaims
  import opened VelocityRuns
  import opened PruneRuns

  // ----- from the books -----

  /** What the books hold against a mandate. */
  function Held(b: Books, id: MandateId): int {
    if id in b.reserved then b.reserved[id].amount else 0
  }

  /** The books cannot add the cart's total to what they hold: another currency, or too much. */
  predicate Unaddable(b: Books, mandate: Mandate, cart: Cart) {
    var id, total := mandate.body.id, cart.claims.total;
    || (id in b.reserved && b.reserved[id].currency != total.currency)
    || Held(b, id) + total.amount > DECIMAL_MAX || Held(b, id) + total.amount < -DECIMAL_MAX
  }

  /** Or cannot compare the sum with the mandate's cap. */
  predicate Incomparable(b: Books, mandate: Mandate, cart: Cart) {
    var id, total, cap := mandate.body.id, cart.claims.total, mandate.body.scope.maxTotal;
    && cap.Some?
    && (|| cap.value.currency != total.currency
        || (Held(b, id) + total.amount > cap.value.amount && cap.value.amount - Held(b, id) < -DECIMAL_MAX))
  }

  predicate OverCap(b: Books, mandate: Mandate, cart: Cart) {
    var cap := mandate.body.scope.maxTotal;
    cap.Some? && Held(b, mandate.body.id) + cart.claims.total.amount > cap.value.amount
  }

  /** How many authorizations the books count in the mandate's window at `at`. */
  function RateCount(b: Books, mandate: Mandate, at: Time): nat {
    var v := mandate.body.scope.velocity;
    if v.Some? then CountSince(TimesOf(b, mandate.body.id), SatSub(at, v.value.windowSecs)) else 0
  }

  /** The mandate's window is full at `at`. */
  predicate RateFull(b: Books, mandate: Mandate, at: Time) {
    var v := mandate.body.scope.velocity;
    v.Some? && RateCount(b, mandate, at) >= v.value.maxCount
  }

  predicate Taken(b: Books, ctx: ContextId, key: (string, string)) {
    key in b.nonces && b.nonces[key] != ctx
  }

  /** Nothing in the books is against it. */
  predicate Clear(s: Store, ctx: ContextId, at: Time, body: EventBody) {
    var b := s.books;
    && LegalStep(b, ctx, body)
    && match body
       case Authorized(mandate, cart, _) =>
         && mandate.body.id !in b.revoked && !RateFull(b, mandate, at)
         && !Unaddable(b, mandate, cart) && !Incomparable(b, mandate, cart) && !OverCap(b, mandate, cart)
       case Paid(rail, _, nonce, _, _) => !Taken(b, ctx, (rail, nonce))
       case Denied(_, _) => Denials(ChainOf(s.events, ctx)) < 32
       case _ => true
  }

  /** `n` is `count`, or the largest 32-bit number if that is smaller. */
  predicate ClippedTo32(count: nat, n: int) {
    if count <= 4294967295 then n == count else n == 4294967295
  }

  lemma VelocityExactly(b: Books, mandate: Mandate, at: Time)
    ensures var fast := VelocityRefusal(b, mandate.body.id, mandate.body.scope.velocity, at);
            && (fast.Some? <==> RateFull(b, mandate, at))
            && (fast.Some? ==>
                  fast.value.VelocityExceeded? && ClippedTo32(RateCount(b, mandate, at), fast.value.count))
  {
  }

  lemma BudgetExactly(b: Books, ctx: ContextId, mandate: Mandate, cart: Cart)
    requires Held(b, mandate.body.id) >= 0
    ensures var d := DecideBudget(b, ctx, mandate, cart);
            && (d.Err? <==> Unaddable(b, mandate, cart) || Incomparable(b, mandate, cart))
            && (d.Err? ==> d.error.BadMoney?)
            && (d.Ok? ==> (d.value.Refuse? <==> OverCap(b, mandate, cart)))
            && (d.Ok? && d.value.Refuse? ==>
                  d.value.outcome == BudgetExceeded(Money(mandate.body.scope.maxTotal.value.amount
                                                            - Held(b, mandate.body.id), cart.claims.total.currency)))
  {
  }

  /** What each kind of answer means, given the books. */
  predicate Means(s: Store, ctx: ContextId, at: Time, body: EventBody, r: Result<AppendOutcome, StoreError>) {
    var b, legal := s.books, LegalStep(s.books, ctx, body);
    match r
    case Ok(Appended(_)) => Clear(s, ctx, at, body)
    case Ok(MandateRevoked) => legal && body.Authorized? && body.mandate.body.id in b.revoked
    case Ok(VelocityExceeded(n)) =>
      && legal && body.Authorized? && body.mandate.body.id !in b.revoked && RateFull(b, body.mandate, at)
      && ClippedTo32(RateCount(b, body.mandate, at), n)
    case Ok(BudgetExceeded(left)) =>
      && legal && body.Authorized? && body.mandate.body.id !in b.revoked && !RateFull(b, body.mandate, at)
      && !Unaddable(b, body.mandate, body.cart) && !Incomparable(b, body.mandate, body.cart)
      && OverCap(b, body.mandate, body.cart)
      && left.currency == body.cart.claims.total.currency
      && left.amount == body.mandate.body.scope.maxTotal.value.amount - Held(b, body.mandate.body.id)
    case Ok(NonceAlreadyUsed) => legal && body.Paid? && Taken(b, ctx, (body.rail, body.nonce))
    case Ok(DenialsCapped) => body.Denied? && Denials(ChainOf(s.events, ctx)) >= 32
    case Err(IllegalTransition(c, from, to)) =>
      && !legal && c == ctx && ResultingState(body) == Some(to)
      && from == (if ctx in b.records then Some(b.records[ctx].state) else None)
    case Err(BadMoney(_)) =>
      && legal && body.Authorized? && body.mandate.body.id !in b.revoked && !RateFull(b, body.mandate, at)
      && (Unaddable(b, body.mandate, body.cart) || Incomparable(b, body.mandate, body.cart))
    case Err(_) => false
  }

  lemma HeldNonNegative(b: Books, id: MandateId)
    requires Solvent(b)
    ensures Held(b, id) >= 0
  {
    if id in b.reserved {
      TotalNonNegative(LiveAmounts(b.records, id));
    }
  }

  lemma AuthorizedAnswered(s: Store, ctx: ContextId, at: Time, body: EventBody)
    requires Solvent(s.books) && body.Authorized?
    ensures Means(s, ctx, at, body, Append(s, ctx, at, body).1)
  {
    hide Solvent, VelocityRefusal, DecideBudget, RateFull, Unaddable, Incomparable, OverCap, ChainOf, Commit, Applied;
    HeldNonNegative(s.books, body.mandate.body.id);
    VelocityExactly(s.books, body.mandate, at);
    BudgetExactly(s.books, ctx, body.mandate, body.cart);
    var d := DecideAuthorized(s.books, ctx, at, body.mandate, body.cart);
    if d.Ok? && d.value.Proceed? {
      AuthorizedApplies(s.books, ctx, at, body);
    }
  }

  lemma ReleaseSettled(b: Books, ctx: ContextId, body: EventBody)
    requires Solvent(b) && Releases(body) && LegalStep(b, ctx, body)
    ensures ctx in b.records && Release(b, b.records[ctx].mandateId, b.records[ctx].amount).Ok?
  {
    hide Solvent;
    if ctx in b.records {
      ReleaseCovered(b, ctx);
    }
  }

  lemma MoveAnswered(s: Store, ctx: ContextId, at: Time, body: EventBody)
    requires Solvent(s.books) && !body.Authorized?
    ensures Means(s, ctx, at, body, Append(s, ctx, at, body).1)
  {
    hide Solvent, Release, ChainOf, Denials, AdvanceRecords;
    if Releases(body) && LegalStep(s.books, ctx, body) {
      ReleaseSettled(s.books, ctx, body);
    }
  }

  /** The books decide: every answer has its own meaning, and these exclude each other, so an
      append is answered so if and only if that is how the books stand. */
  lemma BooksDecide(s: Store, ctx: ContextId, at: Time, body: EventBody)
    requires Solvent(s.books)
    ensures Means(s, ctx, at, body, Append(s, ctx, at, body).1)
    ensures IsAppended(Append(s, ctx, at, body).1) <==> Clear(s, ctx, at, body)
  {
    hide Solvent, Append, Means;
    if body.Authorized? {
      AuthorizedAnswered(s, ctx, at, body);
    } else {
      MoveAnswered(s, ctx, at, body);
    }
    OneMeaning(s, ctx, at, body, Append(s, ctx, at, body).1);
  }

  lemma OneMeaning(s: Store, ctx: ContextId, at: Time, body: EventBody, r: Result<AppendOutcome, StoreError>)
    requires Means(s, ctx, at, body, r)
    ensures IsAppended(r) <==> Clear(s, ctx, at, body)
  {
    hide RateFull, Unaddable, Incomparable, OverCap, ChainOf, Denials;
  }

  // ----- from what has happened -----

  /** The step keeps the context on one of the three lives. */
  predicate Lawful(h: seq<Event>, ctx: ContextId, body: EventBody) {
    ResultingState(body).Some? ==>
      var life := States(ChainOf(h, ctx)) + [ResultingState(body).value];
      life <= DELIVERY || life <= FAILURE || life <= LAPSE
  }

  lemma LawfulExactly(w: World, ctx: ContextId, body: EventBody)
    requires ContextsOk(w)
    ensures LegalStep(w.store.books, ctx, body) <==> Lawful(w.history, ctx, body)
  {
    hide RecordFrom, States, ChainOf, Linked, Kept, WellFormed;
    assert ContextOk(w, ctx);
    var life := States(ChainOf(w.history, ctx));
    if ResultingState(body).Some? {
      var next := ResultingState(body).value;
      PathShapes(life + [next]);
      PathExtends(life, next);
    }
  }

  lemma PathExtends(life: seq<PaymentState>, next: PaymentState)
    requires Path(life)
    ensures Path(life + [next]) <==> if life == [] then next.Authorized? else CanTransition(Last(life), next)
  {
    var all := life + [next];
    if Path(all) && life != [] {
      assert CanTransition(all[|life| - 1], all[|life|]);
    }
    if Path(all) && life == [] {
      assert all[0] == next;
    }
  }

  /** The authorizations of a history under a mandate, dated `since` or later. */
  ghost function Recent(h: seq<Event>, m: MandateId, since: Time): set<nat> {
    set i: nat | i < |h| && IsRecent(h[i], m, since)
  }

  predicate IsRecent(e: Event, m: MandateId, since: Time) {
    Under(e, m) && e.at >= since
  }

  lemma RecentSnoc(front: seq<Event>, e: Event, m: MandateId, since: Time)
    ensures |Recent(front + [e], m, since)|
              == |Recent(front, m, since)| + if IsRecent(e, m, since) then 1 else 0
  {
    hide IsRecent;
    var h, n := front + [e], |front|;
    var all, some := Recent(h, m, since), Recent(front, m, since);
    var last := if IsRecent(e, m, since) then {n} else {};
    forall i: nat
      ensures i in all <==> i in some + last
    {
      if i < n {
        assert h[i] == front[i];
      } else if i == n {
        assert h[i] == e;
      }
    }
    assert all == some + last && some !! last;
  }

  lemma {:induction false} RecentCounted(h: seq<Event>, m: MandateId, since: Time)
    ensures |Recent(h, m, since)| == CountSince(TimesUnder(h, m), since)
  {
    hide Under, TimesUnder, CountSince;
    if h == [] {
      assert Recent(h, m, since) == {};
      NothingUnder(m, since);
    } else {
      var front, e := DropLast(h), Last(h);
      assert h == front + [e];
      RecentCounted(front, m, since);
      RecentSnoc(front, e, m, since);
      TimesUnderSnoc(front, e, m);
      CountSinceSnoc(TimesUnder(front, m), e.at, since);
    }
  }

  lemma NothingUnder(m: MandateId, since: Time)
    ensures CountSince(TimesUnder([], m), since) == 0
  {
  }

  /** How many authorizations are dated within the mandate's window before `at`. */
  ghost function RateUsed(h: seq<Event>, mandate: Mandate, at: Time): nat {
    var v := mandate.body.scope.velocity;
    if v.Some? then |Recent(h, mandate.body.id, SatSub(at, v.value.windowSecs))| else 0
  }

  /** As many as the velocity allows. */
  ghost predicate RateSpent(h: seq<Event>, mandate: Mandate, at: Time) {
    var v := mandate.body.scope.velocity;
    v.Some? && RateUsed(h, mandate, at) >= v.value.maxCount
  }

  /** The store still counts what the history counts, from the floor on. */
  ghost predicate StillCounts(w: World, m: MandateId, floor: Time) {
    forall since: Time :: since >= floor ==>
      CountSince(TimesOf(w.store.books, m), since) == CountSince(TimesUnder(w.history, m), since)
  }

  lemma AppendStillCounts(w: World, ctx: ContextId, at: Time, body: EventBody, m: MandateId, floor: Time)
    requires StillCounts(w, m, floor)
    ensures StillCounts(AppendWorld(w, ctx, at, body), m, floor)
  {
    hide Append, CountSince, TimesUnder, Recorded, Refunded, VelocityRefusal;
    AppendEffect(w.store, ctx, at, body);
    var (s, r) := Append(w.store, ctx, at, body);
    if IsAppended(r) {
      var e := r.value.event;
      TimesUnderSnoc(w.history, e, m);
      if Under(e, m) {
        forall since: Time | since >= floor
          ensures CountSince(TimesOf(s.books, m), since) == CountSince(TimesUnder(w.history + [e], m), since)
        {
          CountSinceSnoc(TimesOf(w.store.books, m), e.at, since);
          CountSinceSnoc(TimesUnder(w.history, m), e.at, since);
        }
      }
    } else {
      assert w.history + [] == w.history;
    }
  }

  lemma PruneStillCounts(w: World, before: Time, m: MandateId, floor: Time)
    requires StillCounts(w, m, floor)
    ensures var b := w.store.books;
            StillCounts(Step(w, DoPrune(before)), m,
                        if Forgets(b, m, before) then Max(floor, Cutoff(b.windows, m, before)) else floor)
  {
    hide CountSince, TimesUnder, KeepSince, Without, Gone;
    var b := w.store.books;
    var cutoff := Cutoff(b.windows, m, before);
    NoneKept(cutoff);
    assert TimesOf(Step(w, DoPrune(before)).store.books, m) == KeepSince(TimesOf(b, m), cutoff);
    forall since: Time
      ensures CountSince(KeepSince(TimesOf(b, m), cutoff), since) == CountSince(TimesOf(b, m), Max(since, cutoff))
    {
      KeepCounts(TimesOf(b, m), cutoff, since);
    }
  }

  lemma {:induction false} RunStillCounts(ops: seq<Op>, m: MandateId)
    ensures StillCounts(Run(START, ops), m, Floor(ops, m))
  {
    hide StillCounts, Append, Prune, Forgets, Cutoff;
    if ops == [] {
      NothingCounted(m);
    } else {
      var front, op := DropLast(ops), Last(ops);
      var w := Run(START, front);
      RunStillCounts(front, m);
      match op
      case DoAppend(ctx, at, body) => AppendStillCounts(w, ctx, at, body, m, Floor(front, m));
      case DoPrune(before) => PruneStillCounts(w, before, m, Floor(front, m));
      case DoRevoke(gone) => RevokeStillCounts(w, gone, m, Floor(front, m));
    }
  }

  lemma NothingCounted(m: MandateId)
    ensures StillCounts(START, m, I64_MIN)
  {
  }

  lemma RevokeStillCounts(w: World, gone: MandateId, m: MandateId, floor: Time)
    requires StillCounts(w, m, floor)
    ensures StillCounts(Step(w, DoRevoke(gone)), m, floor)
  {
    hide CountSince;
  }

  /** A mandate is revoked exactly when some operation revoked it. */
  lemma {:induction false} RevokedExactly(ops: seq<Op>, m: MandateId)
    ensures m in Run(START, ops).store.books.revoked <==> DoRevoke(m) in ops
  {
    hide Append, Applied, PruneTimes, Without;
    if ops != [] {
      var front, op := DropLast(ops), Last(ops);
      RevokedExactly(front, m);
      assert ops == front + [op];
      if op.DoAppend? {
        hide Recorded, Refunded, VelocityMoves;
        AppendKeepsRevoked(Run(START, front).store, op.ctx, op.at, op.body);
      }
    }
  }

  lemma AppendKeepsRevoked(s: Store, ctx: ContextId, at: Time, body: EventBody)
    ensures Append(s, ctx, at, body).0.books.revoked == s.books.revoked
  {
    hide Append, Recorded, Refunded, VelocityMoves;
    AppendEffect(s, ctx, at, body);
  }

  /** The payment's nonce was spent on the same rail for another context. */
  ghost predicate SpentBefore(h: seq<Event>, ctx: ContextId, rail: string, nonce: string) {
    exists i :: 0 <= i < |h| && h[i].body.Paid? && h[i].body.rail == rail && h[i].body.nonce == nonce && h[i].ctx != ctx
  }

  lemma TakenExactly(ops: seq<Op>, ctx: ContextId, rail: string, nonce: string)
    ensures var w := Run(START, ops);
            Taken(w.store.books, ctx, (rail, nonce)) <==> SpentBefore(w.history, ctx, rail, nonce)
  {
    hide Run, NoncesFrom, AuthorizationsKept, PaymentsDistinct, AuthorizationsDistinct;
    NoncesAreReplayed(ops);
    NothingSpentTwice(ops);
    var w := Run(START, ops);
    if Taken(w.store.books, ctx, (rail, nonce)) {
      var i := NonceHasPayment(w.history, (rail, nonce));
    }
  }

  /** Some authorization under the mandate was in another currency. */
  ghost predicate OtherCurrency(h: seq<Event>, m: MandateId, currency: Currency) {
    exists i :: 0 <= i < |h| && Under(h[i], m) && h[i].body.cart.claims.total.currency != currency
  }

  ghost predicate CurrencyKept(w: World, m: MandateId) {
    && (m in w.store.books.reserved <==> exists i :: 0 <= i < |w.history| && Under(w.history[i], m))
    && (forall i :: 0 <= i < |w.history| && Under(w.history[i], m) ==>
          && m in w.store.books.reserved
          && w.store.books.reserved[m].currency == w.history[i].body.cart.claims.total.currency)
  }

  lemma AppliedKeepsCurrency(w: World, b2: Books, e: Event, m: MandateId)
    requires CurrencyKept(w, m) && Applied(w.store.books, b2, e.ctx, e.at, e.body) && Backed(w.store.books)
    ensures CurrencyKept(World(w.store.(books := b2), w.history + [e]), m)
  {
    hide Recorded, VelocityMoves;
    var h := w.history + [e];
    assert forall i :: 0 <= i < |w.history| ==> h[i] == w.history[i];
    if m in w.store.books.reserved {
      var i :| 0 <= i < |w.history| && Under(w.history[i], m);
      assert Under(h[i], m);
    }
    if Under(e, m) {
      assert Under(h[|w.history|], m);
    }
  }

  lemma StepKeepsCurrency(w: World, op: Op, m: MandateId)
    requires CurrencyKept(w, m) && Backed(w.store.books)
    ensures CurrencyKept(Step(w, op), m)
  {
    hide Append, Applied, Backed, PruneTimes, Without;
    if op.DoAppend? {
      AppendEffect(w.store, op.ctx, op.at, op.body);
      var (s, r) := Append(w.store, op.ctx, op.at, op.body);
      if IsAppended(r) {
        AppliedKeepsCurrency(w, s.books, r.value.event, m);
      } else {
        assert w.history + [] == w.history;
      }
    }
  }

  lemma {:induction false} RunKeepsCurrency(ops: seq<Op>, m: MandateId)
    ensures CurrencyKept(Run(START, ops), m)
  {
    hide Step, Backed, LiveTotal;
    if ops != [] {
      RunKeepsCurrency(DropLast(ops), m);
      ReservationsConserved(DropLast(ops));
      StepKeepsCurrency(Run(START, DropLast(ops)), Last(ops), m);
    }
  }

  /** What the mandate's live contexts hold, now that the store's own sum is out of it. */
  lemma HeldExactly(ops: seq<Op>, m: MandateId, currency: Currency)
    ensures var w := Run(START, ops);
            && Held(w.store.books, m) == LiveTotal(w.store.books.records, m)
            && ((m in w.store.books.reserved && w.store.books.reserved[m].currency != currency) <==>
                  OtherCurrency(w.history, m, currency))
  {
    hide Run;
    ReservationsConserved(ops);
    RunKeepsCurrency(ops, m);
    var b := Run(START, ops).store.books;
    if m !in b.reserved {
      assert LiveAmounts(b.records, m) == map[];
    }
  }

  /** What has happened, in the run `ops`, leaves room in the budget for the cart. */
  ghost predicate Affords(ops: seq<Op>, mandate: Mandate, cart: Cart) {
    var w := Run(START, ops);
    var total, cap := cart.claims.total, mandate.body.scope.maxTotal;
    var sum := LiveTotal(w.store.books.records, mandate.body.id) + total.amount;
    && !OtherCurrency(w.history, mandate.body.id, total.currency) && sum <= DECIMAL_MAX && sum >= -DECIMAL_MAX
    && (cap.Some? ==> cap.value.currency == total.currency && sum <= cap.value.amount)
  }

  /** What has happened allows the append. */
  ghost predicate Permits(ops: seq<Op>, ctx: ContextId, at: Time, body: EventBody) {
    var w := Run(START, ops);
    && Lawful(w.history, ctx, body)
    && match body
       case Authorized(mandate, cart, _) =>
         DoRevoke(mandate.body.id) !in ops && !RateSpent(w.history, mandate, at) && Affords(ops, mandate, cart)
       case Paid(rail, _, nonce, _, _) => !SpentBefore(w.history, ctx, rail, nonce)
       case Denied(_, _) => Denials(ChainOf(w.store.events, ctx)) < 32
       case _ => true
  }

  lemma RateExactly(ops: seq<Op>, ctx: ContextId, at: Time, body: EventBody)
    requires body.Authorized? && InReach(ops, DoAppend(ctx, at, body))
    ensures var w := Run(START, ops);
            && (RateFull(w.store.books, body.mandate, at) <==> RateSpent(w.history, body.mandate, at))
            && RateCount(w.store.books, body.mandate, at) == RateUsed(w.history, body.mandate, at)
  {
    hide Run, Floor, Recent, CountSince, TimesUnder;
    if body.mandate.body.scope.velocity.Some? {
      var m, since := body.mandate.body.id, SatSub(at, body.mandate.body.scope.velocity.value.windowSecs);
      RunStillCounts(ops, m);
      RecentCounted(Run(START, ops).history, m, since);
    }
  }

  lemma AffordsExactly(ops: seq<Op>, mandate: Mandate, cart: Cart)
    ensures var b := Run(START, ops).store.books;
            Affords(ops, mandate, cart) <==>
            !Unaddable(b, mandate, cart) && !Incomparable(b, mandate, cart) && !OverCap(b, mandate, cart)
  {
    hide Run, OtherCurrency, LiveTotal;
    HeldExactly(ops, mandate.body.id, cart.claims.total.currency);
  }

  /** The store takes an append exactly when what has happened allows it: the step is lawful;
      for an authorization, nobody revoked the mandate, its window has room, and what its live
      contexts hold leaves room; for a payment, its nonce was spent for no other context; and
      for a refusal, the context is not full of them. In every run of non-negative amounts,
      prunes included, as long as no velocity check looks back past a time forgotten. */
  lemma AppendExactly(ops: seq<Op>, ctx: ContextId, at: Time, body: EventBody)
    requires (forall i :: 0 <= i < |ops| ==> Chargeable(ops[i])) && InReach(ops, DoAppend(ctx, at, body))
    ensures IsAppended(Append(Run(START, ops).store, ctx, at, body).1) <==> Permits(ops, ctx, at, body)
  {
    hide Run, Append, Means, LegalStep, Lawful, RateFull, RateSpent, Unaddable, Incomparable, OverCap, Affords, Taken,
      SpentBefore, ChainOf, Denials, InReach, Solvent, ContextsOk, Chargeable;
    var w := Run(START, ops);
    RunSolvent(ops);
    BooksDecide(w.store, ctx, at, body);
    RunContexts(ops);
    LawfulExactly(w, ctx, body);
    match body
    case Authorized(mandate, cart, _) =>
      RevokedExactly(ops, mandate.body.id);
      RateExactly(ops, ctx, at, body);
      AffordsExactly(ops, mandate, cart);
    case Paid(rail, _, nonce, _, _) => TakenExactly(ops, ctx, rail, nonce);
    case _ =>
  }

  /** Why the store turns an append down, in terms of what has happened. */
  ghost predicate TurnedDownFor(
    ops: seq<Op>, ctx: ContextId, at: Time, body: EventBody, r: Result<AppendOutcome, StoreError>)
  {
    var w := Run(START, ops);
    var lawful := Lawful(w.history, ctx, body);
    match r
    case Ok(Appended(_)) => true
    case Ok(MandateRevoked) => lawful && body.Authorized? && DoRevoke(body.mandate.body.id) in ops
    case Ok(VelocityExceeded(n)) =>
      lawful && body.Authorized? && RateSpent(w.history, body.mandate, at)
      && ClippedTo32(RateUsed(w.history, body.mandate, at), n)
    case Ok(BudgetExceeded(left)) =>
      && lawful && body.Authorized? && !Affords(ops, body.mandate, body.cart)
      && body.mandate.body.scope.maxTotal.Some?
      && left.amount == body.mandate.body.scope.maxTotal.value.amount
                          - LiveTotal(w.store.books.records, body.mandate.body.id)
      && left.amount < body.cart.claims.total.amount
    case Ok(NonceAlreadyUsed) => lawful && body.Paid? && SpentBefore(w.history, ctx, body.rail, body.nonce)
    case Ok(DenialsCapped) => body.Denied? && Denials(ChainOf(w.store.events, ctx)) >= 32
    case Err(IllegalTransition(c, _, to)) => !lawful && c == ctx && ResultingState(body) == Some(to)
    case Err(BadMoney(_)) => lawful && body.Authorized? && !Affords(ops, body.mandate, body.cart)
    case Err(_) => false
  }

  /** And whatever else it answers, it answers for a reason that is true of what has happened. */
  lemma TurnedDownTruly(ops: seq<Op>, ctx: ContextId, at: Time, body: EventBody)
    requires (forall i :: 0 <= i < |ops| ==> Chargeable(ops[i])) && InReach(ops, DoAppend(ctx, at, body))
    ensures TurnedDownFor(ops, ctx, at, body, Append(Run(START, ops).store, ctx, at, body).1)
  {
    hide Run, Append, LegalStep, Lawful, RateFull, RateSpent, Unaddable, Incomparable, Affords, Taken, RateCount,
      RateUsed, ClippedTo32, SpentBefore, ChainOf, Denials, InReach, Solvent, ContextsOk, Chargeable, LiveTotal;
    var w := Run(START, ops);
    RunSolvent(ops);
    BooksDecide(w.store, ctx, at, body);
    RunContexts(ops);
    LawfulExactly(w, ctx, body);
    match body
    case Authorized(mandate, cart, _) =>
      RevokedExactly(ops, mandate.body.id);
      RateExactly(ops, ctx, at, body);
      AffordsExactly(ops, mandate, cart);
      HeldExactly(ops, mandate.body.id, cart.claims.total.currency);
    case Paid(rail, _, nonce, _, _) => TakenExactly(ops, ctx, rail, nonce);
    case _ =>
  }
}
