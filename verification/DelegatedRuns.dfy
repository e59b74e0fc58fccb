/** Delegation over whole runs: whatever the store accepts under delegated mandates, it
    would accept under the mandates they were delegated from, one for one. */
module DelegatedRuns {
  import opened Prelude
  import opened Domain
  import opened Lifecycle
  import opened Scopes
  import opened Events
  import opened Bookkeeping
  import opened StoreRuns
  import opened StoreClaims
  import opened VelocityRuns
  import opened PruneRuns

  /** Which mandate each was delegated from, by id. */
  type Lineage = MandateId -> MandateId

  /** No two mandates come from the same one. */
  ghost predicate OneToOne(up: Lineage) {
    forall m, n :: up(m) == up(n) ==> m == n
  }

  /** `wide` authorizes what `body` authorizes, under the mandate it was delegated from. */
  ghost predicate WidensBody(up: Lineage, body: EventBody, wide: EventBody) {
    && body.Authorized? && wide.Authorized?
    && body.cart == wide.cart && body.requestKey == wide.requestKey
    && wide.mandate.body.id == up(body.mandate.body.id)
    && Within(body.mandate.body.scope, wide.mandate.body.scope)
  }

  ghost predicate Widens(up: Lineage, op: Op, wide: Op) {
    match op
    case DoPrune(_) => wide == op
    case DoRevoke(m) => wide == DoRevoke(up(m))
    case DoAppend(ctx, at, body) =>
      && wide.DoAppend? && wide.ctx == ctx && wide.at == at
      && if body.Authorized? then WidensBody(up, body, wide.body) else wide.body == body
  }

  function Lift(up: Lineage, r: Record): Record {
    r.(mandateId := up(r.mandateId))
  }

  /** The same contexts, reservations, nonces and revocations, under the wider mandates. */
  ghost predicate Lifted(up: Lineage, p: Books, c: Books) {
    && (forall x :: Get(p.records, x) == if x in c.records then Some(Lift(up, c.records[x])) else None)
    && (forall m :: Get(p.reserved, up(m)) == Get(c.reserved, m))
    && p.nonces == c.nonces
    && (forall m :: up(m) in p.revoked <==> m in c.revoked)
  }

  /** The wider run never counts more than the narrower one, and owes the same. */
  ghost predicate Looser(up: Lineage, p: Books, c: Books) {
    && Lifted(up, p, c)
    && (forall m :: WindowOf(p, up(m)) <= WindowOf(c, m))
    && (forall m, since: Time :: CountSince(TimesOf(p, up(m)), since) <= CountSince(TimesOf(c, m), since))
  }

  predicate Accepts(s: Store, op: Op) {
    op.DoAppend? && !op.body.Denied? ==> IsAppended(Append(s, op.ctx, op.at, op.body).1)
  }

  predicate AllAccepted(ops: seq<Op>) {
    forall i :: 0 <= i < |ops| ==> Accepts(Run(START, ops[..i]).store, ops[i])
  }

  lemma LooserVelocity(
    up: Lineage, p: Books, c: Books, m: MandateId, child: Option<Velocity>, parent: Option<Velocity>, at: Time)
    requires Looser(up, p, c) && VelocityWithin(child, parent)
    requires VelocityRefusal(c, m, child, at).None?
    ensures VelocityRefusal(p, up(m), parent, at).None?
  {
    hide Lifted;
    if parent.Some? {
      var near, far := SatSub(at, parent.value.windowSecs), SatSub(at, child.value.windowSecs);
      SatSubMonotone(at, at, child.value.windowSecs, parent.value.windowSecs);
      CountSinceMonotone(TimesOf(c, m), far, near);
    }
  }

  /** What an accepted authorization shows about the books it met. */
  lemma AuthorizedNeeds(s: Store, ctx: ContextId, at: Time, body: EventBody)
    requires body.Authorized?
    ensures var b := s.books;
            var id, scope, amount := body.mandate.body.id, body.mandate.body.scope, body.cart.claims.total;
            var sum := CheckedAdd(ReservedOr(b, id, amount.currency), amount);
            IsAppended(Append(s, ctx, at, body).1) <==>
              && ctx !in b.records && id !in b.revoked
              && VelocityRefusal(b, id, scope.velocity, at).None?
              && sum.Ok?
              && (scope.maxTotal.Some? ==> Exceeds(sum.value, scope.maxTotal.value) == Ok(false))
  {
    hide VelocityRefusal, CheckedAdd, CheckedSub, NewRecord, AdvanceRecords, ChainOf;
    DecisionRefuses(s.books, Denials(ChainOf(s.events, ctx)), ctx, at, body);
  }

  lemma DecisionRefuses(b: Books, denials: nat, ctx: ContextId, at: Time, body: EventBody)
    ensures var d := Decide(b, denials, ctx, at, body); d.Ok? && d.value.Refuse? ==> !d.value.outcome.Appended?
  {
  }

  lemma WiderAuthorized(up: Lineage, p: Store, c: Store, ctx: ContextId, at: Time, body: EventBody, wide: EventBody)
    requires Looser(up, p.books, c.books) && WidensBody(up, body, wide)
    requires IsAppended(Append(c, ctx, at, body).1)
    ensures IsAppended(Append(p, ctx, at, wide).1)
  {
    hide Append, VelocityRefusal, CheckedAdd, MerchantsWithin, CategoriesWithin;
    AuthorizedNeeds(c, ctx, at, body);
    AuthorizedNeeds(p, ctx, at, wide);
    var id := body.mandate.body.id;
    LooserVelocity(up, p.books, c.books, id, body.mandate.body.scope.velocity, wide.mandate.body.scope.velocity, at);
    assert Get(p.books.records, ctx) == None;
    assert Get(p.books.reserved, up(id)) == Get(c.books.reserved, id);
  }

  /** What any other accepted step shows about the books it met. */
  lemma MoveNeeds(s: Store, ctx: ContextId, at: Time, body: EventBody)
    requires !body.Authorized? && !body.Denied?
    ensures var b := s.books;
            IsAppended(Append(s, ctx, at, body).1) <==>
              && ctx in b.records && CanTransition(b.records[ctx].state, ResultingState(body).value)
              && (body.Paid? && (body.rail, body.nonce) in b.nonces ==> b.nonces[(body.rail, body.nonce)] == ctx)
              && (Releases(body) ==> Release(b, b.records[ctx].mandateId, b.records[ctx].amount).Ok?)
  {
    hide Release, AdvanceRecords, ChainOf, CanTransition;
  }

  lemma LiftedMove(up: Lineage, p: Store, c: Store, ctx: ContextId, at: Time, body: EventBody)
    requires Lifted(up, p.books, c.books) && !body.Authorized? && !body.Denied?
    requires IsAppended(Append(c, ctx, at, body).1)
    ensures IsAppended(Append(p, ctx, at, body).1)
  {
    hide Append, CheckedSub, CanTransition;
    MoveNeeds(c, ctx, at, body);
    MoveNeeds(p, ctx, at, body);
    assert Get(p.books.records, ctx) == Some(Lift(up, c.books.records[ctx]));
    var m := c.books.records[ctx].mandateId;
    assert Get(p.books.reserved, up(m)) == Get(c.books.reserved, m);
  }

  // ----- one step of both runs -----

  lemma LiftAdvances(up: Lineage, r: Record, body: EventBody)
    ensures Advance(Lift(up, r), body) == Lift(up, Advance(r, body))
  {
  }

  lemma LiftedRecords(
    up: Lineage, p: Books, c: Books, p2: Books, c2: Books, ctx: ContextId, body: EventBody, wide: EventBody,
    x: ContextId)
    requires Lifted(up, p, c) && (if body.Authorized? then WidensBody(up, body, wide) else wide == body)
    requires Recorded(p, p2, ctx, wide) && Recorded(c, c2, ctx, body)
    ensures Get(p2.records, x) == if x in c2.records then Some(Lift(up, c2.records[x])) else None
    ensures p2.nonces == c2.nonces
  {
    hide LegalStep, Within, Advance, Lift;
    assert Get(p.records, x) == if x in c.records then Some(Lift(up, c.records[x])) else None;
    if x == ctx && x in c.records {
      LiftAdvances(up, c.records[x], body);
    }
    LiftNew(up, ctx, body, wide);
  }

  lemma LiftNew(up: Lineage, ctx: ContextId, body: EventBody, wide: EventBody)
    ensures WidensBody(up, body, wide) ==>
              NewRecord(ctx, wide.mandate, wide.cart) == Lift(up, NewRecord(ctx, body.mandate, body.cart))
  {
    hide Within;
  }

  lemma LiftedReserved(
    up: Lineage, p: Books, c: Books, p2: Books, c2: Books, ctx: ContextId, body: EventBody, wide: EventBody,
    m: MandateId)
    requires OneToOne(up) && Lifted(up, p, c) && (if body.Authorized? then WidensBody(up, body, wide) else wide == body)
    requires Refunded(p, p2, ctx, wide) && Refunded(c, c2, ctx, body)
    ensures Get(p2.reserved, up(m)) == Get(c2.reserved, m)
  {
    hide Within, CheckedAdd, CheckedSub;
    assert Get(p.reserved, up(m)) == Get(c.reserved, m);
    if body.Authorized? {
      var id := body.mandate.body.id;
      assert up(id) == up(m) ==> id == m;
      assert Get(p.reserved, up(id)) == Get(c.reserved, id);
    } else if Releases(body) {
      var id := c.records[ctx].mandateId;
      assert Get(p.records, ctx) == Some(Lift(up, c.records[ctx]));
      assert up(id) == up(m) ==> id == m;
      assert Get(p.reserved, up(id)) == Get(c.reserved, id);
    }
  }

  lemma LiftedStep(
    up: Lineage, p: Books, c: Books, p2: Books, c2: Books, ctx: ContextId, at: Time, body: EventBody, wide: EventBody)
    requires OneToOne(up) && Lifted(up, p, c) && (if body.Authorized? then WidensBody(up, body, wide) else wide == body)
    requires Applied(p, p2, ctx, at, wide) && Applied(c, c2, ctx, at, body)
    ensures Lifted(up, p2, c2)
  {
    hide Recorded, Refunded, VelocityMoves, WidensBody, OneToOne;
    forall x
      ensures Get(p2.records, x) == if x in c2.records then Some(Lift(up, c2.records[x])) else None
      ensures p2.nonces == c2.nonces
    {
      LiftedRecords(up, p, c, p2, c2, ctx, body, wide, x);
    }
    forall m
      ensures Get(p2.reserved, up(m)) == Get(c2.reserved, m)
    {
      LiftedReserved(up, p, c, p2, c2, ctx, body, wide, m);
    }
    assert p2.nonces == c2.nonces by {
      LiftedRecords(up, p, c, p2, c2, ctx, body, wide, ctx);
    }
  }

  lemma LooserTimes(up: Lineage, p: Books, c: Books, p2: Books, c2: Books, at: Time, body: EventBody, wide: EventBody)
    requires OneToOne(up) && Looser(up, p, c) && Lifted(up, p2, c2)
    requires if body.Authorized? then WidensBody(up, body, wide) else wide == body
    requires VelocityMoves(p, p2, at, wide) && VelocityMoves(c, c2, at, body)
    ensures Looser(up, p2, c2)
  {
    hide Lifted, VelocityRefusal, CapWithin, MerchantsWithin, CategoriesWithin;
    forall m
      ensures WindowOf(p2, up(m)) <= WindowOf(c2, m)
      ensures forall since: Time :: CountSince(TimesOf(p2, up(m)), since) <= CountSince(TimesOf(c2, m), since)
    {
      assert WindowOf(p, up(m)) <= WindowOf(c, m);
      assert body.Authorized? && up(body.mandate.body.id) == up(m) ==> body.mandate.body.id == m;
      forall since: Time
        ensures CountSince(TimesOf(p2, up(m)), since) <= CountSince(TimesOf(c2, m), since)
      {
        assert CountSince(TimesOf(p, up(m)), since) <= CountSince(TimesOf(c, m), since);
        if body.Authorized? && body.mandate.body.id == m {
          CountSinceSnoc(TimesOf(p, up(m)), at, since);
          CountSinceSnoc(TimesOf(c, m), at, since);
        } else {
          assert TimesOf(p2, up(m)) == TimesOf(p, up(m)) && TimesOf(c2, m) == TimesOf(c, m);
        }
      }
    }
  }

  lemma LooserLifted(up: Lineage, p: Books, c: Books)
    requires Looser(up, p, c)
    ensures Lifted(up, p, c)
  {
  }

  lemma AppendAccepted(up: Lineage, p: World, c: World, op: Op, wide: Op)
    requires Looser(up, p.store.books, c.store.books) && Widens(up, op, wide) && op.DoAppend? && !op.body.Denied?
    requires IsAppended(Append(c.store, op.ctx, op.at, op.body).1)
    ensures IsAppended(Append(p.store, wide.ctx, wide.at, wide.body).1)
  {
    hide Append, Looser, Lifted, WidensBody;
    LooserLifted(up, p.store.books, c.store.books);
    if op.body.Authorized? {
      WiderAuthorized(up, p.store, c.store, op.ctx, op.at, op.body, wide.body);
    } else {
      LiftedMove(up, p.store, c.store, op.ctx, op.at, op.body);
    }
  }

  lemma WidensKind(up: Lineage, op: Op, wide: Op)
    requires Widens(up, op, wide) && op.DoAppend?
    ensures wide.DoAppend? && wide.ctx == op.ctx && wide.at == op.at
    ensures wide.body.Denied? <==> op.body.Denied?
    ensures if op.body.Authorized? then WidensBody(up, op.body, wide.body) else wide.body == op.body
  {
    hide Within;
  }

  lemma AppendLooser(up: Lineage, p: World, c: World, op: Op, wide: Op)
    requires OneToOne(up) && Looser(up, p.store.books, c.store.books)
    requires Widens(up, op, wide) && op.DoAppend? && Accepts(c.store, op)
    ensures Accepts(p.store, wide)
    ensures Looser(up, Step(p, wide).store.books, Step(c, op).store.books)
  {
    hide Append, Looser, Lifted, Widens, WidensBody, OneToOne, LegalStep, Refunded, NoncesMove, RecordsAfter,
      VelocityMoves;
    WidensKind(up, op, wide);
    if op.body.Denied? {
      DeniedKeepsBooks(p.store, wide.ctx, wide.at, wide.body);
      DeniedKeepsBooks(c.store, op.ctx, op.at, op.body);
    } else {
      AppendAccepted(up, p, c, op, wide);
      AppendEffect(p.store, wide.ctx, wide.at, wide.body);
      AppendEffect(c.store, op.ctx, op.at, op.body);
      var p2, c2 := Step(p, wide).store.books, Step(c, op).store.books;
      LooserLifted(up, p.store.books, c.store.books);
      LiftedStep(up, p.store.books, c.store.books, p2, c2, op.ctx, op.at, op.body, wide.body);
      LooserTimes(up, p.store.books, c.store.books, p2, c2, op.at, op.body, wide.body);
    }
  }

  lemma LiftedTables(up: Lineage, p: Books, c: Books, p2: Books, c2: Books)
    requires Lifted(up, p, c)
    requires p2.records == p.records && p2.reserved == p.reserved && p2.nonces == p.nonces
    requires c2.records == c.records && c2.reserved == c.reserved && c2.nonces == c.nonces
    requires forall m :: up(m) in p2.revoked <==> m in c2.revoked
    ensures Lifted(up, p2, c2)
  {
    hide Lift;
    forall m
      ensures Get(p2.reserved, up(m)) == Get(c2.reserved, m)
    {
      assert Get(p.reserved, up(m)) == Get(c.reserved, m);
    }
    forall x
      ensures Get(p2.records, x) == if x in c2.records then Some(Lift(up, c2.records[x])) else None
    {
      assert Get(p.records, x) == if x in c.records then Some(Lift(up, c.records[x])) else None;
    }
  }

  lemma PruneLooser(up: Lineage, p: World, c: World, before: Time)
    requires Looser(up, p.store.books, c.store.books)
    ensures Looser(up, Step(p, DoPrune(before)).store.books, Step(c, DoPrune(before)).store.books)
  {
    hide Without, Gone, CountSince, KeepSince, Lifted;
    var b, d := p.store.books, c.store.books;
    var b2, d2 := Step(p, DoPrune(before)).store.books, Step(c, DoPrune(before)).store.books;
    assert forall m :: up(m) in b2.revoked <==> m in d2.revoked by { LiftedRevoked(up, b, d); }
    LiftedTables(up, b, d, b2, d2);
    forall m
      ensures WindowOf(b2, up(m)) <= WindowOf(d2, m)
    {
      assert WindowOf(b2, up(m)) == WindowOf(b, up(m)) && WindowOf(d2, m) == WindowOf(d, m);
    }
    forall m, since: Time
      ensures CountSince(TimesOf(b2, up(m)), since) <= CountSince(TimesOf(d2, m), since)
    {
      PrunedCounts(up, b, d, m, before, since);
      var near, far := Cutoff(b.windows, up(m), before), Cutoff(d.windows, m, before);
      NoneKept(near);
      NoneKept(far);
      assert TimesOf(b2, up(m)) == KeepSince(TimesOf(b, up(m)), near);
      assert TimesOf(d2, m) == KeepSince(TimesOf(d, m), far);
    }
  }

  lemma LiftedRevoked(up: Lineage, p: Books, c: Books)
    requires Lifted(up, p, c)
    ensures forall m :: up(m) in p.revoked <==> m in c.revoked
  {
  }

  /** A shorter longest window forgets more. */
  lemma PrunedCounts(up: Lineage, b: Books, d: Books, m: MandateId, before: Time, since: Time)
    requires Looser(up, b, d)
    ensures CountSince(KeepSince(TimesOf(b, up(m)), Cutoff(b.windows, up(m), before)), since)
              <= CountSince(KeepSince(TimesOf(d, m), Cutoff(d.windows, m, before)), since)
  {
    hide CountSince, KeepSince, Lifted;
    var near, far := Cutoff(b.windows, up(m), before), Cutoff(d.windows, m, before);
    assert near == SatSub(before, WindowOf(b, up(m))) && far == SatSub(before, WindowOf(d, m));
    SatSubMonotone(before, before, WindowOf(d, m), WindowOf(b, up(m)));
    KeepCounts(TimesOf(b, up(m)), near, since);
    KeepCounts(TimesOf(d, m), far, since);
    CountSinceMonotone(TimesOf(d, m), Max(since, far), Max(since, near));
  }

  lemma RevokeLooser(up: Lineage, p: World, c: World, m: MandateId)
    requires OneToOne(up) && Looser(up, p.store.books, c.store.books)
    ensures Looser(up, Step(p, DoRevoke(up(m))).store.books, Step(c, DoRevoke(m)).store.books)
  {
    hide CountSince, Lifted;
    var b, d := p.store.books, c.store.books;
    var b2, d2 := Step(p, DoRevoke(up(m))).store.books, Step(c, DoRevoke(m)).store.books;
    LiftedRevoked(up, b, d);
    forall n
      ensures up(n) in b2.revoked <==> n in d2.revoked
    {
      assert up(n) == up(m) ==> n == m;
    }
    LiftedTables(up, b, d, b2, d2);
    SameTimes(up, b, d, b2, d2);
  }

  lemma SameTimes(up: Lineage, b: Books, d: Books, b2: Books, d2: Books)
    requires Looser(up, b, d) && Lifted(up, b2, d2)
    requires b2.authTimes == b.authTimes && b2.windows == b.windows
    requires d2.authTimes == d.authTimes && d2.windows == d.windows
    ensures Looser(up, b2, d2)
  {
    hide CountSince, Lifted;
    forall n
      ensures WindowOf(b2, up(n)) <= WindowOf(d2, n)
    {
      assert WindowOf(b, up(n)) <= WindowOf(d, n);
    }
    forall n, since: Time
      ensures CountSince(TimesOf(b2, up(n)), since) <= CountSince(TimesOf(d2, n), since)
    {
      assert CountSince(TimesOf(b, up(n)), since) <= CountSince(TimesOf(d, n), since);
    }
  }

  lemma StepLooser(up: Lineage, p: World, c: World, op: Op, wide: Op)
    requires OneToOne(up) && Looser(up, p.store.books, c.store.books) && Widens(up, op, wide) && Accepts(c.store, op)
    ensures Accepts(p.store, wide)
    ensures Looser(up, Step(p, wide).store.books, Step(c, op).store.books)
  {
    hide Step, Append, Looser, OneToOne, WidensBody;
    match op
    case DoAppend(_, _, _) => AppendLooser(up, p, c, op, wide);
    case DoPrune(before) => PruneLooser(up, p, c, before);
    case DoRevoke(m) => RevokeLooser(up, p, c, m);
  }

  lemma {:induction false} RunLooser(up: Lineage, ops: seq<Op>, wide: seq<Op>)
    requires OneToOne(up) && |ops| == |wide| && forall i :: 0 <= i < |ops| ==> Widens(up, ops[i], wide[i])
    requires AllAccepted(ops)
    ensures Looser(up, Run(START, wide).store.books, Run(START, ops).store.books)
    ensures AllAccepted(wide)
  {
    hide Step, Accepts, Looser, Widens, OneToOne;
    if ops == [] {
      StartLooser(up);
    } else {
      var a, b := DropLast(ops), DropLast(wide);
      forall i | 0 <= i < |a|
        ensures ops[..i] == a[..i] && wide[..i] == b[..i] && a[i] == ops[i] && b[i] == wide[i]
      {
      }
      assert ops[..|a|] == a && wide[..|b|] == b;
      RunLooser(up, a, b);
      StepLooser(up, Run(START, b), Run(START, a), Last(ops), Last(wide));
      AcceptedSnoc(b, Last(wide));
      assert wide == b + [Last(wide)];
    }
  }

  lemma StartLooser(up: Lineage)
    ensures Looser(up, START.store.books, START.store.books)
  {
  }

  /** Delegation is safe for the stateful limits too: if the store wholly accepts a run of
      operations under delegated mandates, each delegated from a mandate of its own, it
      wholly accepts the same run under the mandates they came from, with the same contexts
      and reservations, prunes and revocations included. */
  lemma DelegationNeverAcceptsMore(up: Lineage, ops: seq<Op>, wide: seq<Op>)
    requires OneToOne(up) && |ops| == |wide| && forall i :: 0 <= i < |ops| ==> Widens(up, ops[i], wide[i])
    requires AllAccepted(ops)
    ensures AllAccepted(wide)
    ensures Lifted(up, Run(START, wide).store.books, Run(START, ops).store.books)
  {
    hide Run, AllAccepted, Widens, Lifted, OneToOne;
    RunLooser(up, ops, wide);
  }

  // ----- siblings -----

  function Purchase(ctx: ContextId, at: Time, mandate: Mandate, cart: Cart): Op {
    DoAppend(ctx, at, EventBody.Authorized(mandate, cart, ""))
  }

  /** A purchase a mandate's own limits allow as its first. */
  predicate Affordable(mandate: Mandate, cart: Cart) {
    var scope, total := mandate.body.scope, cart.claims.total;
    scope.maxTotal.Some? ==>
      total.currency == scope.maxTotal.value.currency && total.amount <= scope.maxTotal.value.amount
  }

  lemma FirstAccepted(s: Store, ctx: ContextId, at: Time, mandate: Mandate, cart: Cart)
    requires ctx !in s.books.records && mandate.body.id !in s.books.reserved && mandate.body.id !in s.books.revoked
    requires TimesOf(s.books, mandate.body.id) == [] && Fault(mandate.body.scope).None? && Affordable(mandate, cart)
    ensures Accepts(s, Purchase(ctx, at, mandate, cart))
    ensures var b := Append(s, ctx, at, EventBody.Authorized(mandate, cart, "")).0.books;
            && b.records == s.books.records[ctx := NewRecord(ctx, mandate, cart)]
            && b.reserved == s.books.reserved[mandate.body.id := cart.claims.total]
            && b.authTimes == s.books.authTimes[mandate.body.id := [at]] && b.revoked == s.books.revoked
  {
    hide Append, NewRecord;
    var body := EventBody.Authorized(mandate, cart, "");
    AuthorizedNeeds(s, ctx, at, body);
    AppendEffect(s, ctx, at, body);
    assert [] + [at] == [at];
  }

  // ----- children of one parent -----

  /** Mandates attenuated from `parent`, each with an id of its own. */
  ghost predicate Children(parent: MandateBody, kids: seq<Mandate>) {
    && (forall i :: 0 <= i < |kids| ==> Delegates(parent, kids[i].body))
    && (forall i, j :: 0 <= i < j < |kids| ==> kids[i].body.id != kids[j].body.id)
  }

  function CapOf(kid: Mandate): Money {
    if kid.body.scope.maxTotal.Some? then kid.body.scope.maxTotal.value else Zero("")
  }

  /** The children's own caps, together. */
  function CapSum(kids: seq<Mandate>): int {
    if kids == [] then 0 else CapSum(DropLast(kids)) + CapOf(Last(kids)).amount
  }

  function OwedBy(b: Books, kid: Mandate): int {
    if kid.body.id in b.reserved then b.reserved[kid.body.id].amount else 0
  }

  /** What is reserved against the children, together. */
  function OwedSum(b: Books, kids: seq<Mandate>): int {
    if kids == [] then 0 else OwedSum(b, DropLast(kids)) + OwedBy(b, Last(kids))
  }

  /** Every authorization under a child in these operations carries the child's own cap. */
  ghost predicate OwnCaps(ops: seq<Op>, kids: seq<Mandate>) {
    && (forall i :: 0 <= i < |ops| ==> Chargeable(ops[i]))
    && (forall i, k :: 0 <= i < |ops| && 0 <= k < |kids| ==> CarriesCap(ops[i], kids[k].body.id, CapOf(kids[k])))
  }

  ghost predicate AlwaysWithin(parent: MandateBody, kids: seq<Mandate>)
    requires parent.scope.maxTotal.Some?
  {
    forall ops :: OwnCaps(ops, kids) ==>
      OwedSum(Run(START, ops).store.books, kids) <= parent.scope.maxTotal.value.amount
  }

  lemma ChildCap(parent: MandateBody, kid: Mandate)
    requires Delegates(parent, kid.body) && parent.scope.maxTotal.Some?
    ensures kid.body.scope.maxTotal == Some(CapOf(kid)) && CapOf(kid).amount >= 0 && Fault(kid.body.scope).None?
  {
    hide MerchantsWithin, CategoriesWithin;
  }

  lemma {:induction false} OwedWithin(parent: MandateBody, kids: seq<Mandate>, ops: seq<Op>)
    requires Children(parent, kids) && parent.scope.maxTotal.Some? && OwnCaps(ops, kids)
    ensures OwedSum(Run(START, ops).store.books, kids) <= CapSum(kids)
  {
    hide Run, Delegates, Chargeable, CarriesCap;
    if kids != [] {
      var front, kid := DropLast(kids), Last(kids);
      assert kid == kids[|kids| - 1];
      OwedWithin(parent, front, ops);
      ChildCap(parent, kid);
      forall i | 0 <= i < |ops|
        ensures CarriesCap(ops[i], kid.body.id, CapOf(kid))
      {
      }
      CapHolds(ops, kid.body.id, CapOf(kid));
    }
  }

  /** Each child spends its whole cap, in a context named after it. */
  function SpendAll(kids: seq<Mandate>): seq<Op> {
    if kids == [] then [] else SpendAll(DropLast(kids)) + [Spend(Last(kids))]
  }

  function Spend(kid: Mandate): Op {
    Purchase(kid.body.id, 0, kid, Cart(Content([]), ScopeClaims("", CapOf(kid), None, None), AgentReported, []))
  }

  function Ids(kids: seq<Mandate>): set<MandateId> {
    if kids == [] then {} else Ids(DropLast(kids)) + {Last(kids).body.id}
  }

  lemma {:induction false} IdsAre(kids: seq<Mandate>, id: MandateId)
    ensures id in Ids(kids) <==> exists i :: 0 <= i < |kids| && kids[i].body.id == id
  {
    if kids != [] {
      IdsAre(DropLast(kids), id);
      assert kids == DropLast(kids) + [Last(kids)];
      if id == Last(kids).body.id {
        assert kids[|kids| - 1].body.id == id;
      }
      forall i | 0 <= i < |kids| && kids[i].body.id == id
        ensures id in Ids(kids)
      {
        assert i < |kids| - 1 ==> DropLast(kids)[i].body.id == id;
      }
    }
  }

  lemma OwedSame(b: Books, b2: Books, kids: seq<Mandate>, id: MandateId, m: Money)
    requires b2.reserved == b.reserved[id := m] && id !in Ids(kids)
    ensures OwedSum(b2, kids) == OwedSum(b, kids)
  {
    if kids != [] {
      OwedSame(b, b2, DropLast(kids), id, m);
    }
  }

  /** The books once each of `kids`, and nobody else, has spent its whole cap. */
  predicate SpentAll(b: Books, kids: seq<Mandate>) {
    && b.records.Keys == Ids(kids) && b.reserved.Keys == Ids(kids) && b.authTimes.Keys == Ids(kids)
    && b.revoked == {} && OwedSum(b, kids) == CapSum(kids)
  }

  lemma SpendOne(s: Store, front: seq<Mandate>, kid: Mandate)
    requires SpentAll(s.books, front) && kid.body.id !in Ids(front)
    requires kid.body.scope.maxTotal == Some(CapOf(kid)) && Fault(kid.body.scope).None?
    ensures var op := Spend(kid);
            && Accepts(s, op)
            && SpentAll(Append(s, op.ctx, op.at, op.body).0.books, front + [kid])
  {
    hide Append, Accepts, NewRecord, Affordable, Fault, CapSum, OwedSum, Ids;
    var op := Spend(kid);
    SpendAffordable(kid);
    FirstAccepted(s, kid.body.id, 0, kid, op.body.cart);
    SpentSnoc(s.books, Append(s, op.ctx, op.at, op.body).0.books, front, kid);
  }

  lemma SpentSnoc(b: Books, b2: Books, front: seq<Mandate>, kid: Mandate)
    requires SpentAll(b, front) && kid.body.id !in Ids(front)
    requires b2.records.Keys == b.records.Keys + {kid.body.id} && b2.authTimes.Keys == b.authTimes.Keys + {kid.body.id}
    requires b2.reserved == b.reserved[kid.body.id := CapOf(kid)] && b2.revoked == b.revoked
    ensures SpentAll(b2, front + [kid])
  {
    SnocParts(front, kid);
    OwedSame(b, b2, front, kid.body.id, CapOf(kid));
  }

  lemma NotAmong(parent: MandateBody, kids: seq<Mandate>)
    requires Children(parent, kids) && kids != []
    ensures Children(parent, DropLast(kids)) && Last(kids).body.id !in Ids(DropLast(kids))
    ensures Delegates(parent, Last(kids).body)
  {
    hide Delegates, Ids;
    var front, kid := DropLast(kids), Last(kids);
    assert kid == kids[|kids| - 1];
    IdsAre(front, kid.body.id);
    forall i | 0 <= i < |front|
      ensures front[i].body.id != kid.body.id
    {
      assert front[i] == kids[i];
    }
  }

  lemma {:induction false} SpendAllRuns(parent: MandateBody, kids: seq<Mandate>)
    requires Children(parent, kids) && parent.scope.maxTotal.Some?
    ensures SpentAll(Run(START, SpendAll(kids)).store.books, kids)
    ensures AllAccepted(SpendAll(kids))
  {
    hide Append, Delegates, Accepts, Children, SpentAll, AllAccepted, Spend, Fault;
    if kids == [] {
      NothingSpent();
    } else {
      var front, kid := DropLast(kids), Last(kids);
      NotAmong(parent, kids);
      SpendAllRuns(parent, front);
      ChildCap(parent, kid);
      var ops, op := SpendAll(front), Spend(kid);
      SpendOne(Run(START, ops).store, front, kid);
      RunSnoc(START, ops, op);
      AcceptedSnoc(ops, op);
      SpendIsAppend(Run(START, ops), kid);
      assert kids == front + [kid];
    }
  }

  lemma NothingSpent()
    ensures SpentAll(START.store.books, []) && AllAccepted([])
  {
  }

  lemma SpendIsAppend(w: World, kid: Mandate)
    ensures var op := Spend(kid); Step(w, op).store.books == Append(w.store, op.ctx, op.at, op.body).0.books
  {
    hide Append;
  }

  lemma SpendAffordable(kid: Mandate)
    requires kid.body.scope.maxTotal == Some(CapOf(kid))
    ensures Affordable(kid, Spend(kid).body.cart)
  {
  }

  lemma AcceptedSnoc(ops: seq<Op>, op: Op)
    requires AllAccepted(ops) && Accepts(Run(START, ops).store, op)
    ensures AllAccepted(ops + [op])
  {
    hide Accepts;
    var all := ops + [op];
    forall i | 0 <= i < |all|
      ensures Accepts(Run(START, all[..i]).store, all[i])
    {
      assert i < |ops| ==> all[..i] == ops[..i];
      assert all[..|ops|] == ops;
    }
  }

  lemma {:induction false} SpendAllOwn(parent: MandateBody, all: seq<Mandate>, n: nat)
    requires Children(parent, all) && parent.scope.maxTotal.Some? && n <= |all|
    ensures OwnCaps(SpendAll(all[..n]), all)
  {
    hide Delegates, CarriesCap, Chargeable;
    if n > 0 {
      SpendAllOwn(parent, all, n - 1);
      assert all[..n] == all[..n - 1] + [all[n - 1]];
      SnocParts(all[..n - 1], all[n - 1]);
      var kid := all[n - 1];
      ChildCap(parent, kid);
      SpendCharges(kid);
      forall k | 0 <= k < |all|
        ensures CarriesCap(Spend(kid), all[k].body.id, CapOf(all[k]))
      {
        assert k < n - 1 ==> all[k].body.id != all[n - 1].body.id;
        assert k > n - 1 ==> all[n - 1].body.id != all[k].body.id;
        SpendCarries(kid, all[k]);
      }
    }
  }

  lemma SpendCharges(kid: Mandate)
    requires CapOf(kid).amount >= 0
    ensures Chargeable(Spend(kid))
  {
  }

  lemma SpendCarries(kid: Mandate, other: Mandate)
    requires kid.body.scope.maxTotal == Some(CapOf(kid)) && (kid == other || kid.body.id != other.body.id)
    ensures CarriesCap(Spend(kid), other.body.id, CapOf(other))
  {
  }

  /** Nothing in the store ties the children of one parent together, so their caps must do
      it: they stay within the parent's cap in every run, whatever each of them is used for, if
      and only if their own caps add up to no more than it. An issuer can see that before
      signing. */
  lemma ChildrenWithinExactly(parent: MandateBody, kids: seq<Mandate>)
    requires Children(parent, kids) && parent.scope.maxTotal.Some?
    ensures AlwaysWithin(parent, kids) <==> CapSum(kids) <= parent.scope.maxTotal.value.amount
  {
    hide Run, Children, OwnCaps;
    if CapSum(kids) <= parent.scope.maxTotal.value.amount {
      forall ops | OwnCaps(ops, kids)
        ensures OwedSum(Run(START, ops).store.books, kids) <= parent.scope.maxTotal.value.amount
      {
        OwedWithin(parent, kids, ops);
      }
    } else {
      SpendAllRuns(parent, kids);
      assert kids[..|kids|] == kids;
      SpendAllOwn(parent, kids, |kids|);
    }
  }

  /** One parent, two children: nothing ties their totals together. Two mandates attenuated
      from the same one can each spend up to their own cap, and so together past the cap of
      the mandate they both came from, which bounds neither of them as a pair. */
  lemma SiblingsExceed(
    parent: MandateBody, a: Mandate, b: Mandate, x: ContextId, y: ContextId, at: Time, first: Cart, second: Cart)
    requires Delegates(parent, a.body) && Delegates(parent, b.body) && a.body.id != b.body.id && x != y
    requires parent.scope.maxTotal.Some? && Affordable(a, first) && Affordable(b, second)
    requires first.claims.total.amount + second.claims.total.amount > parent.scope.maxTotal.value.amount
    ensures var ops := [Purchase(x, at, a, first), Purchase(y, at, b, second)];
            var reserved := Run(START, ops).store.books.reserved;
            && AllAccepted(ops) && a.body.id in reserved && b.body.id in reserved
            && reserved[a.body.id].amount + reserved[b.body.id].amount > parent.scope.maxTotal.value.amount
  {
    hide Append, Within, NewRecord, Accepts;
    var one, two := Purchase(x, at, a, first), Purchase(y, at, b, second);
    var ops := [one, two];
    assert ops[..0] == [] && ops[..1] == [one] && DropLast(ops) == [one] && DropLast([one]) == [];
    FirstAccepted(START.store, x, at, a, first);
    RunSnoc(START, [], one);
    assert [] + [one] == [one];
    FirstAccepted(Run(START, [one]).store, y, at, b, second);
  }
}
