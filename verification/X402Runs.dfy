/** The engine over the x402 rail: what every interleaving of calls guarantees about the
    payments it records, settles and fails. */
module X402Runs {
  import opened Prelude
  import opened Domain
  import opened Lifecycle
  import opened Events
  import opened Bookkeeping
  import opened StoreRuns
  import opened StoreClaims
  import opened WorldGrowth
  import opened Rails
  import opened Engine
  import opened EngineRuns
  import opened EngineClaims
  import EngineCalls
  import AppendExact
  import EngineAnswers
  import opened X402Text
  import opened X402Reference
  import opened X402Rail
  import opened X402Claims

  /** A payment call that presents `proof` to the rail when its clock reads `now`. */
  ghost predicate Presents(cfg: Config, call: Call, now: Time, proof: Payload) {
    && call.RecordPayment? && call.railId == cfg.id
    && forall e: PaymentExpectation :: call.verify(e) == VerifyProof(cfg, now, proof, e)
  }

  /** A settlement call that brings `evidence` to the rail when its clock reads `now`. */
  ghost predicate Brings(cfg: Config, call: Call, now: Time, evidence: Finality) {
    && call.RecordSettlement? && call.railId == cfg.id
    && forall e: SettlementExpectation :: call.finality(e) == CheckFinality(cfg, now, evidence, e)
  }

  /** A call that names this rail is answered by it. */
  ghost predicate Uses(cfg: Config, call: Call) {
    && (call.RecordPayment? && call.railId == cfg.id ==>
          exists now: Time, proof: Payload :: Presents(cfg, call, now, proof))
    && (call.RecordSettlement? && call.railId == cfg.id ==>
          exists now: Time, evidence: Finality :: Brings(cfg, call, now, evidence))
  }

  ghost predicate AllUse(cfg: Config, sys: System) {
    forall t :: t in sys.threads ==> Uses(cfg, sys.threads[t].call)
  }

  // ----- payments -----

  /** `proof`, presented at the rail's clock reading `now`, is what `e` records: a payment
      signed by its payer, of the authorized amount, to the authorized merchant, under this
      context's own nonce, and in time at that reading. */
  ghost predicate Covers(cfg: Config, r: Record, e: Event, now: Time, proof: Payload)
    requires e.body.Paid?
  {
    PaysFor(cfg, now, proof, e.ctx, r.amount, r.merchant, e.body.reference, e.body.nonce)
  }

  /** Call `t` presented a proof for `e`'s context, and whatever it presented, and whenever,
      covers `e`. */
  ghost predicate PresentedBy(cfg: Config, env: Env, sys: System, e: Event, t: nat) {
    && e.body.Paid? && e.ctx in sys.world.store.books.records
    && t in sys.threads && CtxOf(env, sys.threads[t].call) == e.ctx
    && var call, r := sys.threads[t].call, sys.world.store.books.records[e.ctx];
       && (exists now: Time, proof: Payload :: Presents(cfg, call, now, proof))
       && (forall now: Time, proof: Payload :: Presents(cfg, call, now, proof) ==> Covers(cfg, r, e, now, proof))
  }

  ghost predicate SignedFor(cfg: Config, env: Env, sys: System, e: Event) {
    exists t: nat :: PresentedBy(cfg, env, sys, e, t)
  }

  lemma JustifiedIsCovered(
    cfg: Config, records: map<ContextId, Record>, call: Call, e: Event, now: Time, proof: Payload)
    requires e.body.Paid? && PaymentJustified(records, call, e.body) && call.ctx == e.ctx
    requires records[call.ctx].ctx == call.ctx && Presents(cfg, call, now, proof)
    ensures Covers(cfg, records[e.ctx], e, now, proof)
  {
    hide VerifyProof, PaysFor;
    var r := records[call.ctx];
    var expected := PaymentExpectation(call.ctx, r.cartHash, r.amount, r.merchant, None);
    assert call.verify(expected) == VerifyProof(cfg, now, proof, expected);
    ProofBindsNothingElse(cfg, now, proof, expected);
    VerifiedPays(cfg, now, proof, expected);
  }

  lemma JustifiedIsSigned(cfg: Config, env: Env, sys: System, t: nat, e: Event)
    requires t in sys.threads && CtxOf(env, sys.threads[t].call) == e.ctx && Uses(cfg, sys.threads[t].call)
    requires e.body.Paid? && PaymentJustified(sys.world.store.books.records, sys.threads[t].call, e.body)
    requires e.body.rail == cfg.id && Named(sys.world.store.books)
    ensures SignedFor(cfg, env, sys, e)
  {
    hide VerifyProof, Covers, Presents, BindingFault;
    var call, records := sys.threads[t].call, sys.world.store.books.records;
    forall now: Time, proof: Payload | Presents(cfg, call, now, proof)
      ensures Covers(cfg, records[e.ctx], e, now, proof)
    {
      JustifiedIsCovered(cfg, records, call, e, now, proof);
    }
    assert PresentedBy(cfg, env, sys, e, t);
  }

  lemma ProofBindsNothingElse(cfg: Config, now: Time, proof: Payload, expected: PaymentExpectation)
    ensures var v := VerifyProof(cfg, now, proof, expected);
            v.Ok? ==> v.value.boundCart.None? && v.value.boundMerchant.Some?
  {
    hide Signed, Fresh, Price, Print, Identity, AccountId;
  }

  /** In every interleaving, each payment recorded for this rail is one that some call of the
      interleaving presented, signed by its payer and in time when it was presented. */
  lemma PaymentsAreSigned(cfg: Config, env: Env, schedule: seq<Action>, i: nat)
    requires var sys := Exec(env, schedule);
             AllUse(cfg, sys) && i < |sys.world.history| && sys.world.history[i].body.Paid?
             && sys.world.history[i].body.rail == cfg.id
    ensures SignedFor(cfg, env, Exec(env, schedule), Exec(env, schedule).world.history[i])
  {
    hide Exec, Uses, ContextsOk, Spent, Solvent, PcsOk, PaymentJustified, SignedFor;
    EveryInterleaving(env, schedule);
    var sys := Exec(env, schedule);
    var e := sys.world.history[i];
    assert EventOk(env, sys, e);
    var t :| t in sys.threads && Writes(env, sys.world.store.books.records, sys.threads[t].call, e);
    JustifiedIsSigned(cfg, env, sys, t, e);
  }

  /** The same EIP-3009 authorization, as the chain keys it. */
  predicate SameAuthorizationOnChain(p: AuthorizationRef, q: AuthorizationRef) {
    p.chain == q.chain && p.token == q.token && p.from == q.from && p.nonce == q.nonce
  }

  /** The one authorization a recorded payment spends. */
  lemma SignedRef(cfg: Config, env: Env, sys: System, e: Event) returns (p: AuthorizationRef)
    requires SignedFor(cfg, env, sys, e)
    ensures e.body.Paid? && e.body.reference == Print(p) && e.body.nonce == Identity(p)
  {
    hide SignedByPayer, Print, Identity, Worth, AccountId, VerifyProof, Presents;
    var t: nat :| PresentedBy(cfg, env, sys, e, t);
    var now: Time, proof: Payload :| Presents(cfg, sys.threads[t].call, now, proof);
    var r := sys.world.store.books.records[e.ctx];
    assert Covers(cfg, r, e, now, proof);
    var terms, auth :|
      PaysOn(cfg, now, proof, e.ctx, r.amount, r.merchant, e.body.reference, e.body.nonce, terms, auth);
    p := AuthorizationRef(terms.chain, terms.asset, auth.from, auth.nonce, auth.validBefore);
  }

  lemma SignedNonce(cfg: Config, env: Env, sys: System, e: Event, p: AuthorizationRef)
    requires SignedFor(cfg, env, sys, e) && e.body.reference == Print(p)
    ensures e.body.nonce == Identity(p)
  {
    hide SignedFor, Print, Identity;
    var q := SignedRef(cfg, env, sys, e);
    PrintTells(q, p);
  }

  /** No authorization pays twice: two payments on record never spend the same one, even if
      the payer signed it over with another expiry. */
  lemma OneAuthorizationPaysOnce(
    cfg: Config, env: Env, schedule: seq<Action>, i: nat, j: nat, p: AuthorizationRef, q: AuthorizationRef)
    requires var sys := Exec(env, schedule);
             var h := sys.world.history;
             && AllUse(cfg, sys) && i < j < |h| && h[i].body.Paid? && h[j].body.Paid?
             && h[i].body.rail == h[j].body.rail == cfg.id
             && h[i].body.reference == Print(p) && h[j].body.reference == Print(q)
    ensures !SameAuthorizationOnChain(p, q)
  {
    hide Exec, AllUse, ContextsOk, Solvent, PcsOk, EventsOk, SignedFor, Print, AuthorizationsKept, PaymentsKept,
      AuthorizationsDistinct;
    PaymentsAreSigned(cfg, env, schedule, i);
    PaymentsAreSigned(cfg, env, schedule, j);
    EveryInterleaving(env, schedule);
    var sys := Exec(env, schedule);
    var h := sys.world.history;
    SignedNonce(cfg, env, sys, h[i], p);
    SignedNonce(cfg, env, sys, h[j], q);
    assert !SamePayment(h[i], h[j]);
  }

  /** `e` is a payment for another context that spends the authorization `p`. */
  ghost predicate SpentElsewhere(e: Event, ctx: ContextId, rail: string, p: AuthorizationRef) {
    && e.body.Paid? && e.body.rail == rail && e.ctx != ctx
    && exists q: AuthorizationRef :: e.body.reference == Print(q) && SameAuthorizationOnChain(p, q)
  }

  lemma SignedSpends(cfg: Config, env: Env, sys: System, e: Event, p: AuthorizationRef)
    requires SignedFor(cfg, env, sys, e) && e.body.nonce == Identity(p)
    ensures exists q: AuthorizationRef :: e.body.reference == Print(q) && SameAuthorizationOnChain(p, q)
  {
    hide SignedFor, Print, Identity;
    var q := SignedRef(cfg, env, sys, e);
    IdentityTells(p, q);
  }

  lemma RefusedNonce(s: Store, ctx: ContextId, at: Time, body: EventBody)
    requires body.Paid? && Append(s, ctx, at, body).1 == Ok(AppendOutcome.NonceAlreadyUsed)
    ensures PaidKey(body) in s.books.nonces && s.books.nonces[PaidKey(body)] != ctx
  {
    hide ChainOf, Denials, Release, AdvanceRecords;
  }

  /** And no other payment is refused for it: an append is answered that its nonce is used
      only if that very authorization already paid for another context. */
  lemma RefusedOnlyIfSpent(
    cfg: Config, env: Env, schedule: seq<Action>, ctx: ContextId, at: Time, body: EventBody, p: AuthorizationRef)
    requires AllUse(cfg, Exec(env, schedule)) && body.Paid? && body.rail == cfg.id && body.nonce == Identity(p)
    requires Append(Exec(env, schedule).world.store, ctx, at, body).1 == Ok(AppendOutcome.NonceAlreadyUsed)
    ensures var h := Exec(env, schedule).world.history;
            exists i :: 0 <= i < |h| && SpentElsewhere(h[i], ctx, cfg.id, p)
  {
    hide Exec, AllUse, SignedFor, Identity, Print, Append, NoncesFrom;
    RefusedNonce(Exec(env, schedule).world.store, ctx, at, body);
    InterleavingIsRun(env, schedule);
    NoncesAreReplayed(Trace(env, schedule));
    var h := Exec(env, schedule).world.history;
    var i := NonceHasPayment(h, PaidKey(body));
    PaymentsAreSigned(cfg, env, schedule, i);
    SignedSpends(cfg, env, Exec(env, schedule), h[i], p);
    assert SpentElsewhere(h[i], ctx, cfg.id, p);
  }

  // ----- settlements -----

  function Expectation(r: Record): SettlementExpectation
    requires r.paymentReference.Some?
  {
    SettlementExpectation(r.ctx, r.paymentReference.value, r.amount, r.merchant)
  }

  /** What `evidence`, at the rail's clock reading `now`, says of the payment on record is
      the outcome `body`. */
  ghost predicate Shows(cfg: Config, now: Time, evidence: Finality, r: Record, body: EventBody) {
    && r.paymentReference.Some?
    && match body
       case Settled(_, reference) => SettlementShown(cfg, evidence, Expectation(r), reference)
       case SettlementFailed(_, cause) => FailureShown(cfg, now, evidence, Expectation(r), cause)
       case _ => false
  }

  /** Call `t` brought evidence about context `c`, and whatever it brought, and whenever,
      shows `body` of the payment that `c` has on record. */
  ghost predicate BroughtBy(cfg: Config, env: Env, sys: System, c: ContextId, body: EventBody, t: nat) {
    && c in sys.world.store.books.records
    && t in sys.threads && CtxOf(env, sys.threads[t].call) == c
    && var call, r := sys.threads[t].call, sys.world.store.books.records[c];
       && (exists now: Time, evidence: Finality :: Brings(cfg, call, now, evidence))
       && (forall now: Time, evidence: Finality ::
             Brings(cfg, call, now, evidence) ==> Shows(cfg, now, evidence, r, body))
  }

  ghost predicate OutcomeShown(cfg: Config, env: Env, sys: System, c: ContextId, body: EventBody) {
    exists t: nat :: BroughtBy(cfg, env, sys, c, body, t)
  }

  lemma JustifiedShows(
    cfg: Config, records: map<ContextId, Record>, call: Call, body: EventBody, now: Time, evidence: Finality)
    requires SettlementJustified(records, call, body) && Brings(cfg, call, now, evidence)
    requires (body.Settled? || body.SettlementFailed?) && records[call.ctx].ctx == call.ctx
    ensures Shows(cfg, now, evidence, records[call.ctx], body)
  {
    hide CheckFinality, FailureShown, SettlementShown;
    var r := records[call.ctx];
    assert call.finality(Expectation(r)) == CheckFinality(cfg, now, evidence, Expectation(r));
    match body
    case Settled(_, reference) => FinalExactly(cfg, now, evidence, Expectation(r), reference);
    case SettlementFailed(_, cause) => FailedExactly(cfg, now, evidence, Expectation(r), cause);
  }

  lemma JustifiedIsShown(cfg: Config, env: Env, sys: System, t: nat, c: ContextId, body: EventBody)
    requires t in sys.threads && CtxOf(env, sys.threads[t].call) == c && Uses(cfg, sys.threads[t].call)
    requires SettlementJustified(sys.world.store.books.records, sys.threads[t].call, body)
    requires (body.Settled? || body.SettlementFailed?) && body.rail == cfg.id && Named(sys.world.store.books)
    ensures OutcomeShown(cfg, env, sys, c, body)
  {
    hide CheckFinality, Shows, Brings;
    var call, records := sys.threads[t].call, sys.world.store.books.records;
    forall now: Time, evidence: Finality | Brings(cfg, call, now, evidence)
      ensures Shows(cfg, now, evidence, records[c], body)
    {
      JustifiedShows(cfg, records, call, body, now, evidence);
    }
    assert BroughtBy(cfg, env, sys, c, body, t);
  }

  /** In every interleaving, each outcome recorded for this rail was shown by evidence that
      some call of the interleaving brought, about the very payment on record. */
  lemma OutcomesAreShown(cfg: Config, env: Env, schedule: seq<Action>, k: nat)
    requires var sys := Exec(env, schedule);
             var h := sys.world.history;
             && AllUse(cfg, sys) && k < |h| && (h[k].body.Settled? || h[k].body.SettlementFailed?)
             && h[k].body.rail == cfg.id
    ensures var sys := Exec(env, schedule);
            OutcomeShown(cfg, env, sys, sys.world.history[k].ctx, sys.world.history[k].body)
  {
    hide Exec, Uses, ContextsOk, Spent, Solvent, PcsOk, SettlementJustified, OutcomeShown;
    EveryInterleaving(env, schedule);
    var sys := Exec(env, schedule);
    var e := sys.world.history[k];
    assert EventOk(env, sys, e);
    var t :| t in sys.threads && Writes(env, sys.world.store.books.records, sys.threads[t].call, e);
    JustifiedIsShown(cfg, env, sys, t, e.ctx, e.body);
  }

  // ----- releasing a paid reservation -----

  lemma {:induction false} FailureHasEvent(chain: seq<Event>) returns (k: nat)
    requires RecordFrom(chain).Some? && RecordFrom(chain).value.failureReason.Some?
    ensures k < |chain| && chain[k].body.SettlementFailed?
    ensures RecordFrom(chain).value.failureReason == Some(chain[k].body.cause)
  {
    if Last(chain).body.SettlementFailed? {
      k := |chain| - 1;
    } else {
      k := FailureHasEvent(DropLast(chain));
    }
  }

  lemma EventOfChain(h: seq<Event>, c: ContextId, e: Event) returns (k: nat)
    requires e in ChainOf(h, c)
    ensures k < |h| && h[k] == e && e.ctx == c
  {
    ChainOfMember(h, c, e);
    k :| 0 <= k < |h| && h[k] == e;
  }

  lemma NotLiveMeansFailed(r: Record)
    requires WellFormed(r) && r.rail.Some? && !IsLive(r.state)
    ensures r.failureReason.Some? && r.paymentReference.Some?
  {
  }

  /** A paid reservation is given back only for good: in every interleaving, if a context
      this rail was paid for no longer counts against its budget, a trusted facilitator
      reported that very payment's terminal failure when the rail's clock was at or past the
      authorization's expiry plus the grace, in the evidence some call of the interleaving
      brought. No receipt ever releases one. */
  lemma ReleasedOnlyAfterExpiry(cfg: Config, env: Env, schedule: seq<Action>, c: ContextId)
    requires var sys := Exec(env, schedule);
             var records := sys.world.store.books.records;
             AllUse(cfg, sys) && c in records && records[c].rail == Some(cfg.id) && !IsLive(records[c].state)
    ensures var sys := Exec(env, schedule);
            var r := sys.world.store.books.records[c];
            && r.failureReason.Some?
            && OutcomeShown(cfg, env, sys, c, EventBody.SettlementFailed(cfg.id, r.failureReason.value))
  {
    hide Exec, AllUse, Spent, Solvent, PcsOk, EventsOk, ChainOk, RecordFrom, ChainOf, WellFormed, OutcomeShown, Path,
      States;
    EveryInterleaving(env, schedule);
    var sys := Exec(env, schedule);
    var r := sys.world.store.books.records[c];
    assert ContextOk(sys.world, c);
    NotLiveMeansFailed(r);
    var chain := ChainOf(sys.world.history, c);
    var n := FailureHasEvent(chain);
    var k := EventOfChain(sys.world.history, c, chain[n]);
    RailOfOutcome(env, sys, k);
    OutcomesAreShown(cfg, env, schedule, k);
  }

  lemma RailOfOutcome(env: Env, sys: System, k: nat)
    requires EventsOk(env, sys) && k < |sys.world.history|
    requires sys.world.history[k].body.SettlementFailed?
    ensures var e := sys.world.history[k];
            e.ctx in sys.world.store.books.records && sys.world.store.books.records[e.ctx].rail == Some(e.body.rail)
  {
    var e := sys.world.history[k];
    assert EventOk(env, sys, e);
    var t :| t in sys.threads && Writes(env, sys.world.store.books.records, sys.threads[t].call, e);
  }

  // ----- retries -----

  lemma RecordedAccepts(
    cfg: Config, w: World, first: Call, paid: PaidToken, now: Time, later: Time, proof: Payload, e: PaymentExpectation)
    requires Presents(cfg, first, now, proof)
    requires Named(w.store.books) && ReplyOk(w, first.ctx, first, GotPaid(paid))
    requires EngineCalls.ProofSaid(first, e, paid.rail, paid.reference)
    ensures var asks := ExpectPayment(w.store.books.records[first.ctx]);
            var v := VerifyProof(cfg, later, proof, asks);
            v.Ok? && v.value.reference == paid.reference && paid.rail == cfg.id
  {
    hide VerifyProof;
    assert first.verify(e) == VerifyProof(cfg, now, proof, e);
    AcceptedForGood(cfg, now, proof, e, later, ExpectPayment(w.store.books.records[first.ctx]));
  }

  /** A recorded x402 payment is answered again whenever it is presented. In every
      interleaving, once the call that presented it has been told it is recorded, any call
      that starts with the same proof for the same context gets the same answer at its first
      step and writes nothing, at any reading of the rail's clock, long past `validBefore`
      included. */
  lemma PaymentRetriedAnytime(
    cfg: Config, env: Env, schedule: seq<Action>, s: nat, t: nat, now: Time, later: Time, proof: Payload)
    requires var sys := Exec(env, schedule);
             && s in sys.threads && sys.threads[s].pc.Done? && sys.threads[s].pc.reply.GotPaid?
             && t in sys.threads && sys.threads[t].pc.Start?
             && Presents(cfg, sys.threads[s].call, now, proof) && Presents(cfg, sys.threads[t].call, later, proof)
             && sys.threads[s].call.ctx == sys.threads[t].call.ctx
    ensures EngineCalls.AnswersNext(env, Exec(env, schedule), t, Exec(env, schedule).threads[s].pc.reply)
  {
    hide Exec, ContextsOk, Spent, Solvent, EventsOk, ReplyOk, VerifyProof, EngineCalls.AnswersNext,
      EngineCalls.ProofSaid;
    EveryInterleaving(env, schedule);
    var sys := Exec(env, schedule);
    var first, again := sys.threads[s].call, sys.threads[t].call;
    var paid := sys.threads[s].pc.reply.paid;
    assert PcOk(env, sys.world, first, sys.threads[s].pc);
    EngineCalls.PaidFromItsProof(env, schedule, s);
    var e: PaymentExpectation :| EngineCalls.ProofSaid(first, e, paid.rail, paid.reference);
    RecordedAccepts(cfg, sys.world, first, paid, now, later, proof, e);
    PaidHasRecord(sys.world, first, paid);
    EngineCalls.PaymentRetried(env, schedule, s, t);
  }

  lemma PaidHasRecord(w: World, call: Call, paid: PaidToken)
    requires call.RecordPayment? && ReplyOk(w, call.ctx, call, GotPaid(paid))
    ensures call.ctx in w.store.books.records
  {
  }

  // ----- an honest payment goes through -----

  lemma WorthOnce(atomic: nat, token: Asset, m: Money, n: Money)
    requires Worth(atomic, token, m) && Worth(atomic, token, n)
    ensures m == n
  {
    SameFactor(m.amount, n.amount, Pow10(token.decimals));
  }

  lemma HonestProofVerifies(
    cfg: Config, now: Time, proof: Payload, r: Record, reference: string, nonce: string, terms: Terms,
    auth: Authorization)
    requires PaysOn(cfg, now, proof, r.ctx, r.amount, r.merchant, reference, nonce, terms, auth)
    ensures VerifyProof(cfg, now, proof, ExpectPayment(r))
              == Ok(VerifiedProof(reference, nonce, r.amount, Some(r.ctx), None, Some(r.merchant)))
  {
    hide VerifyProof, Print, Identity, AccountId, Carries, ParseAddress, Worth;
    WorthOnce(auth.value, terms.token, terms.total, r.amount);
    var v := VerifiedProof(reference, nonce, r.amount, Some(r.ctx), None, Some(r.merchant));
    assert Proves(cfg, now, proof, ExpectPayment(r), terms, auth, v);
    VerifiesExactly(cfg, now, proof, ExpectPayment(r), v);
  }

  /** A payment its payer signed, of the authorized amount, to the authorized merchant, under
      the context's own nonce, in time, and not spent elsewhere, is recorded and answered. */
  lemma HonestPaymentPays(
    cfg: Config, env: Env, w: World, call: Call, now: Time, proof: Payload, reference: string, nonce: string,
    terms: Terms, auth: Authorization)
    requires WorldOk(w) && Presents(cfg, call, now, proof)
    requires call.ctx in w.store.books.records && w.store.books.records[call.ctx].state.Authorized?
    requires var r := w.store.books.records[call.ctx];
             PaysOn(cfg, now, proof, call.ctx, r.amount, r.merchant, reference, nonce, terms, auth)
    requires !AppendExact.Taken(w.store.books, call.ctx, (cfg.id, nonce))
    ensures RunCall(env, w, call, Start).1
              == GotPaid(PaidToken(call.ctx, cfg.id, reference, Idempotency(call.ctx, cfg.id, nonce)))
  {
    hide RunCall, VerifyProof, PaysOn, ContextsOk, Spent, Solvent, Append;
    var r := w.store.books.records[call.ctx];
    HonestProofVerifies(cfg, now, proof, r, reference, nonce, terms, auth);
    assert call.verify(ExpectPayment(r)) == VerifyProof(cfg, now, proof, ExpectPayment(r));
    EngineAnswers.CallsGetTheirDue(env, w, call);
  }
}
