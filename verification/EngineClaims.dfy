/** What callers of the engine may rely on, whatever else runs at the same time. */
module EngineClaims {
  import opened Prelude
  import opened Domain
  import opened Lifecycle
  import opened Scopes
  import opened Events
  import opened Evidence
  import opened StoreRuns
  import opened StoreClaims
  import opened WorldGrowth
  import opened Rails
  import opened Engine
  import opened EngineRuns

  /** Every interleaving is a run of the store, by operations that reserve no negative
      amount; so every claim about such runs holds of every interleaving. */
  lemma {:induction false} InterleavingIsRun(env: Env, schedule: seq<Action>)
    ensures Exec(env, schedule).world == Run(START, Trace(env, schedule))
    ensures forall i :: 0 <= i < |Trace(env, schedule)| ==> Chargeable(Trace(env, schedule)[i])
  {
    hide Act, Step, Chargeable, OpOfAction;
    if schedule != [] {
      var front := DropLast(schedule);
      InterleavingIsRun(env, front);
      ActIsStep(env, front, Last(schedule));
      var op := OpOfAction(env, Exec(env, front), Last(schedule));
      if op.Some? {
        SnocParts(Trace(env, front), op.value);
      }
    }
  }

  lemma ActIsStep(env: Env, schedule: seq<Action>, a: Action)
    ensures var sys := Exec(env, schedule);
            var op := OpOfAction(env, sys, a);
            var w := Act(env, sys, a).world;
            if op.Some? then Chargeable(op.value) && w == Step(sys.world, op.value) else w == sys.world
  {
    hide StepCall, Step, Answered, Exec, OpOf;
    if (a.Go? || a.LoseAnswer?) && a.tid in Exec(env, schedule).threads {
      GoIsStep(env, schedule, a.tid);
    }
  }

  lemma GoIsStep(env: Env, schedule: seq<Action>, tid: nat)
    requires tid in Exec(env, schedule).threads
    ensures var sys := Exec(env, schedule);
            var op := OpOf(env, sys.threads[tid].call, sys.threads[tid].pc);
            var w := StepCall(env, sys.world, sys.threads[tid].call, sys.threads[tid].pc).0;
            if op.Some? then Chargeable(op.value) && w == Step(sys.world, op.value) else w == sys.world
  {
    hide StepCall, Step, Chargeable, PcOk, Exec, EventsOk, WorldOk;
    EveryInterleaving(env, schedule);
    var sys := Exec(env, schedule);
    var th := sys.threads[tid];
    if OpOf(env, th.call, th.pc).Some? {
      OpIsChargeable(env, sys.world, th.call, th.pc);
    } else {
      StepWithoutOp(env, sys.world, th.call, th.pc);
    }
  }

  // ----- authorize races -----

  lemma {:induction false} MandateEvent(chain: seq<Event>) returns (k: nat)
    requires AuthorizedMandate(chain).Some?
    ensures k < |chain| && chain[k].body.Authorized? && AuthorizedMandate(chain) == Some(chain[k].body.mandate)
    decreases |chain|
  {
    if chain[0].body.Authorized? {
      k := 0;
    } else {
      k := MandateEvent(chain[1..]);
      k := k + 1;
    }
  }

  /** When calls race to authorize one context, every caller told yes holds the same token,
      and presented exactly the mandate body and signer of the one `Authorized` event that
      the context's history holds. */
  lemma AuthorizeRace(env: Env, schedule: seq<Action>, s: nat, t: nat)
    requires var threads := Exec(env, schedule).threads;
             && s in threads && threads[s].pc.Done? && threads[s].pc.reply.GotAuthorized?
             && t in threads && threads[t].pc.Done? && threads[t].pc.reply.GotAuthorized?
             && CtxOf(env, threads[s].call) == CtxOf(env, threads[t].call)
    ensures var threads := Exec(env, schedule).threads;
            var h := Exec(env, schedule).world.history;
            && threads[s].pc.reply == threads[t].pc.reply
            && (exists i :: 0 <= i < |h| && OnlyAt(h, i)
                  && AuthorizedAs(h[i], CtxOf(env, threads[s].call), threads[s].call, threads[t].call))
  {
    hide Exec, WorldOk, EventsOk, AuthorizedMandate, ChainOf;
    EveryInterleaving(env, schedule);
    var sys := Exec(env, schedule);
    assert PcOk(env, sys.world, sys.threads[s].call, sys.threads[s].pc);
    assert PcOk(env, sys.world, sys.threads[t].call, sys.threads[t].pc);
    OnlyAuthorization(sys.world, CtxOf(env, sys.threads[s].call), sys.threads[s].call, sys.threads[t].call);
  }

  predicate AuthorizedAs(e: Event, ctx: ContextId, a: Call, b: Call) {
    && e.ctx == ctx && e.body.Authorized? && a.Authorize? && b.Authorize?
    && e.body.mandate.body == a.mandate.body == b.mandate.body
    && e.body.mandate.signer == a.mandate.signer == b.mandate.signer
  }

  /** The authorization at `i` is its context's only one. */
  ghost predicate OnlyAt(h: seq<Event>, i: nat)
    requires i < |h|
  {
    forall j :: 0 <= j < |h| && h[j].body.Authorized? && h[j].ctx == h[i].ctx ==> j == i
  }

  lemma OnlyAuthorization(w: World, ctx: ContextId, a: Call, b: Call)
    requires WorldOk(w) && MandateOf(w, ctx).Some? && a.Authorize? && b.Authorize?
    requires MandateOf(w, ctx).value.body == a.mandate.body == b.mandate.body
    requires MandateOf(w, ctx).value.signer == a.mandate.signer == b.mandate.signer
    ensures exists i :: 0 <= i < |w.history| && OnlyAt(w.history, i) && AuthorizedAs(w.history[i], ctx, a, b)
  {
    hide ContextsOk, Solvent, AuthorizedMandate, ChainOf, AuthorizationsKept, PaymentsKept, PaymentsDistinct;
    var chain := ChainOf(w.history, ctx);
    var k := MandateEvent(chain);
    ChainOfMember(w.history, ctx, chain[k]);
    var i :| 0 <= i < |w.history| && w.history[i] == chain[k];
    assert AuthorizedAs(w.history[i], ctx, a, b);
    assert OnlyAt(w.history, i) by {
      forall j | 0 <= j < |w.history| && w.history[j].body.Authorized? && w.history[j].ctx == w.history[i].ctx
        ensures j == i
      {
        assert i < j ==> !SameAuthorization(w.history[i], w.history[j]);
        assert j < i ==> !SameAuthorization(w.history[j], w.history[i]);
      }
    }
  }

  /** After a revocation no interleaving authorizes anything more under the mandate. */
  lemma {:induction false} RevocationHolds(env: Env, before: seq<Action>, after: seq<Action>, m: MandateId)
    requires m in Exec(env, before).world.store.books.revoked
    ensures m in Exec(env, before + after).world.store.books.revoked
    ensures TimesUnder(Exec(env, before + after).world.history, m) == TimesUnder(Exec(env, before).world.history, m)
    decreases |after|
  {
    hide Act, Step, TimesUnder, OpOfAction;
    if after == [] {
      assert before + after == before;
    } else {
      var front := DropLast(after);
      RevocationHolds(env, before, front, m);
      assert before + after == (before + front) + [Last(after)];
      SnocParts(before + front, Last(after));
      var sys := Exec(env, before + front);
      ActIsStep(env, before + front, Last(after));
      var op := OpOfAction(env, sys, Last(after));
      if op.Some? {
        OneStepRevoked(sys.world, op.value, m);
      }
    }
  }

  lemma OneStepRevoked(w: World, op: Op, m: MandateId)
    requires m in w.store.books.revoked
    ensures m in Step(w, op).store.books.revoked
    ensures TimesUnder(Step(w, op).history, m) == TimesUnder(w.history, m)
  {
    hide Step, TimesUnder;
    RevokedForGood(w, [op], m);
    assert DropLast([op]) == [] && Last([op]) == op;
    assert Run(w, []) == w;
    assert Run(w, [op]) == Step(w, op);
  }

  // ----- payments and settlements -----

  /** Some call presented this very authorization, under a mandate that is validly signed by a
      trusted signer, for a purchase in its scope when the call's clock was read. */
  ghost predicate GrantedBy(env: Env, call: Call, body: EventBody) {
    && call.Authorize? && body == EventBody.Authorized(call.mandate, call.cart, call.requestKey)
    && Verified(env, call.mandate) && env.trusted(call.mandate.body.principal, call.mandate.signer)
    && InScope(call.mandate.body.scope, call.cart.claims, call.cart.attestation, call.now)
  }

  /** In every interleaving, whatever is authorized was asked for by a call and is in scope. */
  lemma AuthorizationsAreInScope(env: Env, schedule: seq<Action>, i: nat)
    requires var h := Exec(env, schedule).world.history; i < |h| && h[i].body.Authorized?
    ensures var sys := Exec(env, schedule);
            var e := sys.world.history[i];
            exists t :: t in sys.threads && CtxOf(env, sys.threads[t].call) == e.ctx
              && GrantedBy(env, sys.threads[t].call, e.body)
  {
    hide Exec, WorldOk, PcsOk, Verified, Admits, InScope;
    EveryInterleaving(env, schedule);
    var sys := Exec(env, schedule);
    var e := sys.world.history[i];
    assert EventOk(env, sys, e);
    var t :| t in sys.threads && Writes(env, sys.world.store.books.records, sys.threads[t].call, e);
    var call := sys.threads[t].call;
    AdmitsExactly(call.mandate.body.scope, call.cart.claims, call.cart.attestation, call.now);
    assert GrantedBy(env, call, e.body);
  }

  /** Under any interleaving a context's payment is for exactly the authorized cart's total, and
      is keyed to its own context, rail and nonce. */
  lemma PaymentsAreWhatWasAuthorized(env: Env, schedule: seq<Action>, i: nat, j: nat)
    requires var h := Exec(env, schedule).world.history;
             i < |h| && j < |h| && h[i].ctx == h[j].ctx && h[i].body.Authorized? && h[j].body.Paid?
    ensures var h := Exec(env, schedule).world.history;
            && h[j].body.amount == h[i].body.cart.claims.total
            && h[j].body.idempotencyKey == Idempotency(h[j].ctx, h[j].body.rail, h[j].body.nonce)
  {
    hide Exec, ContextsOk, Solvent, PcsOk, PaymentsKept, PaymentsDistinct, AuthorizationsDistinct;
    EveryInterleaving(env, schedule);
    var sys := Exec(env, schedule);
    assert EventOk(env, sys, sys.world.history[j]);
  }

  /** `call` asked its rail about a proof for the purchase in `auth`, and `paid` records what
      the rail verified: the purchase's amount, bound to its context or its cart, and to no
      other context, cart or merchant. */
  predicate ProvenBy(call: Call, auth: Event, paid: Event) {
    && auth.body.Authorized? && paid.body.Paid?
    && call.RecordPayment? && call.ctx == paid.ctx && call.now == paid.at && call.railId == paid.body.rail
    && var cart := auth.body.cart;
       var proof := call.verify(PaymentExpectation(paid.ctx, cart.hash, cart.claims.total, cart.claims.merchant, None));
       && proof.Ok?
       && var v := proof.value;
          && v.amount == cart.claims.total == paid.body.amount
          && v.reference == paid.body.reference && v.nonce == paid.body.nonce
          && (v.boundCtx == Some(paid.ctx) || v.boundCart == Some(cart.hash))
          && (v.boundCtx.Some? ==> v.boundCtx.value == paid.ctx)
          && (v.boundCart.Some? ==> v.boundCart.value == cart.hash)
          && (v.boundMerchant.Some? ==> v.boundMerchant.value == cart.claims.merchant)
  }

  /** In every interleaving, each payment was proven by the call that recorded it. */
  lemma PaymentsWereProven(env: Env, schedule: seq<Action>, i: nat, j: nat)
    requires var h := Exec(env, schedule).world.history;
             i < |h| && j < |h| && h[i].ctx == h[j].ctx && h[i].body.Authorized? && h[j].body.Paid?
    ensures var sys := Exec(env, schedule);
            exists t :: t in sys.threads
              && ProvenBy(sys.threads[t].call, sys.world.history[i], sys.world.history[j])
  {
    hide Exec, ContextsOk, Solvent, PcsOk, PaymentsKept, PaymentsDistinct, AuthorizationsDistinct;
    EveryInterleaving(env, schedule);
    var sys := Exec(env, schedule);
    var e := sys.world.history[j];
    assert EventOk(env, sys, e);
    var t :| t in sys.threads && Writes(env, sys.world.store.books.records, sys.threads[t].call, e);
    assert ProvenBy(sys.threads[t].call, sys.world.history[i], e);
  }

  predicate IsSettlement(body: EventBody) {
    body.Settled? || body.SettlementFailed?
  }

  function RailOf(body: EventBody): string
    requires body.Paid? || IsSettlement(body)
  {
    body.rail
  }

  lemma SettlementsAnswerThePayment(env: Env, schedule: seq<Action>, i: nat, j: nat, k: nat)
    requires var h := Exec(env, schedule).world.history;
             && i < |h| && j < |h| && k < |h| && h[i].ctx == h[j].ctx == h[k].ctx
             && h[i].body.Authorized? && h[j].body.Paid? && IsSettlement(h[k].body)
    ensures var sys := Exec(env, schedule);
            var h := sys.world.history;
            && RailOf(h[k].body) == RailOf(h[j].body)
            && exists t :: t in sys.threads && AnsweredBy(sys.threads[t].call, h[i], h[j], h[k])
  {
    hide Exec, ContextsOk, Solvent, PcsOk, PaymentsDistinct, AuthorizationsDistinct;
    EveryInterleaving(env, schedule);
    var sys := Exec(env, schedule);
    var e := sys.world.history[k];
    assert EventOk(env, sys, e);
    var t :| t in sys.threads && Writes(env, sys.world.store.books.records, sys.threads[t].call, e);
    assert AnsweredBy(sys.threads[t].call, sys.world.history[i], sys.world.history[j], e);
  }

  /** `call` asked its rail about the payment in `paid`, for the purchase in `auth`, and
      `outcome` is what the rail said. */
  predicate AnsweredBy(call: Call, auth: Event, paid: Event, outcome: Event) {
    && auth.body.Authorized? && paid.body.Paid?
    && call.RecordSettlement? && call.ctx == outcome.ctx && call.railId == paid.body.rail
    && match call.finality(SettlementExpectation(outcome.ctx, paid.body.reference,
                                                 auth.body.cart.claims.total, auth.body.cart.claims.merchant))
       case Ok(Final(reference)) => outcome.body == EventBody.Settled(paid.body.rail, reference)
       case Ok(Failed(cause)) => outcome.body == EventBody.SettlementFailed(paid.body.rail, cause)
       case _ => false
  }

  /** The stage a refusal is recorded under is that of the step the call would have made. */
  lemma StagesTell(call: Call, body: EventBody)
    ensures Submits(call, body) <==>
            match StageOf(call)
            case Authorize => body.Authorized?
            case Payment => body.Paid?
            case Settlement => body.Settled? || body.SettlementFailed?
            case Compensation => body.Compensated?
            case Delivery => body.Delivered?
            case Expiry => body.Expired?
  {
  }

  /** The derivation tells its arguments apart. */
  ghost predicate Injective(derive: (MandateId, Digest, string) -> ContextId) {
    forall m, c, k, m2, c2, k2 :: derive(m, c, k) == derive(m2, c2, k2) ==> m == m2 && c == c2 && k == k2
  }

  /** A purchase attempt is its mandate, its cart and its request key: calls to authorize are
      for one context exactly when they agree on all three, if the derivation tells them apart. */
  lemma AttemptsAreContexts(env: Env, a: Call, b: Call)
    requires Injective(env.derive) && a.Authorize? && b.Authorize?
    ensures CtxOf(env, a) == CtxOf(env, b) <==>
            a.mandate.body.id == b.mandate.body.id && a.cart.hash == b.cart.hash && a.requestKey == b.requestKey
  {
  }

  /** Every interleaving leaves each context on one of the three lives. */
  lemma LivesAreLawful(env: Env, schedule: seq<Action>, c: ContextId)
    ensures var life := States(ChainOf(Exec(env, schedule).world.history, c));
            life <= DELIVERY || life <= FAILURE || life <= LAPSE
  {
    hide Exec, Spent, Solvent, PcsOk, EventsOk, Named, States, ChainOf, RecordFrom;
    EveryInterleaving(env, schedule);
    assert ContextOk(Exec(env, schedule).world, c);
    PathShapes(States(ChainOf(Exec(env, schedule).world.history, c)));
  }
}
