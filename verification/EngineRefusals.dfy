/** Refusals: a call that says no says truly why, and changes nothing but the log. */
module EngineRefusals {
  import opened Prelude
  import opened Domain
  import opened Lifecycle
  import Patterns
  import opened Scopes
  import opened Events
  import opened Evidence
  import opened Bookkeeping
  import opened StoreRuns
  import opened WorldGrowth
  import opened Rails
  import opened Engine
  import opened EngineRuns

  /** What a mandate's scope says against a purchase. */
  predicate ScopeGrounds(call: Call, reason: DenyReason)
    requires call.Authorize?
  {
    var scope, claims := call.mandate.body.scope, call.cart.claims;
    match reason
    case MandateNotYetValid => call.now < scope.validFrom
    case MandateExpired => call.now > scope.validUntil
    case AttestationInsufficient => scope.minAttestation.MerchantLevel? && call.cart.attestation.AgentReported?
    case ScopeMerchantMismatch =>
      forall i :: 0 <= i < |scope.merchants| ==> !Patterns.Matches(scope.merchants[i], claims.merchant)
    case UnverifiableScope => scope.categories.Some? && claims.category.None?
    case ScopeCategoryMismatch =>
      scope.categories.Some? && claims.category.Some? && claims.category.value !in scope.categories.value
    case CurrencyDiffers =>
      claims.total.currency != scope.currency
      || (scope.maxPerTxn.Some? && scope.maxPerTxn.value.currency != scope.currency)
    case AmountInvalid => claims.total.amount < 0
    case ScopePerTxnExceeded => scope.maxPerTxn.Some? && claims.total.amount > scope.maxPerTxn.value.amount
    case _ => false
  }

  /** What the store's books, before the call, say against a new authorization. */
  predicate AuthorizeGrounds(env: Env, w: World, call: Call, reason: DenyReason)
    requires call.Authorize?
  {
    var ctx, b := CtxOf(env, call), w.store.books;
    var body, claims := call.mandate.body, call.cart.claims;
    var scope := body.scope;
    if ctx in b.records then
      var stored := AuthorizedMandate(ChainOf(w.store.events, ctx));
      match reason
      case MandateSignatureInvalid => !Verified(env, call.mandate)
      case InvalidState => stored.None? && IsTerminal(b.records[ctx].state)
      case ContextMismatch =>
        stored.Some? && !(stored.value.body == body && stored.value.signer == call.mandate.signer)
      case _ => false
    else
      match reason
      case MandateSignatureInvalid => !Verified(env, call.mandate)
      case MandateSignerUntrusted => !env.trusted(body.principal, call.mandate.signer)
      case MandateRevoked => body.id in b.revoked
      case ScopeTotalExceeded =>
        scope.maxTotal.Some? && Reserved(b, body.id) + claims.total.amount > scope.maxTotal.value.amount
      case VelocityExceeded =>
        scope.velocity.Some?
        && CountSince(TimesOf(b, body.id), SatSub(call.now, scope.velocity.value.windowSecs))
             >= scope.velocity.value.maxCount
      case _ => ScopeGrounds(call, reason)
  }

  function Reserved(b: Books, id: MandateId): int {
    if id in b.reserved then b.reserved[id].amount else 0
  }

  predicate PaymentGrounds(w: World, call: Call, reason: DenyReason)
    requires call.RecordPayment?
  {
    var b := w.store.books;
    if call.ctx !in b.records then reason == ContextNotFound
    else
      var r := b.records[call.ctx];
      match call.verify(PaymentExpectation(call.ctx, r.cartHash, r.amount, r.merchant, r.paymentReference))
      case Err(e) => e.InvalidProof? && reason == ProofInvalid
      case Ok(v) =>
        if !r.state.Authorized? then
          reason == InvalidState && !(r.rail == Some(call.railId) && r.paymentReference == Some(v.reference))
        else
          match reason
          case AmountMismatch => v.amount != r.amount
          case UnboundProof => v.boundCtx.None? && v.boundCart.None?
          case ContextBindingMismatch => v.boundCtx.Some? && v.boundCtx.value != call.ctx
          case CartBindingMismatch => v.boundCart.Some? && v.boundCart.value != r.cartHash
          case MerchantBindingMismatch => v.boundMerchant.Some? && v.boundMerchant.value != r.merchant
          case NonceAlreadyUsed => (call.railId, v.nonce) in b.nonces && b.nonces[(call.railId, v.nonce)] != call.ctx
          case _ => false
  }

  predicate SettlementGrounds(w: World, call: Call, reason: DenyReason)
    requires call.RecordSettlement?
  {
    var b := w.store.books;
    if call.ctx !in b.records then reason == ContextNotFound
    else
      var r := b.records[call.ctx];
      match reason
      case InvalidState => r.state.Authorized? || r.state.Expired?
      case RailMismatch => r.state.Paid? && r.rail != Some(call.railId)
      case FinalityInvalid =>
        && r.state.Paid? && r.rail == Some(call.railId) && r.paymentReference.Some?
        && call.finality(SettlementExpectation(call.ctx, r.paymentReference.value, r.amount, r.merchant))
             == Err(InvalidProof)
      case _ => false
  }

  /** The three calls that only move a context on need it to be in the state before, or to
      have been there already. */
  predicate MoveGrounds(w: World, ctx: ContextId, reason: DenyReason, from: PaymentState, to: PaymentState) {
    var b := w.store.books;
    if ctx !in b.records then reason == ContextNotFound
    else reason == InvalidState && b.records[ctx].state != from && b.records[ctx].state != to
  }

  /** `reason` is true of the call and of the store it found. */
  predicate Grounds(env: Env, w: World, call: Call, reason: DenyReason) {
    match call
    case Authorize(_, _, _, _) => AuthorizeGrounds(env, w, call, reason)
    case RecordPayment(_, _, _, _) => PaymentGrounds(w, call, reason)
    case RecordSettlement(_, _, _, _) => SettlementGrounds(w, call, reason)
    case Compensate(_, ctx, _) => MoveGrounds(w, ctx, reason, PaymentState.SettlementFailed, PaymentState.Compensated)
    case Expire(_, ctx) => MoveGrounds(w, ctx, reason, PaymentState.Authorized, PaymentState.Expired)
    case RecordDelivery(_, ctx, _) => MoveGrounds(w, ctx, reason, PaymentState.Settled, PaymentState.Delivered)
  }

  predicate Submitting(env: Env, w: World, call: Call, body: EventBody) {
    var ctx, b := CtxOf(env, call), w.store.books;
    match call
    case Authorize(_, mandate, cart, key) => ctx !in b.records && body == EventBody.Authorized(mandate, cart, key)
    case RecordPayment(_, _, railId, verify) =>
      && ctx in b.records && b.records[ctx].state.Authorized?
      && var r := b.records[ctx];
         var v := verify(PaymentExpectation(ctx, r.cartHash, r.amount, r.merchant, r.paymentReference));
         v.Ok? && body == PaidBody(ctx, railId, v.value)
    case _ => true
  }

  /** What an undisturbed call has established when it stands at `pc`, having written nothing. */
  predicate SoFar(env: Env, w: World, call: Call, pc: Pc) {
    var ctx, b := CtxOf(env, call), w.store.books;
    match pc
    case CheckRevoked => ctx !in b.records
    case Submit(body) => Submitting(env, w, call, body)
    case ReadAgain => false
    case Replay(rec) => ctx in b.records && rec == b.records[ctx]
    case Deny(reason) => Grounds(env, w, call, reason)
    case Done(reply) => !reply.Refused?
    case Start => true
  }

  lemma StartSoFar(env: Env, w: World, call: Call)
    ensures SoFar(env, w, call, StartCall(env, call, Get(w.store.books.records, CtxOf(env, call))))
  {
    hide Verified, ChainOf, AuthorizedMandate;
    match call
    case Authorize(_, _, _, _) =>
    case RecordPayment(_, _, _, _) =>
    case RecordSettlement(_, _, _, _) =>
    case _ =>
  }

  lemma RefusalGrounds(env: Env, w: World, call: Call, reason: DenyReason)
    requires call.Authorize?
    requires Refusal(call.mandate.body.scope, call.cart.claims, call.cart.attestation, call.now) == Some(reason)
    ensures ScopeGrounds(call, reason)
    ensures CtxOf(env, call) !in w.store.books.records ==> Grounds(env, w, call, reason)
  {
    hide Patterns.Matches, Verified, CountSince;
  }

  /** What the store answers to a submission it does not append. */
  lemma SubmitSoFar(env: Env, w: World, call: Call, body: EventBody)
    requires Submits(call, body) && SoFar(env, w, call, Submit(body))
    ensures var (w2, pc2) := StepCall(env, w, call, Submit(body));
            pc2.Done? || (w2 == w && SoFar(env, w, call, pc2))
  {
    hide ChainOf, Denials, AuthorizedMandate, Append, Grounds;
    var ctx := CtxOf(env, call);
    var r := Append(w.store, ctx, call.now, body).1;
    AppendEffect(w.store, ctx, call.now, body);
    assert w.history + [] == w.history;
    if call.Authorize? {
      AuthorizeAnswered(env, w, call, body);
    } else if call.RecordPayment? {
      PaymentAnswered(env, w, call, body);
    }
  }

  lemma AuthorizeAnswered(env: Env, w: World, call: Call, body: EventBody)
    requires call.Authorize? && body.Authorized? && SoFar(env, w, call, Submit(body))
    ensures var r := Append(w.store, CtxOf(env, call), call.now, body).1;
            match r
            case Ok(MandateRevoked) => Grounds(env, w, call, DenyReason.MandateRevoked)
            case Ok(VelocityExceeded(_)) => Grounds(env, w, call, DenyReason.VelocityExceeded)
            case Ok(BudgetExceeded(_)) => Grounds(env, w, call, ScopeTotalExceeded)
            case Err(e) => !e.IllegalTransition?
            case _ => true
  {
    hide ChainOf, Denials, CountSince, AuthorizedMandate, Verified, Note, Patterns.Matches;
  }

  lemma PaymentAnswered(env: Env, w: World, call: Call, body: EventBody)
    requires call.RecordPayment? && body.Paid? && SoFar(env, w, call, Submit(body))
    ensures Append(w.store, call.ctx, call.now, body).1 == Ok(AppendOutcome.NonceAlreadyUsed) ==>
              Grounds(env, w, call, DenyReason.NonceAlreadyUsed)
  {
    hide ChainOf, Denials, Commit, AuthorizedMandate;
  }

  /** How a refusal leaves the world: one more refusal in the log, or nothing at all. */
  predicate OnlyNoted(w: World, w2: World, ctx: ContextId, at: Time, stage: Stage, reason: DenyReason, recorded: bool) {
    if recorded then
      var e := NextEvent(w.store, ctx, at, EventBody.Denied(stage, reason));
      && w2.store.books == w.store.books
      && w2.store.events == w.store.events + [e] && w2.history == w.history + [e]
    else w2 == w && Denials(ChainOf(w.store.events, ctx)) >= DENIAL_CAP
  }

  lemma DenialNoted(env: Env, w: World, call: Call, reason: DenyReason)
    ensures var (w2, pc2) := StepCall(env, w, call, Deny(reason));
            && pc2.Done? && pc2.reply.Refused? && pc2.reply.ctx == CtxOf(env, call)
            && pc2.reply.stage == StageOf(call) && pc2.reply.reason == reason
            && OnlyNoted(w, w2, CtxOf(env, call), call.now, StageOf(call), reason, pc2.reply.recorded)
  {
    hide ChainOf;
    assert w.history + [] == w.history;
  }

  lemma {:induction false} RefusedFrom(env: Env, w: World, call: Call, pc: Pc)
    requires Fits(call, pc) && SoFar(env, w, call, pc)
    ensures var (w2, reply) := RunCall(env, w, call, pc);
            reply.Refused? ==>
              && reply.ctx == CtxOf(env, call) && reply.stage == StageOf(call)
              && Grounds(env, w, call, reply.reason)
              && OnlyNoted(w, w2, reply.ctx, call.now, reply.stage, reply.reason, reply.recorded)
    decreases Rank(pc)
  {
    hide StartCall, Append, Refusal, Grounds, OnlyNoted, Verified, ChainOf, AuthorizedMandate;
    match pc
    case Done(_) =>
    case Start =>
      StepsAdvance(env, w, call, pc);
      StartSoFar(env, w, call);
      RefusedFrom(env, w, call, StepCall(env, w, call, pc).1);
    case CheckRevoked =>
      RevocationSoFar(env, w, call);
      RefusedFrom(env, w, call, StepCall(env, w, call, pc).1);
    case Replay(rec) =>
      ReplaySoFar(env, w, call, rec);
      RefusedFrom(env, w, call, StepCall(env, w, call, pc).1);
    case Submit(body) => SubmitRefused(env, w, call, body);
    case Deny(reason) => DenialNoted(env, w, call, reason);
  }

  lemma RevocationSoFar(env: Env, w: World, call: Call)
    requires call.Authorize? && CtxOf(env, call) !in w.store.books.records
    ensures var (w2, pc2) := StepCall(env, w, call, CheckRevoked); w2 == w && SoFar(env, w, call, pc2)
  {
    hide Refusal, Patterns.Matches;
    var refusal := Refusal(call.mandate.body.scope, call.cart.claims, call.cart.attestation, call.now);
    if refusal.Some? {
      RefusalGrounds(env, w, call, refusal.value);
    }
  }

  lemma ReplaySoFar(env: Env, w: World, call: Call, rec: Record)
    requires call.Authorize? && SoFar(env, w, call, Replay(rec))
    ensures var (w2, pc2) := StepCall(env, w, call, Replay(rec)); w2 == w && SoFar(env, w, call, pc2)
  {
    hide ChainOf, AuthorizedMandate, Verified;
  }

  lemma SubmitRefused(env: Env, w: World, call: Call, body: EventBody)
    requires Submits(call, body) && SoFar(env, w, call, Submit(body))
    ensures var (w2, reply) := RunCall(env, w, call, Submit(body));
            reply.Refused? ==>
              && reply.ctx == CtxOf(env, call) && reply.stage == StageOf(call)
              && Grounds(env, w, call, reply.reason)
              && OnlyNoted(w, w2, reply.ctx, call.now, reply.stage, reply.reason, reply.recorded)
  {
    hide Append, AfterSubmit, AfterDenial, AppendWorld, Grounds, OnlyNoted, Verified, ChainOf, AuthorizedMandate;
    SubmitSoFar(env, w, call, body);
    var (w2, pc2) := StepCall(env, w, call, Submit(body));
    SubmitNeverRefusesItself(env, w, call, body);
    if pc2.Deny? {
      DenialNoted(env, w, call, pc2.reason);
    }
  }

  lemma SubmitNeverRefusesItself(env: Env, w: World, call: Call, body: EventBody)
    requires Submits(call, body)
    ensures var pc2 := StepCall(env, w, call, Submit(body)).1; pc2.Done? ==> !pc2.reply.Refused?
    ensures var pc2 := StepCall(env, w, call, Submit(body)).1; pc2.Done? || pc2.Deny? || pc2.ReadAgain?
  {
    hide Append;
  }

  /** A refusal is for a true reason, is recorded under the call's own stage unless the
      context already has its fill of refusals, and leaves every table as it was. */
  lemma RefusalsAreHonest(env: Env, w: World, call: Call)
    ensures var (w2, reply) := RunCall(env, w, call, Start);
            reply.Refused? ==>
              && reply.ctx == CtxOf(env, call) && reply.stage == StageOf(call)
              && Grounds(env, w, call, reply.reason)
              && OnlyNoted(w, w2, reply.ctx, call.now, reply.stage, reply.reason, reply.recorded)
  {
    hide RunCall, Grounds, OnlyNoted;
    RefusedFrom(env, w, call, Start);
  }

  // ----- among other calls -----

  /** `reason` is true of the store `w` that a call found when it stood at `pc`. */
  predicate TrueAt(env: Env, w: World, call: Call, pc: Pc, reason: DenyReason) {
    var ctx, b := CtxOf(env, call), w.store.books;
    match pc
    case Start => Grounds(env, w, call, reason)
    case CheckRevoked =>
      && call.Authorize?
      && if reason.MandateRevoked? then call.mandate.body.id in b.revoked else ScopeGrounds(call, reason)
    case ReadAgain => call.Authorize? && reason == MandateSignatureInvalid && !Verified(env, call.mandate)
    case Replay(rec) =>
      && call.Authorize?
      && var stored := AuthorizedMandate(ChainOf(w.store.events, ctx));
         if stored.None? then reason == InvalidState && IsTerminal(rec.state)
         else
           && reason == ContextMismatch
           && !(stored.value.body == call.mandate.body && stored.value.signer == call.mandate.signer)
    case Submit(body) =>
      if call.Authorize? then ctx !in b.records && AuthorizeGrounds(env, w, call, reason)
      else
        && reason.NonceAlreadyUsed? && body.Paid?
        && (body.rail, body.nonce) in b.nonces && b.nonces[(body.rail, body.nonce)] != ctx
    case _ => false
  }

  lemma SubmitDenied(env: Env, w: World, call: Call, body: EventBody)
    requires Submits(call, body)
    requires call.Authorize? ==> body == EventBody.Authorized(call.mandate, call.cart, call.requestKey)
    ensures var pc2 := StepCall(env, w, call, Submit(body)).1;
            pc2.Deny? ==> TrueAt(env, w, call, Submit(body), pc2.reason)
  {
    hide ChainOf, Denials, CountSince, AuthorizedMandate, Verified, Note, Patterns.Matches;
  }

  lemma StepDenied(env: Env, w: World, call: Call, pc: Pc)
    requires Fits(call, pc) && !pc.Deny?
    requires call.Authorize? && pc.Submit? ==> pc.body == EventBody.Authorized(call.mandate, call.cart, call.requestKey)
    ensures var pc2 := StepCall(env, w, call, pc).1; pc2.Deny? ==> TrueAt(env, w, call, pc, pc2.reason)
  {
    hide Append, StartCall, Refusal, Verified, AuthorizedMandate, ChainOf, AfterSubmit, Grounds, AuthorizeGrounds,
      ScopeGrounds;
    match pc
    case Start => StartSoFar(env, w, call);
    case Submit(body) => SubmitDenied(env, w, call, body);
    case CheckRevoked =>
      var refusal := Refusal(call.mandate.body.scope, call.cart.claims, call.cart.attestation, call.now);
      if refusal.Some? {
        RefusalGrounds(env, w, call, refusal.value);
        NotRevoked(call, refusal.value);
      }
    case _ =>
  }

  lemma NotRevoked(call: Call, reason: DenyReason)
    requires call.Authorize? && ScopeGrounds(call, reason)
    ensures !reason.MandateRevoked?
  {
  }

  /** At `i` the schedule moved call `t` to refusing for `reason`: at its own step, when the
      reason was true, or because the store turned its append down then. */
  predicate RefusedAt(env: Env, schedule: seq<Action>, t: nat, reason: DenyReason, i: nat) {
    && i < |schedule| && t in Exec(env, schedule[..i]).threads
    && var sys := Exec(env, schedule[..i]);
       || (schedule[i] == Go(t) && TrueAt(env, sys.world, sys.threads[t].call, sys.threads[t].pc, reason))
       || (schedule[i].TurnDown? && schedule[i].tid == t)
  }

  ghost predicate HasGrounds(env: Env, schedule: seq<Action>, t: nat, th: Thread) {
    match th.pc
    case Deny(reason) => exists i: nat :: RefusedAt(env, schedule, t, reason, i)
    case Done(reply) =>
      reply.Refused? ==>
        && reply.ctx == CtxOf(env, th.call) && reply.stage == StageOf(th.call)
        && exists i: nat :: RefusedAt(env, schedule, t, reply.reason, i)
    case _ => true
  }

  lemma GroundsStay(env: Env, schedule: seq<Action>, t: nat, th: Thread)
    requires schedule != [] && HasGrounds(env, DropLast(schedule), t, th)
    ensures HasGrounds(env, schedule, t, th)
  {
    hide Exec, TrueAt;
    var front := DropLast(schedule);
    forall reason: DenyReason, i: nat | RefusedAt(env, front, t, reason, i)
      ensures RefusedAt(env, schedule, t, reason, i)
    {
      assert schedule[..i] == front[..i];
    }
  }

  lemma GoGrounds(env: Env, schedule: seq<Action>, t: nat)
    requires schedule != [] && Last(schedule) == Go(t) && t in Exec(env, DropLast(schedule)).threads
    requires HasGrounds(env, DropLast(schedule), t, Exec(env, DropLast(schedule)).threads[t])
    ensures HasGrounds(env, schedule, t, Act(env, Exec(env, DropLast(schedule)), Go(t)).threads[t])
  {
    hide Exec, TrueAt, StepCall, WorldOk, EventsOk, Verified, RefusedAt, Fits, Admits;
    var front := DropLast(schedule);
    assert schedule[..|front|] == front;
    var sys := Exec(env, front);
    var th := sys.threads[t];
    EveryInterleaving(env, front);
    assert PcOk(env, sys.world, th.call, th.pc);
    GroundsStay(env, schedule, t, th);
    var pc2 := StepCall(env, sys.world, th.call, th.pc).1;
    if th.pc.Deny? {
      DenialNoted(env, sys.world, th.call, th.pc.reason);
    } else if th.pc.Done? {
      DoneIsDone(env, sys.world, th.call, th.pc);
    } else {
      SubmitsItself(env, sys.world, th.call, th.pc);
      StepDenied(env, sys.world, th.call, th.pc);
      NotRefusedYet(env, sys.world, th.call, th.pc);
      if pc2.Deny? {
        RefusedHere(env, schedule, t, pc2.reason);
      }
    }
  }

  lemma SubmitsItself(env: Env, w: World, call: Call, pc: Pc)
    requires Fits(call, pc) && PcOk(env, w, call, pc)
    ensures call.Authorize? && pc.Submit? ==>
              pc.body == EventBody.Authorized(call.mandate, call.cart, call.requestKey)
  {
    hide Verified, Admits;
  }

  lemma RefusedHere(env: Env, schedule: seq<Action>, t: nat, reason: DenyReason)
    requires schedule != [] && t in Exec(env, DropLast(schedule)).threads
    requires var sys := Exec(env, DropLast(schedule));
             || (Last(schedule) == Go(t) && TrueAt(env, sys.world, sys.threads[t].call, sys.threads[t].pc, reason))
             || (Last(schedule).TurnDown? && Last(schedule).tid == t)
    ensures RefusedAt(env, schedule, t, reason, |schedule| - 1)
  {
    hide Exec, TrueAt;
    assert schedule[..|schedule| - 1] == DropLast(schedule);
  }

  lemma DoneIsDone(env: Env, w: World, call: Call, pc: Pc)
    requires Fits(call, pc) && pc.Done?
    ensures StepCall(env, w, call, pc).1 == pc
  {
  }

  lemma NotRefusedYet(env: Env, w: World, call: Call, pc: Pc)
    requires Fits(call, pc) && !pc.Deny? && !pc.Done?
    ensures var pc2 := StepCall(env, w, call, pc).1; pc2.Done? ==> !pc2.reply.Refused?
  {
    hide Append, Refusal, Verified, AuthorizedMandate, ChainOf, BindingFault;
  }

  /** Every answer but an append moves a call on without a step of its own. */
  lemma AnswerGrounds(env: Env, call: Call, pc: Pc, r: Result<AppendOutcome, StoreError>)
    requires Fits(call, pc)
    ensures var pc2 := Answered(env, call, pc, r);
            && (pc.Submit? && pc2.Done? ==> !pc2.reply.Refused?)
            && (pc.Deny? ==> pc2.Done? && (pc2.reply.Refused? ==>
                  && pc2.reply.ctx == CtxOf(env, call) && pc2.reply.stage == StageOf(call)
                  && pc2.reply.reason == pc.reason))
            && (!pc.Submit? && !pc.Deny? ==> pc2 == pc)
            && (r == Err(Backend) && pc.Submit? ==> !pc2.Deny?)
  {
  }

  lemma AnsweredGrounds(env: Env, schedule: seq<Action>, t: nat, r: Result<AppendOutcome, StoreError>)
    requires schedule != [] && t in Exec(env, DropLast(schedule)).threads
    requires Last(schedule) == TurnDown(t, r) || (Last(schedule) == LoseAnswer(t) && r == Err(Backend))
    requires HasGrounds(env, DropLast(schedule), t, Exec(env, DropLast(schedule)).threads[t])
    ensures var th := Exec(env, DropLast(schedule)).threads[t];
            HasGrounds(env, schedule, t, th.(pc := Answered(env, th.call, th.pc, r)))
  {
    hide Exec, TrueAt, Answered, RefusedAt, Fits;
    var th := Exec(env, DropLast(schedule)).threads[t];
    GroundsStay(env, schedule, t, th);
    AnswerGrounds(env, th.call, th.pc, r);
    var pc2 := Answered(env, th.call, th.pc, r);
    if pc2.Deny? && th.pc.Submit? {
      RefusedHere(env, schedule, t, pc2.reason);
    }
  }

  /** In every interleaving, a call that ends refused is refused under its own context and
      stage, for a reason that was true of the store at the very step that decided it, unless
      it was the store that turned its append down. */
  lemma {:induction false} RefusalsWereTrue(env: Env, schedule: seq<Action>, t: nat)
    requires t in Exec(env, schedule).threads
    ensures HasGrounds(env, schedule, t, Exec(env, schedule).threads[t])
  {
    hide HasGrounds, StepCall, Step, Answered, SystemOk;
    if schedule == [] {
      assert false;
    } else {
      var front, a := DropLast(schedule), Last(schedule);
      var sys := Exec(env, front);
      if t in sys.threads {
        RefusalsWereTrue(env, front, t);
        if a == Go(t) {
          GoGrounds(env, schedule, t);
        } else if a.TurnDown? && a.tid == t && !IsAppended(a.answer) {
          AnsweredGrounds(env, schedule, t, a.answer);
        } else if a == LoseAnswer(t) {
          AnsweredGrounds(env, schedule, t, Err(Backend));
        } else {
          GroundsStay(env, schedule, t, sys.threads[t]);
        }
      } else {
        NothingYet(env, schedule, t, Exec(env, schedule).threads[t].call);
      }
    }
  }

  lemma NothingYet(env: Env, schedule: seq<Action>, t: nat, call: Call)
    ensures HasGrounds(env, schedule, t, Thread(call, Start))
  {
  }
}
