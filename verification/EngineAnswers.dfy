/** Exactly what each call does when nothing comes between its steps: the condition on the
    call and the store under which it is granted, what it then writes and what it is told, and
    which of several reasons it is refused for. */
module EngineAnswers {
  import opened Prelude
  import opened Domain
  import Patterns
  import opened Scopes
  import opened Events
  import opened Evidence
  import opened Bookkeeping
  import opened StoreRuns
  import opened StoreClaims
  import opened WorldGrowth
  import opened AppendExact
  import opened Rails
  import opened Engine
  import opened EngineRuns
  import opened EngineCalls
  import opened EngineRefusals

  /** What a call is due: a refusal, word that the rail or money arithmetic failed, an answer
      already on record, or an event of its own. */
  datatype Due = No | Outage | BadSum | Told(reply: Reply) | Written(body: EventBody, reply: Reply)

  // ----- what is due -----

  /** A mandate whose scope is in order, and which is signed. */
  predicate Authentic(env: Env, m: Mandate) {
    Sound(m.body.scope) && env.signed(m)
  }

  ghost function DueAuthorize(env: Env, w: World, call: Call): Due
    requires call.Authorize?
  {
    var ctx, b := CtxOf(env, call), w.store.books;
    var body := EventBody.Authorized(call.mandate, call.cart, call.requestKey);
    if !Authentic(env, call.mandate) then No
    else if ctx in b.records then
      var r, stored := b.records[ctx], AuthorizedMandate(ChainOf(w.store.events, ctx));
      if stored.Some? && stored.value.body == call.mandate.body && stored.value.signer == call.mandate.signer then
        Told(GotAuthorized(AuthorizedToken(ctx, r.mandateId, r.cartHash, r.merchant, r.amount)))
      else No
    else if || !env.trusted(call.mandate.body.principal, call.mandate.signer) || call.mandate.body.id in b.revoked
            || !InScope(call.mandate.body.scope, call.cart.claims, call.cart.attestation, call.now)
            || RateFull(b, call.mandate, call.now) then No
    else if Unaddable(b, call.mandate, call.cart) || Incomparable(b, call.mandate, call.cart) then BadSum
    else if OverCap(b, call.mandate, call.cart) then No
    else
      Written(body, GotAuthorized(AuthorizedToken(ctx, call.mandate.body.id, call.cart.hash,
                                                  call.cart.claims.merchant, call.cart.claims.total)))
  }

  /** A proof pays for a context that is authorized, if it is bound to it and its nonce is
      free, and is answered again for the context that already recorded it. */
  function DuePayment(w: World, call: Call): Due
    requires call.RecordPayment?
  {
    var ctx, b := call.ctx, w.store.books;
    if ctx !in b.records then No
    else
      var r := b.records[ctx];
      var proof := call.verify(PaymentExpectation(ctx, r.cartHash, r.amount, r.merchant, r.paymentReference));
      if proof.Err? then if proof.error.Unavailable? then Outage else No
      else
        var v := proof.value;
        var key := Idempotency(ctx, call.railId, v.nonce);
        if r.state.Authorized? then
          if BoundTo(r, v) && !Taken(b, ctx, (call.railId, v.nonce)) then
            Written(EventBody.Paid(call.railId, v.reference, v.nonce, v.amount, key),
                    GotPaid(PaidToken(ctx, call.railId, v.reference, key)))
          else No
        else if r.rail == Some(call.railId) && r.paymentReference == Some(v.reference) && r.idempotencyKey.Some? then
          Told(GotPaid(PaidToken(ctx, call.railId, v.reference, r.idempotencyKey.value)))
        else No
  }

  function DueSettlement(w: World, call: Call): Due
    requires call.RecordSettlement?
  {
    var ctx, b := call.ctx, w.store.books;
    if ctx !in b.records then No
    else
      var r := b.records[ctx];
      if r.settlementReference.Some? then
        Told(GotSettlement(SettledNow(SettledToken(ctx, r.settlementReference.value))))
      else if r.failureReason.Some? then
        Told(GotSettlement(FailedNow(FailedToken(ctx, r.failureReason.value))))
      else if !r.state.Paid? || r.rail != Some(call.railId) || r.paymentReference.None? then No
      else
        match call.finality(SettlementExpectation(ctx, r.paymentReference.value, r.amount, r.merchant))
        case Err(e) => if e.Unavailable? then Outage else No
        case Ok(Pending) => Told(GotSettlement(StillPending))
        case Ok(Final(reference)) =>
          Written(EventBody.Settled(call.railId, reference), GotSettlement(SettledNow(SettledToken(ctx, reference))))
        case Ok(Failed(cause)) =>
          Written(EventBody.SettlementFailed(call.railId, cause), GotSettlement(FailedNow(FailedToken(ctx, cause))))
  }

  function DueMove(w: World, call: Call): Due
    requires call.Compensate? || call.Expire? || call.RecordDelivery?
  {
    if call.ctx !in w.store.books.records then No
    else
      var r := w.store.books.records[call.ctx];
      match call
      case Compensate(_, ctx, reference) =>
        if r.state.SettlementFailed? then Written(EventBody.Compensated(reference), GotCompensated(ctx))
        else if r.state.Compensated? then Told(GotCompensated(ctx)) else No
      case Expire(_, _) =>
        if r.state.Authorized? then Written(EventBody.Expired, GotExpired)
        else if r.state.Expired? then Told(GotExpired) else No
      case RecordDelivery(_, ctx, receipt) =>
        if r.state.Settled? then
          Written(EventBody.Delivered(receipt), GotDelivered(DeliveredToken(ctx, receipt.reference)))
        else if r.receiptReference.Some? then Told(GotDelivered(DeliveredToken(ctx, r.receiptReference.value)))
        else No
  }

  ghost function DueOf(env: Env, w: World, call: Call): Due {
    match call
    case Authorize(_, _, _, _) => DueAuthorize(env, w, call)
    case RecordPayment(_, _, _, _) => DuePayment(w, call)
    case RecordSettlement(_, _, _, _) => DueSettlement(w, call)
    case _ => DueMove(w, call)
  }

  /** A call that ended with `reply` in `w2` got what it was due in `w`. */
  ghost predicate Gets(env: Env, w: World, call: Call, due: Due, w2: World, reply: Reply) {
    match due
    case No => reply.Refused?
    case Outage => reply == RailUnavailable && w2 == w
    case BadSum => reply.StoreFailed? && reply.error.BadMoney? && w2 == w
    case Told(r) => reply == r && w2 == w
    case Written(body, r) =>
      && reply == r && w2 == AppendWorld(w, CtxOf(env, call), call.now, body)
      && IsAppended(Append(w.store, CtxOf(env, call), call.now, body).1)
  }

  // ----- the ends of a call -----

  lemma RunOf(env: Env, w: World, call: Call, pc: Pc)
    requires Fits(call, pc)
    ensures pc.Done? ==> RunCall(env, w, call, pc) == (w, pc.reply)
    ensures !pc.Done? ==>
              var (w2, pc2) := StepCall(env, w, call, pc); RunCall(env, w, call, pc) == RunCall(env, w2, call, pc2)
  {
    hide StepCall;
    if !pc.Done? {
      StepsAdvance(env, w, call, pc);
    }
  }

  lemma DenyEnds(env: Env, w: World, call: Call, reason: DenyReason)
    ensures var reply := RunCall(env, w, call, Deny(reason)).1; reply.Refused? && reply.reason == reason
  {
    hide Append, RunCall;
    DenialNoted(env, w, call, reason);
    RunOf(env, w, call, Deny(reason));
    var (w2, pc2) := StepCall(env, w, call, Deny(reason));
    RunOf(env, w2, call, pc2);
  }

  /** What an appended submission is told. */
  function ReplyTo(ctx: ContextId, call: Call, body: EventBody): Reply
    requires Submits(call, body)
  {
    match body
    case Authorized(_, _, _) =>
      GotAuthorized(AuthorizedToken(ctx, call.mandate.body.id, call.cart.hash, call.cart.claims.merchant,
                                    call.cart.claims.total))
    case Paid(rail, reference, _, _, key) => GotPaid(PaidToken(call.ctx, rail, reference, key))
    case Settled(_, reference) => GotSettlement(SettledNow(SettledToken(ctx, reference)))
    case SettlementFailed(_, cause) => GotSettlement(FailedNow(FailedToken(ctx, cause)))
    case Compensated(_) => GotCompensated(ctx)
    case Delivered(receipt) => GotDelivered(DeliveredToken(ctx, receipt.reference))
    case _ => GotExpired
  }

  lemma AppendedEnds(env: Env, w: World, call: Call, body: EventBody)
    requires Submits(call, body) && IsAppended(Append(w.store, CtxOf(env, call), call.now, body).1)
    ensures RunCall(env, w, call, Submit(body))
              == (AppendWorld(w, CtxOf(env, call), call.now, body), ReplyTo(CtxOf(env, call), call, body))
  {
    hide Append, RunCall, AppendWorld;
    RunOf(env, w, call, Submit(body));
    var (w2, pc2) := StepCall(env, w, call, Submit(body));
    RunOf(env, w2, call, pc2);
  }

  /** What the books leave a submission. */
  function DueSubmit(s: Store, ctx: ContextId, call: Call, body: EventBody): Due
    requires Submits(call, body)
  {
    if Clear(s, ctx, call.now, body) then Written(body, ReplyTo(ctx, call, body))
    else if && body.Authorized? && body.mandate.body.id !in s.books.revoked
            && !RateFull(s.books, body.mandate, call.now)
            && (Unaddable(s.books, body.mandate, body.cart) || Incomparable(s.books, body.mandate, body.cart)) then
      BadSum
    else No
  }

  lemma TurnedDownEnds(env: Env, w: World, call: Call, body: EventBody)
    requires Submits(call, body) && Solvent(w.store.books) && LegalStep(w.store.books, CtxOf(env, call), body)
    requires !IsAppended(Append(w.store, CtxOf(env, call), call.now, body).1)
    ensures var (w2, reply) := RunCall(env, w, call, Submit(body));
            Gets(env, w, call, DueSubmit(w.store, CtxOf(env, call), call, body), w2, reply)
  {
    hide Append, RunCall, Solvent, RateFull, Unaddable, Incomparable, OverCap, ClippedTo32, ChainOf, Applied;
    RunOf(env, w, call, Submit(body));
    BooksDecide(w.store, CtxOf(env, call), call.now, body);
    AppendEffect(w.store, CtxOf(env, call), call.now, body);
    assert w.history + [] == w.history;
    var (w2, pc2) := StepCall(env, w, call, Submit(body));
    if pc2.Deny? {
      DenyEnds(env, w2, call, pc2.reason);
    } else {
      RunOf(env, w2, call, pc2);
    }
  }

  /** A legal submission gets what the books allow. */
  lemma SubmitEnds(env: Env, w: World, call: Call, body: EventBody)
    requires Submits(call, body) && Solvent(w.store.books) && LegalStep(w.store.books, CtxOf(env, call), body)
    ensures var (w2, reply) := RunCall(env, w, call, Submit(body));
            Gets(env, w, call, DueSubmit(w.store, CtxOf(env, call), call, body), w2, reply)
  {
    hide Append, RunCall, AppendWorld, Solvent, Clear, Means, RateFull, Unaddable, Incomparable;
    BooksDecide(w.store, CtxOf(env, call), call.now, body);
    if IsAppended(Append(w.store, CtxOf(env, call), call.now, body).1) {
      AppendedEnds(env, w, call, body);
    } else {
      TurnedDownEnds(env, w, call, body);
    }
  }

  lemma StartRuns(env: Env, w: World, call: Call)
    ensures RunCall(env, w, call, Start)
              == RunCall(env, w, call, StartCall(env, call, Get(w.store.books.records, CtxOf(env, call))))
  {
    hide RunCall, StartCall;
    RunOf(env, w, call, Start);
  }

  // ----- call by call -----

  lemma AuthenticExactly(env: Env, m: Mandate)
    ensures Verified(env, m) <==> Authentic(env, m)
  {
    hide Fault, Sound;
    SoundExactly(m.body.scope);
  }

  lemma ReplayEnds(env: Env, w: World, call: Call)
    requires call.Authorize? && CtxOf(env, call) in w.store.books.records && WorldOk(w) && Authentic(env, call.mandate)
    ensures var (w2, reply) := RunCall(env, w, call, Replay(w.store.books.records[CtxOf(env, call)]));
            Gets(env, w, call, DueAuthorize(env, w, call), w2, reply)
  {
    hide RunCall, AuthorizedMandate, ChainOf, Authentic, Spent, Solvent, ContextsOk, Clear, InScope;
    var rec := w.store.books.records[CtxOf(env, call)];
    PrunedMeansOver(w, CtxOf(env, call));
    RunOf(env, w, call, Replay(rec));
    var (w2, pc2) := StepCall(env, w, call, Replay(rec));
    if pc2.Deny? {
      DenyEnds(env, w2, call, pc2.reason);
    } else {
      RunOf(env, w2, call, pc2);
    }
  }

  lemma NewEnds(env: Env, w: World, call: Call)
    requires call.Authorize? && CtxOf(env, call) !in w.store.books.records && WorldOk(w) && Authentic(env, call.mandate)
    requires env.trusted(call.mandate.body.principal, call.mandate.signer)
    ensures var (w2, reply) := RunCall(env, w, call, CheckRevoked);
            Gets(env, w, call, DueAuthorize(env, w, call), w2, reply)
  {
    hide RunCall, Authentic, Spent, Solvent, ContextsOk, InScope, Refusal, Gets, RateFull, Unaddable, Incomparable,
      OverCap, Append;
    var body := EventBody.Authorized(call.mandate, call.cart, call.requestKey);
    RunOf(env, w, call, CheckRevoked);
    AdmitsExactly(call.mandate.body.scope, call.cart.claims, call.cart.attestation, call.now);
    var (w2, pc2) := StepCall(env, w, call, CheckRevoked);
    if pc2.Deny? {
      DenyEnds(env, w, call, pc2.reason);
      RefusalGot(env, w, call, RunCall(env, w, call, pc2).0, RunCall(env, w, call, pc2).1);
    } else {
      SubmitEnds(env, w, call, body);
    }
  }

  lemma RefusalGot(env: Env, w: World, call: Call, w2: World, reply: Reply)
    requires reply.Refused?
    ensures Gets(env, w, call, No, w2, reply)
  {
  }

  lemma AuthorizeEnds(env: Env, w: World, call: Call)
    requires call.Authorize? && WorldOk(w)
    ensures var (w2, reply) := RunCall(env, w, call, Start);
            Gets(env, w, call, DueAuthorize(env, w, call), w2, reply)
  {
    hide RunCall, Authentic, Spent, Solvent, ContextsOk, InScope, Clear, AuthorizedMandate, ChainOf, Gets, Verified;
    StartRuns(env, w, call);
    AuthenticExactly(env, call.mandate);
    var pc := StartCall(env, call, Get(w.store.books.records, CtxOf(env, call)));
    match pc
    case Deny(reason) =>
      DenyEnds(env, w, call, reason);
      RefusalGot(env, w, call, RunCall(env, w, call, pc).0, RunCall(env, w, call, pc).1);
    case Replay(_) => ReplayEnds(env, w, call);
    case _ => NewEnds(env, w, call);
  }

  lemma PaymentEnds(env: Env, w: World, call: Call)
    requires call.RecordPayment? && WorldOk(w)
    ensures var (w2, reply) := RunCall(env, w, call, Start);
            Gets(env, w, call, DuePayment(w, call), w2, reply)
  {
    hide RunCall, Spent, Solvent, ContextsOk, BindingFault, BoundTo, Append;
    StartRuns(env, w, call);
    var pc := StartCall(env, call, Get(w.store.books.records, call.ctx));
    if call.ctx in w.store.books.records {
      RecordWellFormed(w, call.ctx);
      var r := w.store.books.records[call.ctx];
      var proof := call.verify(PaymentExpectation(call.ctx, r.cartHash, r.amount, r.merchant, r.paymentReference));
      assert r.(ctx := call.ctx) == r;
      if proof.Ok? {
        BindingExactly(r, proof.value);
      }
    }
    match pc
    case Deny(reason) => DenyEnds(env, w, call, reason);
    case Submit(body) => SubmitEnds(env, w, call, body);
    case _ => RunOf(env, w, call, pc);
  }

  lemma SettlementEnds(env: Env, w: World, call: Call)
    requires call.RecordSettlement? && WorldOk(w)
    ensures var (w2, reply) := RunCall(env, w, call, Start);
            Gets(env, w, call, DueSettlement(w, call), w2, reply)
  {
    hide RunCall, Spent, Solvent, ContextsOk, Append;
    StartRuns(env, w, call);
    var pc := StartCall(env, call, Get(w.store.books.records, call.ctx));
    if call.ctx in w.store.books.records {
      RecordWellFormed(w, call.ctx);
    }
    match pc
    case Deny(reason) => DenyEnds(env, w, call, reason);
    case Submit(body) => SubmitEnds(env, w, call, body);
    case _ => RunOf(env, w, call, pc);
  }

  lemma MoveEnds(env: Env, w: World, call: Call)
    requires (call.Compensate? || call.Expire? || call.RecordDelivery?) && WorldOk(w)
    ensures var (w2, reply) := RunCall(env, w, call, Start);
            Gets(env, w, call, DueMove(w, call), w2, reply)
  {
    hide RunCall, Spent, Solvent, ContextsOk, Append;
    StartRuns(env, w, call);
    var pc := StartCall(env, call, Get(w.store.books.records, call.ctx));
    if call.ctx in w.store.books.records {
      RecordWellFormed(w, call.ctx);
    }
    match pc
    case Deny(reason) => DenyEnds(env, w, call, reason);
    case Submit(body) => SubmitEnds(env, w, call, body);
    case _ => RunOf(env, w, call, pc);
  }

  /** An undisturbed call gets exactly what it is due: it is granted, refused or told of an
      outage or an overflow if and only if that is so, is told what its event or the record
      says, and writes that event or nothing. */
  lemma CallsGetTheirDue(env: Env, w: World, call: Call)
    requires WorldOk(w)
    ensures var (w2, reply) := RunCall(env, w, call, Start);
            Gets(env, w, call, DueOf(env, w, call), w2, reply)
  {
    hide RunCall, WorldOk, DueAuthorize, DuePayment, DueSettlement, DueMove, Gets;
    match call
    case Authorize(_, _, _, _) => AuthorizeEnds(env, w, call);
    case RecordPayment(_, _, _, _) => PaymentEnds(env, w, call);
    case RecordSettlement(_, _, _, _) => SettlementEnds(env, w, call);
    case _ => MoveEnds(env, w, call);
  }

  // ----- which reason -----

  /** The order in which reasons are looked for. */
  function Order(reason: DenyReason): nat {
    match reason
    case ContextNotFound => 0
    case MandateSignatureInvalid => 1
    case ProofInvalid => 2
    case InvalidState => 3
    case ContextMismatch => 4
    case MandateSignerUntrusted => 5
    case MandateRevoked => 6
    case MandateNotYetValid => 7
    case MandateExpired => 8
    case AttestationInsufficient => 9
    case ScopeMerchantMismatch => 10
    case UnverifiableScope => 11
    case ScopeCategoryMismatch => 12
    case CurrencyDiffers => 13
    case AmountInvalid => 14
    case ScopePerTxnExceeded => 15
    case VelocityExceeded => 16
    case ScopeTotalExceeded => 17
    case AmountMismatch => 18
    case UnboundProof => 19
    case ContextBindingMismatch => 20
    case CartBindingMismatch => 21
    case MerchantBindingMismatch => 22
    case NonceAlreadyUsed => 23
    case RailMismatch => 24
    case FinalityInvalid => 25
  }

  /** No reason that is looked for before `reason` is true. */
  ghost predicate NoneBefore(env: Env, w: World, call: Call, reason: DenyReason) {
    forall other :: Order(other) < Order(reason) ==> !Grounds(env, w, call, other)
  }

  lemma StartFirst(env: Env, w: World, call: Call)
    requires Named(w.store.books)
    ensures var pc := StartCall(env, call, Get(w.store.books.records, CtxOf(env, call)));
            pc.Deny? ==> NoneBefore(env, w, call, pc.reason)
  {
    hide Verified, ChainOf, AuthorizedMandate, CountSince;
    match call
    case Authorize(_, _, _, _) =>
    case RecordPayment(_, _, _, _) =>
    case RecordSettlement(_, _, _, _) =>
    case _ =>
  }

  lemma ReplayFirst(env: Env, w: World, call: Call)
    requires call.Authorize? && CtxOf(env, call) in w.store.books.records && Verified(env, call.mandate)
    ensures var pc := StepCall(env, w, call, Replay(w.store.books.records[CtxOf(env, call)])).1;
            pc.Deny? ==> NoneBefore(env, w, call, pc.reason)
  {
    hide Verified, ChainOf, AuthorizedMandate;
  }

  /** In a sound scope, the reason `admits` gives is the first that is true. */
  lemma ScopeFirst(call: Call, reason: DenyReason)
    requires call.Authorize? && Sound(call.mandate.body.scope)
    requires Refusal(call.mandate.body.scope, call.cart.claims, call.cart.attestation, call.now) == Some(reason)
    ensures forall other :: Order(other) < Order(reason) ==> !ScopeGrounds(call, other)
  {
    hide Patterns.Matches;
  }

  lemma NoScopeGrounds(call: Call)
    requires call.Authorize?
    requires InScope(call.mandate.body.scope, call.cart.claims, call.cart.attestation, call.now)
    ensures forall other :: !ScopeGrounds(call, other)
  {
    hide Patterns.Matches;
  }

  /** What has been settled of a new authorization before the scope is looked at. */
  predicate Cleared(env: Env, w: World, call: Call) {
    && call.Authorize? && CtxOf(env, call) !in w.store.books.records && Verified(env, call.mandate)
    && env.trusted(call.mandate.body.principal, call.mandate.signer)
  }

  lemma RevocationFirst(env: Env, w: World, call: Call)
    requires Cleared(env, w, call)
    ensures var pc := StepCall(env, w, call, CheckRevoked).1;
            pc.Deny? ==> NoneBefore(env, w, call, pc.reason)
  {
    hide Verified, Refusal, ScopeGrounds, CountSince, Sound;
    AuthenticExactly(env, call.mandate);
    var refusal := Refusal(call.mandate.body.scope, call.cart.claims, call.cart.attestation, call.now);
    NeverBeforeScope(call);
    if call.mandate.body.id !in w.store.books.revoked && refusal.Some? {
      ScopeFirst(call, refusal.value);
      RefusalGrounds(env, w, call, refusal.value);
      ScopeOrder(call, refusal.value);
    }
  }

  lemma NeverBeforeScope(call: Call)
    requires call.Authorize?
    ensures forall other :: Order(other) < 7 ==> !ScopeGrounds(call, other)
  {
    hide Patterns.Matches;
  }

  lemma ScopeOrder(call: Call, reason: DenyReason)
    requires call.Authorize? && ScopeGrounds(call, reason)
    ensures 7 <= Order(reason) <= 15
  {
    hide Patterns.Matches;
  }

  lemma SubmitFirst(env: Env, w: World, call: Call)
    requires Cleared(env, w, call) && Solvent(w.store.books) && call.mandate.body.id !in w.store.books.revoked
    requires InScope(call.mandate.body.scope, call.cart.claims, call.cart.attestation, call.now)
    ensures var pc := StepCall(env, w, call, Submit(EventBody.Authorized(call.mandate, call.cart, call.requestKey))).1;
            pc.Deny? ==> NoneBefore(env, w, call, pc.reason)
  {
    hide Verified, ScopeGrounds, Append, Solvent, InScope, Unaddable, Incomparable, OverCap, ClippedTo32, ChainOf,
      CountSince, AppendWorld;
    NoScopeGrounds(call);
    BooksDecide(w.store, CtxOf(env, call), call.now,
                EventBody.Authorized(call.mandate, call.cart, call.requestKey));
  }

  lemma PaymentFirst(env: Env, w: World, call: Call, body: EventBody)
    requires call.RecordPayment? && WorldOk(w)
    requires StartCall(env, call, Get(w.store.books.records, call.ctx)) == Submit(body)
    ensures var pc := StepCall(env, w, call, Submit(body)).1; pc.Deny? ==> NoneBefore(env, w, call, pc.reason)
  {
    hide Append, AppendWorld, ContextsOk, Spent, Solvent;
  }

  lemma DenyKeepsReason(env: Env, w: World, call: Call, reason: DenyReason)
    requires NoneBefore(env, w, call, reason)
    ensures var reply := RunCall(env, w, call, Deny(reason)).1;
            reply.Refused? && NoneBefore(env, w, call, reply.reason)
  {
    hide RunCall, NoneBefore;
    DenyEnds(env, w, call, reason);
  }

  /** A call that stands at `pc`, having written nothing, ends refused only for the first. */
  ghost predicate FirstFrom(env: Env, w: World, call: Call, pc: Pc)
    requires Fits(call, pc)
  {
    var reply := RunCall(env, w, call, pc).1; reply.Refused? ==> NoneBefore(env, w, call, reply.reason)
  }

  lemma NextFirst(env: Env, w: World, call: Call, pc: Pc)
    requires Fits(call, pc) && !pc.Done?
    requires var (w2, pc2) := StepCall(env, w, call, pc);
             match pc2
             case Deny(reason) => w2 == w && NoneBefore(env, w, call, reason)
             case Done(reply) => !reply.Refused?
             case _ => w2 == w && FirstFrom(env, w, call, pc2)
    ensures FirstFrom(env, w, call, pc)
  {
    hide RunCall, StepCall, NoneBefore;
    RunOf(env, w, call, pc);
    var (w2, pc2) := StepCall(env, w, call, pc);
    match pc2
    case Deny(reason) => DenyKeepsReason(env, w, call, reason);
    case Done(_) => RunOf(env, w2, call, pc2);
    case _ =>
  }

  lemma SubmitKeepsFirst(env: Env, w: World, call: Call, body: EventBody)
    requires Submits(call, body) && SoFar(env, w, call, Submit(body))
    requires var pc2 := StepCall(env, w, call, Submit(body)).1; pc2.Deny? ==> NoneBefore(env, w, call, pc2.reason)
    ensures FirstFrom(env, w, call, Submit(body))
  {
    hide StepCall, NoneBefore, FirstFrom, Grounds, Submitting, ChainOf;
    SubmitSoFar(env, w, call, body);
    SubmitNeverRefusesItself(env, w, call, body);
    NextFirst(env, w, call, Submit(body));
  }

  lemma NewKeepsFirst(env: Env, w: World, call: Call)
    requires Cleared(env, w, call) && Solvent(w.store.books)
    ensures FirstFrom(env, w, call, CheckRevoked)
  {
    hide NoneBefore, FirstFrom, Grounds, Verified, Solvent, Refusal, InScope, Append, AppendWorld;
    RevocationFirst(env, w, call);
    AdmitsExactly(call.mandate.body.scope, call.cart.claims, call.cart.attestation, call.now);
    var pc2 := StepCall(env, w, call, CheckRevoked).1;
    if pc2.Submit? {
      SubmitFirst(env, w, call);
      SubmitKeepsFirst(env, w, call, pc2.body);
    }
    NextFirst(env, w, call, CheckRevoked);
  }

  lemma ReplayKeepsFirst(env: Env, w: World, call: Call)
    requires call.Authorize? && CtxOf(env, call) in w.store.books.records && Verified(env, call.mandate)
    ensures FirstFrom(env, w, call, Replay(w.store.books.records[CtxOf(env, call)]))
  {
    hide NoneBefore, FirstFrom, Verified, ChainOf, AuthorizedMandate;
    ReplayFirst(env, w, call);
    NextFirst(env, w, call, Replay(w.store.books.records[CtxOf(env, call)]));
  }

  lemma OthersNeverDeny(env: Env, w: World, call: Call, body: EventBody)
    requires Submits(call, body) && !call.Authorize? && !call.RecordPayment?
    ensures !StepCall(env, w, call, Submit(body)).1.Deny?
  {
    hide Append;
  }

  lemma StartsAs(env: Env, w: World, call: Call)
    ensures var ctx := CtxOf(env, call);
            match StartCall(env, call, Get(w.store.books.records, ctx))
            case CheckRevoked => Cleared(env, w, call)
            case Replay(rec) =>
              ctx in w.store.books.records && rec == w.store.books.records[ctx] && call.Authorize?
              && Verified(env, call.mandate)
            case Submit(_) => !call.Authorize?
            case ReadAgain => false
            case Start => false
            case _ => true
  {
    hide Verified, BindingFault;
  }

  /** Of several reasons against an undisturbed call, the one it is refused for is true, and
      is the first in order that is. */
  lemma FirstReasonGiven(env: Env, w: World, call: Call)
    requires WorldOk(w)
    ensures var reply := RunCall(env, w, call, Start).1;
            reply.Refused? ==> Grounds(env, w, call, reply.reason) && NoneBefore(env, w, call, reply.reason)
  {
    hide RunCall, StartCall, NoneBefore, Grounds, ContextsOk, Spent, Solvent, Verified, Submitting, OnlyNoted;
    RefusalsAreHonest(env, w, call);
    StartRuns(env, w, call);
    StartsAs(env, w, call);
    StartSoFar(env, w, call);
    StartFirst(env, w, call);
    var pc := StartCall(env, call, Get(w.store.books.records, CtxOf(env, call)));
    match pc
    case Deny(reason) => DenyKeepsReason(env, w, call, reason);
    case Done(_) => RunOf(env, w, call, pc);
    case CheckRevoked => NewKeepsFirst(env, w, call);
    case Replay(_) => ReplayKeepsFirst(env, w, call);
    case Submit(body) =>
      if call.RecordPayment? {
        PaymentFirst(env, w, call, body);
      } else {
        OthersNeverDeny(env, w, call, body);
      }
      SubmitKeepsFirst(env, w, call, body);
    case _ =>
  }
}
