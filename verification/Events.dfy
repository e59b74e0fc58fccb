/** Hash-chained ledger events (ml-core: event, hash). */
module Events {
  import opened Prelude
  import opened Domain
  import opened Lifecycle
  import opened Scopes

  datatype Stage = Authorize | Payment | Settlement | Compensation | Delivery | Expiry

  datatype DeliveryReceipt = DeliveryReceipt(reference: string, attestation: Attestation)

  datatype EventBody =
    | Authorized(mandate: Mandate, cart: Cart, requestKey: string)
    | Denied(stage: Stage, reason: DenyReason)
    | Paid(rail: string, reference: string, nonce: string, amount: Money, idempotencyKey: Digest)
    | Settled(rail: string, reference: string)
    | SettlementFailed(rail: string, cause: string)
    | Compensated(compensation: Option<string>)
    | Delivered(receipt: DeliveryReceipt)
    | Expired

  /** `EventBody::resulting_state`. */
  function ResultingState(body: EventBody): Option<PaymentState> {
    match body
    case Authorized(_, _, _) => Some(PaymentState.Authorized)
    case Paid(_, _, _, _, _) => Some(PaymentState.Paid)
    case Settled(_, _) => Some(PaymentState.Settled)
    case SettlementFailed(_, _) => Some(PaymentState.SettlementFailed)
    case Compensated(_) => Some(PaymentState.Compensated)
    case Delivered(_) => Some(PaymentState.Delivered)
    case Expired => Some(PaymentState.Expired)
    case Denied(_, _) => None
  }

  /** A chain hash, as a free constructor over its preimage: equal hashes have
      equal preimages, and the anchor is no event's hash. */
  datatype Hash = Anchor | Chain(prev: Hash, seqNo: nat, ctx: ContextId, at: Time, body: EventBody)

  datatype Event = Event(
    seqNo: nat, ctx: ContextId, at: Time, prevHash: Hash, hash: Hash, body: EventBody)

  function ComputeHash(prev: Hash, seqNo: nat, ctx: ContextId, at: Time, body: EventBody): Hash {
    Hash.Chain(prev, seqNo, ctx, at, body)
  }

  function NewEvent(prev: Hash, seqNo: nat, ctx: ContextId, at: Time, body: EventBody): (e: Event)
    ensures HashValid(e)
  {
    Event(seqNo, ctx, at, prev, ComputeHash(prev, seqNo, ctx, at, body), body)
  }

  predicate HashValid(e: Event) {
    ComputeHash(e.prevHash, e.seqNo, e.ctx, e.at, e.body) == e.hash
  }

  // ----- logs -----

  /** The events of one context, in order. */
  function ChainOf(events: seq<Event>, ctx: ContextId): seq<Event> {
    if events == [] then []
    else if Last(events).ctx == ctx then ChainOf(DropLast(events), ctx) + [Last(events)]
    else ChainOf(DropLast(events), ctx)
  }

  /** The states a chain moves through, refusals left out. */
  function States(chain: seq<Event>): seq<PaymentState> {
    if chain == [] then []
    else
      match ResultingState(Last(chain).body)
      case None => States(DropLast(chain))
      case Some(s) => States(DropLast(chain)) + [s]
  }

  /** How many refusals a chain holds. */
  function Denials(chain: seq<Event>): nat {
    if chain == [] then 0
    else Denials(DropLast(chain)) + if Last(chain).body.Denied? then 1 else 0
  }

  /** The log without the contexts in `gone`. */
  function Without(events: seq<Event>, gone: set<ContextId>): seq<Event> {
    if events == [] then []
    else if Last(events).ctx in gone then Without(DropLast(events), gone)
    else Without(DropLast(events), gone) + [Last(events)]
  }

  lemma ChainOfSnoc(events: seq<Event>, e: Event, ctx: ContextId)
    ensures ChainOf(events + [e], ctx) ==
            if e.ctx == ctx then ChainOf(events, ctx) + [e] else ChainOf(events, ctx)
  {
    SnocParts(events, e);
  }

  lemma StatesSnoc(chain: seq<Event>, e: Event)
    ensures States(chain + [e]) ==
            match ResultingState(e.body) case None => States(chain) case Some(s) => States(chain) + [s]
  {
    SnocParts(chain, e);
  }

  lemma DenialsSnoc(chain: seq<Event>, e: Event)
    ensures Denials(chain + [e]) == Denials(chain) + if e.body.Denied? then 1 else 0
  {
    SnocParts(chain, e);
  }

  /** Every event is a refusal or a state change. */
  lemma {:induction false} ChainParts(chain: seq<Event>)
    ensures |chain| == Denials(chain) + |States(chain)|
  {
    if chain != [] {
      ChainParts(DropLast(chain));
    }
  }

  lemma {:induction false} ChainOfMember(events: seq<Event>, ctx: ContextId, e: Event)
    ensures e in ChainOf(events, ctx) <==> e in events && e.ctx == ctx
  {
    if events != [] {
      ChainOfMember(DropLast(events), ctx, e);
      assert events == DropLast(events) + [Last(events)];
    }
  }

  /** Dropping contexts empties their chains and leaves the others whole. */
  lemma {:induction false} ChainOfWithout(events: seq<Event>, gone: set<ContextId>, ctx: ContextId)
    ensures ChainOf(Without(events, gone), ctx) == if ctx in gone then [] else ChainOf(events, ctx)
  {
    if events != [] {
      ChainOfWithout(DropLast(events), gone, ctx);
      if Last(events).ctx !in gone {
        ChainOfSnoc(Without(DropLast(events), gone), Last(events), ctx);
      }
    }
  }
}
