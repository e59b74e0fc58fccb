/** Self-verifying evidence bundles (ml-core: evidence). */
module Evidence {
  import opened Prelude
  import opened Domain
  import opened Lifecycle
  import opened Scopes
  import opened Events

  const EVIDENCE_VERSION: int := 1

  datatype EvidenceBundle = EvidenceBundle(
    version: int, ctx: ContextId, generatedAt: Time, events: seq<Event>)

  datatype EvidenceError =
    | UnsupportedVersion(version: int)
    | Empty
    | WrongContext(seqNo: nat)
    | SequenceNotIncreasing(seqNo: nat)
    | BrokenChain(seqNo: nat)
    | HashMismatch(seqNo: nat)

  /** What is wrong with `e` as the event after a chain ending in `prev` and `lastSeq`. */
  function LinkFault(ctx: ContextId, prev: Hash, lastSeq: nat, e: Event): Option<EvidenceError> {
    if e.ctx != ctx then Some(WrongContext(e.seqNo))
    else if e.seqNo <= lastSeq then Some(SequenceNotIncreasing(e.seqNo))
    else if e.prevHash != prev then Some(BrokenChain(e.seqNo))
    else if !HashValid(e) then Some(HashMismatch(e.seqNo))
    else None
  }

  function Tip(events: seq<Event>): Hash {
    if events == [] then Anchor else Last(events).hash
  }

  function TipSeq(events: seq<Event>): nat {
    if events == [] then 0 else Last(events).seqNo
  }

  /** Every event continues the chain before it. */
  predicate Linked(ctx: ContextId, events: seq<Event>) {
    forall i :: 0 <= i < |events| ==>
      LinkFault(ctx, Tip(events[..i]), TipSeq(events[..i]), events[i]).None?
  }

  /** Event by event: of this context, numbered upwards from 1 or more, each naming the hash
      of the one before it, the first naming the anchor, and each hashed over its own fields. */
  predicate Intact(ctx: ContextId, events: seq<Event>) {
    forall i :: 0 <= i < |events| ==>
      && events[i].ctx == ctx
      && events[i].seqNo > (if i == 0 then 0 else events[i - 1].seqNo)
      && events[i].prevHash == (if i == 0 then Anchor else events[i - 1].hash)
      && events[i].hash == Chain(events[i].prevHash, events[i].seqNo, ctx, events[i].at, events[i].body)
  }

  lemma LinkedExactly(ctx: ContextId, events: seq<Event>)
    ensures Linked(ctx, events) <==> Intact(ctx, events)
  {
    forall i | 0 <= i < |events|
      ensures Tip(events[..i]) == if i == 0 then Anchor else events[i - 1].hash
      ensures TipSeq(events[..i]) == if i == 0 then 0 else events[i - 1].seqNo
    {
    }
  }

  /** What `error` says of event `i`, the events before it being in order; of several things
      wrong with an event the first in this list is named. */
  predicate Breaks(ctx: ContextId, events: seq<Event>, i: nat, error: EvidenceError)
    requires i < |events|
  {
    var e := events[i];
    var own := e.ctx == ctx;
    var later := e.seqNo > if i == 0 then 0 else events[i - 1].seqNo;
    var joined := e.prevHash == if i == 0 then Anchor else events[i - 1].hash;
    match error
    case WrongContext(n) => n == e.seqNo && !own
    case SequenceNotIncreasing(n) => n == e.seqNo && own && !later
    case BrokenChain(n) => n == e.seqNo && own && later && !joined
    case HashMismatch(n) =>
      n == e.seqNo && own && later && joined && e.hash != Chain(e.prevHash, e.seqNo, ctx, e.at, e.body)
    case _ => false
  }

  lemma FaultExactly(ctx: ContextId, events: seq<Event>, i: nat, error: EvidenceError)
    requires i < |events|
    ensures LinkFault(ctx, Tip(events[..i]), TipSeq(events[..i]), events[i]) == Some(error) <==>
            Breaks(ctx, events, i, error)
  {
  }

  /** `EvidenceBundle::verify`: accepts exactly the intact chains, and otherwise names the
      first event that breaks one. */
  method Verify(b: EvidenceBundle) returns (r: Result<(), EvidenceError>)
    ensures r.Ok? <==> b.version == 1 && b.events != [] && Intact(b.ctx, b.events)
    ensures r.Err? && b.version != EVIDENCE_VERSION ==> r.error == UnsupportedVersion(b.version)
    ensures r.Err? && b.version == EVIDENCE_VERSION && b.events == [] ==> r.error == Empty
    ensures r.Err? && b.version == EVIDENCE_VERSION && b.events != [] ==>
              exists i :: 0 <= i < |b.events| && Intact(b.ctx, b.events[..i]) && Breaks(b.ctx, b.events, i, r.error)
  {
    hide Breaks, Intact, LinkFault;
    if b.version != EVIDENCE_VERSION {
      return Err(UnsupportedVersion(b.version));
    }
    if b.events == [] {
      return Err(Empty);
    }
    LinkedExactly(b.ctx, b.events);
    var prev := Anchor;
    var lastSeq := 0;
    for i := 0 to |b.events|
      invariant prev == Tip(b.events[..i]) && lastSeq == TipSeq(b.events[..i])
      invariant forall k :: 0 <= k < i ==>
        LinkFault(b.ctx, Tip(b.events[..k]), TipSeq(b.events[..k]), b.events[k]).None?
    {
      var e := b.events[i];
      var fault := LinkFault(b.ctx, prev, lastSeq, e);
      if fault.Some? {
        LinkedPrefix(b.ctx, b.events, i);
        LinkedExactly(b.ctx, b.events[..i]);
        FaultExactly(b.ctx, b.events, i, fault.value);
        return Err(fault.value);
      }
      prev := e.hash;
      lastSeq := e.seqNo;
    }
    return Ok(());
  }

  lemma LinkedPrefix(ctx: ContextId, events: seq<Event>, n: nat)
    requires n <= |events|
    requires forall k :: 0 <= k < n ==>
      LinkFault(ctx, Tip(events[..k]), TipSeq(events[..k]), events[k]).None?
    ensures Linked(ctx, events[..n])
  {
    forall i | 0 <= i < n
      ensures LinkFault(ctx, Tip(events[..n][..i]), TipSeq(events[..n][..i]), events[..n][i]).None?
    {
      assert events[..n][..i] == events[..i];
    }
  }

  lemma LinkedSnoc(ctx: ContextId, events: seq<Event>, e: Event)
    requires Linked(ctx, events)
    requires LinkFault(ctx, Tip(events), TipSeq(events), e).None?
    ensures Linked(ctx, events + [e])
  {
    var all := events + [e];
    forall i | 0 <= i < |all|
      ensures LinkFault(ctx, Tip(all[..i]), TipSeq(all[..i]), all[i]).None?
    {
      assert all[..i] == events[..i];
      assert events[..|events|] == events;
    }
  }

  /** `EvidenceBundle::final_state`. */
  function FinalState(events: seq<Event>): Option<PaymentState> {
    if events == [] then None
    else if ResultingState(Last(events).body).Some? then ResultingState(Last(events).body)
    else FinalState(DropLast(events))
  }

  /** The last state the chain moved to. */
  lemma {:induction false} FinalStateIsLast(events: seq<Event>)
    ensures FinalState(events) == if States(events) == [] then None else Some(Last(States(events)))
  {
    if events != [] {
      FinalStateIsLast(DropLast(events));
    }
  }

  /** The mandate of the first `Authorized` event. */
  function AuthorizedMandate(events: seq<Event>): Option<Mandate> {
    if events == [] then None
    else if events[0].body.Authorized? then Some(events[0].body.mandate)
    else AuthorizedMandate(events[1..])
  }

  lemma {:induction false} AuthorizedMandateSnoc(events: seq<Event>, e: Event)
    ensures AuthorizedMandate(events + [e]) ==
            if AuthorizedMandate(events).Some? then AuthorizedMandate(events)
            else if e.body.Authorized? then Some(e.body.mandate)
            else None
    decreases |events|
  {
    if events == [] {
      assert [e][1..] == [];
      assert events + [e] == [e];
    } else {
      assert (events + [e])[1..] == events[1..] + [e];
      AuthorizedMandateSnoc(events[1..], e);
    }
  }

  lemma LastLink(ctx: ContextId, events: seq<Event>)
    requires Linked(ctx, events) && events != []
    ensures Linked(ctx, DropLast(events))
    ensures HashValid(Last(events)) && Last(events).prevHash == Tip(DropLast(events))
  {
    var n := |events| - 1;
    assert LinkFault(ctx, Tip(events[..n]), TipSeq(events[..n]), events[n]).None?;
    LinkedPrefix(ctx, events, n);
  }

  /** One hash pins a whole history: verified chains that end in the same hash are
      the same chain, so nothing was inserted, removed or altered in either. */
  lemma {:induction false} HashPinsHistory(c: ContextId, d: ContextId, a: seq<Event>, b: seq<Event>)
    requires Linked(c, a) && Linked(d, b)
    requires Tip(a) == Tip(b)
    ensures a == b
    decreases |a|
  {
    if a != [] {
      LastLink(c, a);
    }
    if b != [] {
      LastLink(d, b);
    }
    if a != [] && b != [] {
      HashPinsHistory(c, d, DropLast(a), DropLast(b));
      assert a == DropLast(a) + [Last(a)] && b == DropLast(b) + [Last(b)];
    }
  }
}
