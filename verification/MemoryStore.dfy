/** The in-memory store as the mutable object it is (ml-core: store). Its methods
    update the maps, the log and the per-context index in place; each is proved to
    do what the corresponding function of `Bookkeeping` says. */
module MemoryStores {
  import opened Prelude
  import opened Domain
  import opened Lifecycle
  import opened Scopes
  import opened Events
  import opened Evidence
  import opened B = Bookkeeping

  /** Where a context's events are in the log, in order. */
  function Positions(events: seq<Event>, ctx: ContextId): seq<nat> {
    if events == [] then []
    else if Last(events).ctx == ctx then Positions(DropLast(events), ctx) + [|events| - 1]
    else Positions(DropLast(events), ctx)
  }

  /** The index lists, for exactly the contexts in the log, exactly their positions. */
  ghost predicate Indexed(events: seq<Event>, byCtx: map<ContextId, seq<nat>>) {
    && byCtx.Keys == Contexts(events)
    && forall c :: c in byCtx ==> byCtx[c] == Positions(events, c)
  }

  function Pick(events: seq<Event>, positions: seq<nat>): seq<Event>
    requires forall k :: 0 <= k < |positions| ==> positions[k] < |events|
  {
    seq(|positions|, k requires 0 <= k < |positions| => events[positions[k]])
  }

  lemma {:induction false} PositionsInRange(events: seq<Event>, ctx: ContextId)
    ensures forall k :: 0 <= k < |Positions(events, ctx)| ==>
              Positions(events, ctx)[k] < |events| && events[Positions(events, ctx)[k]].ctx == ctx
    ensures Positions(events, ctx) == [] <==> ctx !in Contexts(events)
  {
    if events != [] {
      PositionsInRange(DropLast(events), ctx);
      assert events == DropLast(events) + [Last(events)];
    }
  }

  /** Reading through the index is filtering the log. */
  lemma {:induction false} PickPositions(events: seq<Event>, ctx: ContextId)
    ensures forall k :: 0 <= k < |Positions(events, ctx)| ==> Positions(events, ctx)[k] < |events|
    ensures Pick(events, Positions(events, ctx)) == ChainOf(events, ctx)
  {
    PositionsInRange(events, ctx);
    if events != [] {
      PickPositions(DropLast(events), ctx);
      PositionsInRange(DropLast(events), ctx);
    }
  }

  lemma PositionsSnoc(events: seq<Event>, e: Event, ctx: ContextId)
    ensures Positions(events + [e], ctx) ==
            if e.ctx == ctx then Positions(events, ctx) + [|events|] else Positions(events, ctx)
  {
    SnocParts(events, e);
  }

  lemma ContextsSnoc(events: seq<Event>, e: Event)
    ensures Contexts(events + [e]) == Contexts(events) + {e.ctx}
  {
    var all := events + [e];
    assert forall x :: x in all <==> x in events || x == e;
    assert e in all && forall x :: x in events ==> x in all;
  }

  /** The index after `e` is pushed at the end of the log. */
  function Reindex(events: seq<Event>, byCtx: map<ContextId, seq<nat>>, ctx: ContextId): map<ContextId, seq<nat>> {
    byCtx[ctx := (if ctx in byCtx then byCtx[ctx] else []) + [|events|]]
  }

  lemma IndexedSnoc(events: seq<Event>, byCtx: map<ContextId, seq<nat>>, e: Event)
    requires Indexed(events, byCtx)
    ensures Indexed(events + [e], Reindex(events, byCtx, e.ctx))
  {
    ContextsSnoc(events, e);
    PositionsInRange(events, e.ctx);
    forall c | c in Reindex(events, byCtx, e.ctx)
      ensures Reindex(events, byCtx, e.ctx)[c] == Positions(events + [e], c)
    {
      PositionsSnoc(events, e, c);
    }
  }

  class MemoryStore {
    var records: map<ContextId, Record>
    var events: seq<Event>
    var byCtx: map<ContextId, seq<nat>>
    var lastSeq: nat
    var reserved: map<MandateId, Money>
    var authTimes: map<MandateId, seq<Time>>
    var windows: map<MandateId, Time>
    var nonces: map<(string, string), ContextId>
    var revoked: set<MandateId>
    /** Every event ever appended, whatever has been pruned since. */
    ghost var history: seq<Event>

    ghost predicate Valid()
      reads this
    {
      Indexed(events, byCtx)
    }

    function View(): B.Store
      reads this
    {
      B.Store(Books(records, reserved, authTimes, windows, nonces, revoked), events, lastSeq)
    }

    constructor ()
      ensures Valid() && View() == EMPTY && history == []
    {
      records, events, byCtx, lastSeq := map[], [], map[], 0;
      reserved, authTimes, windows, nonces, revoked := map[], map[], map[], map[], {};
      history := [];
    }

    method RecordOf(ctx: ContextId) returns (r: Option<Record>)
      ensures r == Get(View().books.records, ctx)
    {
      r := Get(records, ctx);
    }

    /** `Store::events`, through the index. */
    method EventsOf(ctx: ContextId) returns (chain: seq<Event>)
      requires Valid()
      ensures chain == ChainOf(events, ctx)
    {
      PickPositions(events, ctx);
      PositionsInRange(events, ctx);
      var idx := if ctx in byCtx then byCtx[ctx] else [];
      chain := [];
      for k := 0 to |idx|
        invariant chain == Pick(events, idx[..k])
      {
        chain := chain + [events[idx[k]]];
      }
      assert idx[..|idx|] == idx;
    }

    /** `Store::authorized_mandate`, through the index. */
    method AuthorizedMandateOf(ctx: ContextId) returns (m: Option<Mandate>)
      requires Valid()
      ensures m == AuthorizedMandate(ChainOf(events, ctx))
    {
      PickPositions(events, ctx);
      PositionsInRange(events, ctx);
      var idx := if ctx in byCtx then byCtx[ctx] else [];
      ghost var chain := ChainOf(events, ctx);
      for k := 0 to |idx|
        invariant AuthorizedMandate(chain) == AuthorizedMandate(chain[k..])
      {
        assert chain[k] == events[idx[k]];
        match events[idx[k]].body {
          case Authorized(mandate, _, _) => return Some(mandate);
          case _ =>
        }
        assert chain[k..][1..] == chain[k + 1..];
      }
      return None;
    }

    /** How many refusals the context's chain holds, counted through the index. */
    method CountDenials(ctx: ContextId) returns (n: nat)
      requires Valid()
      ensures n == Denials(ChainOf(events, ctx))
    {
      PickPositions(events, ctx);
      PositionsInRange(events, ctx);
      var idx := if ctx in byCtx then byCtx[ctx] else [];
      ghost var chain := ChainOf(events, ctx);
      n := 0;
      for k := 0 to |idx|
        invariant n == Denials(chain[..k])
      {
        assert chain[k] == events[idx[k]];
        assert chain[..k + 1] == chain[..k] + [chain[k]];
        DenialsSnoc(chain[..k], chain[k]);
        if events[idx[k]].body.Denied? {
          n := n + 1;
        }
      }
      assert chain[..|idx|] == chain;
    }

    /** The hash the context's next event continues, found through the index. */
    method PreviousHash(ctx: ContextId) returns (h: Hash)
      requires Valid()
      ensures h == Tip(ChainOf(events, ctx))
    {
      PickPositions(events, ctx);
      PositionsInRange(events, ctx);
      if ctx in byCtx && byCtx[ctx] != [] {
        h := events[Last(byCtx[ctx])].hash;
      } else {
        h := Anchor;
      }
    }

    method Revoke(mandate: MandateId)
      requires Valid()
      modifies this
      ensures Valid() && View() == B.Revoke(old(View()), mandate) && history == old(history)
    {
      revoked := revoked + {mandate};
    }

    /** `Store::append`: phase 1 decides and changes nothing, phase 2 commits. */
    method Append(ctx: ContextId, at: Time, body: EventBody) returns (r: Result<AppendOutcome, StoreError>)
      requires Valid()
      modifies this
      ensures Valid()
      ensures (View(), r) == B.Append(old(View()), ctx, at, body)
      ensures history == old(history) + if r.Ok? && r.value.Appended? then [r.value.event] else []
    {
      hide Decide, B.Fund, B.Note, ChainOf, Denials;
      var denials := CountDenials(ctx);
      var decided := Phase1(ctx, at, body, denials);
      if decided.Err? {
        return Err(decided.error);
      }
      DecisionShape(View().books, denials, ctx, at, body);
      if decided.value.Refuse? {
        return Ok(decided.value.outcome);
      }
      var fx := decided.value.fx;
      var prev := PreviousHash(ctx);
      var failed := Fund(at, fx);
      if failed.Some? {
        return Err(failed.value);
      }
      Note(ctx, body, fx);
      var e := NewEvent(prev, lastSeq + 1, ctx, at, body);
      Push(e);
      return Ok(Appended(e));
    }

    method Push(e: Event)
      requires Valid()
      modifies this`lastSeq, this`events, this`byCtx, this`history
      ensures Valid() && events == old(events) + [e] && lastSeq == old(lastSeq) + 1 && history == old(history) + [e]
    {
      IndexedSnoc(events, byCtx, e);
      lastSeq := lastSeq + 1;
      byCtx := Reindex(events, byCtx, e.ctx);
      events := events + [e];
      history := history + [e];
    }

    function Transition(ctx: ContextId, to: PaymentState): (r: Option<StoreError>)
      reads this
      ensures r == CheckTransition(View().books, ctx, to)
    {
      if ctx !in records then
        if to.Authorized? then None else Some(IllegalTransition(ctx, None, to))
      else if CanTransition(records[ctx].state, to) then None
      else Some(IllegalTransition(ctx, Some(records[ctx].state), to))
    }

    method Phase1(ctx: ContextId, at: Time, body: EventBody, denials: nat) returns (r: Result<Decision, StoreError>)
      ensures r == Decide(View().books, denials, ctx, at, body)
    {
      var fx := NOTHING;
      match body {
        case Authorized(mandate, cart, _) =>
          r := AuthorizePhase(ctx, at, mandate, cart);
          return;
        case Paid(rail, _, nonce, _, _) =>
          var illegal := Transition(ctx, PaymentState.Paid);
          if illegal.Some? { return Err(illegal.value); }
          var key := (rail, nonce);
          if key in nonces && nonces[key] != ctx {
            return Ok(Refuse(AppendOutcome.NonceAlreadyUsed));
          }
          fx := fx.(consume := Some(key));
        case Settled(_, _) =>
          var illegal := Transition(ctx, PaymentState.Settled);
          if illegal.Some? { return Err(illegal.value); }
        case SettlementFailed(_, _) =>
          var illegal := Transition(ctx, PaymentState.SettlementFailed);
          if illegal.Some? { return Err(illegal.value); }
          if ctx !in records { return Err(Corrupt(NoRecord)); }
          fx := fx.(release := Some((records[ctx].mandateId, records[ctx].amount)));
        case Compensated(_) =>
          var illegal := Transition(ctx, PaymentState.Compensated);
          if illegal.Some? { return Err(illegal.value); }
        case Delivered(_) =>
          var illegal := Transition(ctx, PaymentState.Delivered);
          if illegal.Some? { return Err(illegal.value); }
        case Expired =>
          var illegal := Transition(ctx, PaymentState.Expired);
          if illegal.Some? { return Err(illegal.value); }
          if ctx !in records { return Err(Corrupt(NoRecord)); }
          fx := fx.(release := Some((records[ctx].mandateId, records[ctx].amount)));
        case Denied(_, _) =>
          if denials >= DENIAL_CAP {
            return Ok(Refuse(DenialsCapped));
          }
      }
      return Ok(Proceed(fx));
    }

    method AuthorizePhase(ctx: ContextId, at: Time, mandate: Mandate, cart: Cart)
      returns (r: Result<Decision, StoreError>)
      ensures r == DecideAuthorized(View().books, ctx, at, mandate, cart)
    {
      var illegal := Transition(ctx, PaymentState.Authorized);
      if illegal.Some? { return Err(illegal.value); }
      var scope := mandate.body.scope;
      var id := mandate.body.id;
      if id in revoked {
        return Ok(Refuse(AppendOutcome.MandateRevoked));
      }
      if scope.velocity.Some? {
        var v := scope.velocity.value;
        var times := if id in authTimes then authTimes[id] else [];
        var count := ToCount32(CountSince(times, SatSub(at, v.windowSecs)));
        if count >= v.maxCount {
          return Ok(Refuse(AppendOutcome.VelocityExceeded(count)));
        }
      }
      var amount := cart.claims.total;
      var current := if id in reserved then reserved[id] else Zero(amount.currency);
      var next := CheckedAdd(current, amount);
      if next.Err? { return Err(BadMoney(next.error)); }
      if scope.maxTotal.Some? {
        var over := Exceeds(next.value, scope.maxTotal.value);
        if over.Err? { return Err(BadMoney(over.error)); }
        if over.value {
          var remaining := CheckedSub(scope.maxTotal.value, current);
          if remaining.Err? { return Err(BadMoney(remaining.error)); }
          return Ok(Refuse(BudgetExceeded(remaining.value)));
        }
      }
      var window := if scope.velocity.None? then None else Some(scope.velocity.value.windowSecs);
      return Ok(Proceed(Effects(Some((id, next.value)), window, None, None, Some(NewRecord(ctx, mandate, cart)))));
    }

    /** The money side of phase 2. A release never comes with a reservation, so a
        failed release has changed nothing. */
    method Fund(at: Time, fx: Effects) returns (failed: Option<StoreError>)
      requires fx.release.Some? ==> fx.reserve.None?
      modifies this`windows, this`reserved, this`authTimes
      ensures match B.Fund(old(View()).books, at, fx)
              case Err(e) => failed == Some(e) && View() == old(View())
              case Ok(books) => failed == None && View().books == books
    {
      if fx.reserve.Some? {
        var (m, next) := fx.reserve.value;
        if fx.window.Some? {
          var longest := if m in windows then windows[m] else 0;
          windows := windows[m := Max(longest, fx.window.value)];
        }
        reserved := reserved[m := next];
        authTimes := authTimes[m := (if m in authTimes then authTimes[m] else []) + [at]];
      }
      if fx.release.Some? {
        var (m, amount) := fx.release.value;
        if m !in reserved { return Some(Corrupt(NoReservation)); }
        var next := CheckedSub(reserved[m], amount);
        if next.Err? { return Some(BadMoney(next.error)); }
        if next.value.amount < 0 { return Some(Corrupt(NegativeRelease)); }
        reserved := reserved[m := next.value];
      }
      return None;
    }

    /** The rest of phase 2. */
    method Note(ctx: ContextId, body: EventBody, fx: Effects)
      modifies this`nonces, this`records
      ensures View().books == B.Note(old(View()).books, ctx, body, fx)
    {
      if fx.consume.Some? {
        nonces := nonces[fx.consume.value := ctx];
      }
      if fx.create.Some? {
        records := records[ctx := fx.create.value];
      }
      if ctx in records {
        records := records[ctx := Advance(records[ctx], body)];
      }
    }

    /** `Store::events_after`. */
    method EventsAfter(after: nat, limit: nat) returns (page: seq<Event>)
      ensures page == FirstOf(After(events, after), limit)
    {
      page := Tail(events, after, limit);
    }

    /** `MemoryStore::prune`. */
    method Prune(before: Time)
      requires Valid()
      modifies this
      ensures Valid() && View() == B.Prune(old(View()), before) && history == old(history)
    {
      hide PruneTimes, Without;
      authTimes := ForgetTimes(authTimes, windows, before);
      var gone := FindGone(before);
      assert gone == Gone(View(), before) == Gone(old(View()), before);
      if gone == {} {
        NothingGone(events);
        return;
      }
      events := RetainEvents(events, gone);
      byCtx := BuildIndex(events);
    }

    method IsFinished(c: ContextId, before: Time) returns (over: bool)
      requires Valid()
      ensures over == Finished(View(), before, c)
    {
      PickPositions(events, c);
      PositionsInRange(events, c);
      var settled := c !in records || IsTerminal(records[c].state);
      over := settled && c in byCtx && byCtx[c] != [] && events[Last(byCtx[c])].at < before;
    }

    method FindGone(before: Time) returns (gone: set<ContextId>)
      requires Valid()
      ensures gone == Gone(View(), before)
    {
      gone := {};
      var todo := byCtx.Keys;
      while todo != {}
        invariant todo <= byCtx.Keys
        invariant gone == set c | c in Contexts(events) && c !in todo && Finished(View(), before, c)
        decreases |todo|
      {
        var c :| c in todo;
        var over := IsFinished(c, before);
        if over {
          gone := gone + {c};
        }
        todo := todo - {c};
      }
    }
  }

  /** Phase 1 never asks to reserve and to release at once, and a refusal is a refusal. */
  lemma DecisionShape(b: Books, denials: nat, ctx: ContextId, at: Time, body: EventBody)
    ensures var d := Decide(b, denials, ctx, at, body);
            && (d.Ok? && d.value.Proceed? && d.value.fx.release.Some? ==> d.value.fx.reserve.None?)
            && (d.Ok? && d.value.Refuse? ==> !d.value.outcome.Appended?)
  {
  }

  method RetainEvents(events: seq<Event>, gone: set<ContextId>) returns (kept: seq<Event>)
    ensures kept == Without(events, gone)
  {
    kept := [];
    for i := 0 to |events|
      invariant kept == Without(events[..i], gone)
    {
      assert events[..i + 1] == events[..i] + [events[i]];
      SnocParts(events[..i], events[i]);
      if events[i].ctx !in gone {
        kept := kept + [events[i]];
      }
    }
    assert events[..|events|] == events;
  }

  /** The index rebuilt from the log. */
  method BuildIndex(events: seq<Event>) returns (byCtx: map<ContextId, seq<nat>>)
    ensures Indexed(events, byCtx)
  {
    byCtx := map[];
    for i := 0 to |events|
      invariant Indexed(events[..i], byCtx)
    {
      IndexedSnoc(events[..i], byCtx, events[i]);
      assert events[..i + 1] == events[..i] + [events[i]];
      byCtx := Reindex(events[..i], byCtx, events[i].ctx);
    }
    assert events[..|events|] == events;
  }

  /** Forget authorization times too old for any window the mandate was presented with. */
  method ForgetTimes(times: map<MandateId, seq<Time>>, windows: map<MandateId, Time>, before: Time)
    returns (left: map<MandateId, seq<Time>>)
    ensures left == PruneTimes(times, windows, before)
  {
    hide KeepSince, SatSub, PruneTimes;
    left := map[];
    var todo := times.Keys;
    ForgetNone(times, windows, before);
    while todo != {}
      invariant todo <= times.Keys
      invariant left == PruneTimes(times - todo, windows, before)
      decreases |todo|
    {
      var m :| m in todo;
      var window := if m in windows then windows[m] else 0;
      var kept := Retain(times[m], SatSub(before, window));
      ForgetOne(times, windows, before, todo, m);
      if kept != [] {
        left := left[m := kept];
      }
      todo := todo - {m};
    }
    assert times - {} == times;
  }

  lemma ForgetNone(times: map<MandateId, seq<Time>>, windows: map<MandateId, Time>, before: Time)
    ensures PruneTimes(times - times.Keys, windows, before) == map[]
  {
  }

  lemma ForgetOne(
    times: map<MandateId, seq<Time>>, windows: map<MandateId, Time>, before: Time, todo: set<MandateId>, m: MandateId)
    requires m in todo && m in times
    ensures var kept := KeepSince(times[m], Cutoff(windows, m, before));
            var left := PruneTimes(times - todo, windows, before);
            PruneTimes(times - (todo - {m}), windows, before) == if kept == [] then left else left[m := kept]
  {
    hide KeepSince, Cutoff;
  }

  method Retain(times: seq<Time>, cutoff: Time) returns (kept: seq<Time>)
    ensures kept == KeepSince(times, cutoff)
  {
    kept := [];
    for i := 0 to |times|
      invariant kept == KeepSince(times[..i], cutoff)
    {
      assert times[..i + 1] == times[..i] + [times[i]];
      SnocParts(times[..i], times[i]);
      if times[i] >= cutoff {
        kept := kept + [times[i]];
      }
    }
    assert times[..|times|] == times;
  }

  function FirstOf<T>(s: seq<T>, limit: nat): seq<T> {
    if limit <= |s| then s[..limit] else s
  }

  lemma AfterStops(events: seq<Event>, i: nat, after: nat, limit: nat)
    requires i <= |events|
    requires |After(events[..i], after)| == limit || (i == |events| && |After(events[..i], after)| <= limit)
    ensures After(events[..i], after) == FirstOf(After(events, after), limit)
  {
    hide After;
    AfterPrefix(events, i, after);
    assert i == |events| ==> events[..i] == events;
  }

  /** The scan behind `events_after`. */
  method Tail(events: seq<Event>, after: nat, limit: nat) returns (page: seq<Event>)
    ensures page == FirstOf(After(events, after), limit)
  {
    page := [];
    var i := 0;
    assert After(events[..0], after) == [];
    hide After;
    while i < |events| && |page| < limit
      invariant 0 <= i <= |events| && |page| <= limit
      invariant page == After(events[..i], after)
    {
      AfterSnoc(events[..i], events[i], after);
      assert events[..i] + [events[i]] == events[..i + 1];
      if events[i].seqNo > after {
        page := page + [events[i]];
      }
      i := i + 1;
    }
    AfterStops(events, i, after, limit);
  }

  /** The events numbered after `after`, in log order. */
  function After(events: seq<Event>, after: nat): seq<Event> {
    if events == [] then []
    else if Last(events).seqNo > after then After(DropLast(events), after) + [Last(events)]
    else After(DropLast(events), after)
  }

  lemma AfterSnoc(events: seq<Event>, e: Event, after: nat)
    ensures After(events + [e], after) ==
            if e.seqNo > after then After(events, after) + [e] else After(events, after)
  {
    SnocParts(events, e);
  }

  lemma {:induction false} AfterPrefix(events: seq<Event>, i: nat, after: nat)
    requires i <= |events|
    ensures After(events[..i], after) <= After(events, after)
  {
    if i < |events| {
      AfterPrefix(DropLast(events), i, after);
      assert DropLast(events)[..i] == events[..i];
    } else {
      assert events[..i] == events;
    }
  }

  lemma {:induction false} NothingGone(events: seq<Event>)
    ensures Without(events, {}) == events
  {
    if events != [] {
      NothingGone(DropLast(events));
    }
  }
}
