/** Exactly what a prune of the in-memory store forgets, and what it must keep. */
module PruneEffects {
  import opened Prelude
  import opened Domain
  import opened Scopes
  import opened Events
  import opened Evidence
  import opened Bookkeeping
  import opened StoreRuns
  import opened VelocityRuns

  // ----- one prune -----

  /** Nothing more can happen to the context: it has no record, or a final one. */
  predicate Over(b: Books, c: ContextId) {
    c in b.records ==>
      b.records[c].state.Delivered? || b.records[c].state.Compensated? || b.records[c].state.Expired?
  }

  /** The context is over, and its last event is dated before `before`. */
  predicate Quiet(s: Store, before: Time, c: ContextId) {
    Over(s.books, c) && ChainOf(s.events, c) != [] && Last(ChainOf(s.events, c)).at < before
  }

  lemma GoneExactly(s: Store, before: Time, c: ContextId)
    ensures c in Gone(s, before) <==> Quiet(s, before, c)
  {
    if ChainOf(s.events, c) != [] {
      ChainOfMember(s.events, c, Last(ChainOf(s.events, c)));
    }
  }

  /** A context's chain is dropped whole if the context is over and its last event is dated
      before the moment pruned, and is kept whole otherwise. */
  lemma PruneExactly(s: Store, before: Time, c: ContextId)
    ensures ChainOf(Prune(s, before).events, c) == if Quiet(s, before, c) then [] else ChainOf(s.events, c)
  {
    hide Gone, Quiet, ChainOf, PruneTimes;
    GoneExactly(s, before, c);
    ChainOfWithout(s.events, Gone(s, before), c);
  }

  /** Event by event: what stays in the log. */
  lemma EventStays(s: Store, before: Time, e: Event)
    ensures e in Prune(s, before).events <==> e in s.events && !Quiet(s, before, e.ctx)
  {
    hide Quiet, Prune, ChainOf;
    PruneExactly(s, before, e.ctx);
    ChainOfMember(s.events, e.ctx, e);
    ChainOfMember(Prune(s, before).events, e.ctx, e);
  }

  lemma {:induction false} TimesKept(times: seq<Time>, cutoff: Time, t: Time)
    ensures multiset(KeepSince(times, cutoff))[t] == if t >= cutoff then multiset(times)[t] else 0
  {
    if times != [] {
      var front := DropLast(times);
      TimesKept(front, cutoff, t);
      assert times == front + [Last(times)];
    }
  }

  /** A mandate's authorization times are forgotten if they lie further before the moment
      pruned than the longest window the mandate was ever used with, and kept otherwise. No
      other table changes. */
  lemma PruneKeepsTables(s: Store, before: Time, m: MandateId, t: Time)
    ensures var b, b2 := s.books, Prune(s, before).books;
            && multiset(TimesOf(b2, m))[t]
                 == (if t >= SatSub(before, WindowOf(b, m)) then multiset(TimesOf(b, m))[t] else 0)
            && b2.records == b.records && b2.reserved == b.reserved && b2.nonces == b.nonces
            && b2.windows == b.windows && b2.revoked == b.revoked && Prune(s, before).lastSeq == s.lastSeq
  {
    hide KeepSince, Without;
    var cutoff := SatSub(before, WindowOf(s.books, m));
    TimesKept(TimesOf(s.books, m), cutoff, t);
    NoneKept(cutoff);
    assert TimesOf(Prune(s, before).books, m) == KeepSince(TimesOf(s.books, m), cutoff);
  }

  // ----- recent events -----

  /** Every event dated at or after `before` survives a prune of it, exactly when the last
      event of every context that is over and has such an event is itself so dated. */
  lemma RecentKeptExactly(s: Store, before: Time)
    ensures (forall e :: e in s.events && e.at >= before ==> e in Prune(s, before).events) <==>
            (forall e :: e in s.events && e.at >= before && Over(s.books, e.ctx) ==>
               ChainOf(s.events, e.ctx) != [] && Last(ChainOf(s.events, e.ctx)).at >= before)
  {
    hide Prune, ChainOf, Over;
    forall e
      ensures e in Prune(s, before).events <==> e in s.events && !Quiet(s, before, e.ctx)
    {
      EventStays(s, before, e);
    }
    forall e | e in s.events
      ensures ChainOf(s.events, e.ctx) != []
    {
      ChainOfMember(s.events, e.ctx, e);
    }
  }

  function DenialOf(c: ContextId, at: Time, reason: DenyReason): Op {
    DoAppend(c, at, EventBody.Denied(Stage.Authorize, reason))
  }

  /** With a clock that ran back they need not all survive: a refusal dated `late`, followed
      by one dated `early`, is dropped by a prune of a moment between them. */
  lemma RecentDropped(c: ContextId, late: Time, early: Time, before: Time, reason: DenyReason)
    requires early < before <= late
    ensures var w := Run(START, [DenialOf(c, late, reason), DenialOf(c, early, reason)]);
            && |w.store.events| == 2 && w.store.events[0].at == late
            && w.store.events[0] !in Prune(w.store, before).events
  {
    hide Step, Run, Prune, ChainOf;
    var one, two := DenialOf(c, late, reason), DenialOf(c, early, reason);
    RunTwo(one, two);
    var w1 := Step(START, one);
    var w2 := Step(w1, two);
    NoneOf(c);
    Noted(START, c, late, reason);
    Noted(w1, c, early, reason);
    NothingRecorded(START, c, late, reason);
    NothingRecorded(w1, c, early, reason);
    assert Quiet(w2.store, before, c);
    EventStays(w2.store, before, w2.store.events[0]);
  }

  lemma RunTwo(one: Op, two: Op)
    ensures Run(START, [one, two]) == Step(Step(START, one), two)
  {
    hide Step;
    assert DropLast([one, two]) == [one] && DropLast([one]) == [];
    assert Run(START, [one]) == Step(START, one);
  }

  lemma NoneOf(c: ContextId)
    ensures ChainOf(START.store.events, c) == []
  {
  }

  /** A refusal that is noted is the last event of the log and of its context. */
  lemma Noted(w: World, c: ContextId, at: Time, reason: DenyReason)
    requires |ChainOf(w.store.events, c)| < DENIAL_CAP
    ensures var s, s2 := w.store, Step(w, DenialOf(c, at, reason)).store;
            && |s2.events| == |s.events| + 1 && s.events <= s2.events && Last(s2.events).at == at
            && Last(s2.events).ctx == c
            && ChainOf(s2.events, c) == ChainOf(s.events, c) + [Last(s2.events)]
  {
    hide ChainOf, Denials;
    ChainParts(ChainOf(w.store.events, c));
    ChainOfSnoc(w.store.events, NextEvent(w.store, c, at, EventBody.Denied(Stage.Authorize, reason)), c);
  }

  lemma NothingRecorded(w: World, c: ContextId, at: Time, reason: DenyReason)
    ensures Step(w, DenialOf(c, at, reason)).store.books == w.store.books
  {
    hide ChainOf, Denials;
  }

  // ----- recent events, through any run -----

  /** The context's events are dated in the order they were written. */
  predicate InOrder(chain: seq<Event>) {
    forall i, j :: 0 <= i < j < |chain| ==> chain[i].at <= chain[j].at
  }

  lemma LastIsLatest(w: World, c: ContextId, e: Event)
    requires ContextOk(w, c) && InOrder(ChainOf(w.history, c))
    requires e in ChainOf(w.history, c) && ChainOf(w.store.events, c) != []
    ensures e.at <= Last(ChainOf(w.store.events, c)).at
  {
    hide LifeOk, Linked, ChainOf, Kept, Denials;
    var chain, full := ChainOf(w.store.events, c), ChainOf(w.history, c);
    assert Last(chain) == Last(full);
    var i :| 0 <= i < |full| && full[i] == e;
  }

  ghost predicate RecentKept(w: World, c: ContextId, horizon: Time) {
    forall e :: e in ChainOf(w.history, c) && e.at >= horizon ==> e in ChainOf(w.store.events, c)
  }

  lemma PruneKeepsRecent(w: World, c: ContextId, horizon: Time, before: Time)
    requires ContextOk(w, c) && InOrder(ChainOf(w.history, c)) && RecentKept(w, c, horizon)
    ensures RecentKept(Step(w, DoPrune(before)), c, Max(horizon, before))
  {
    hide ContextOk, InOrder, ChainOf, Prune;
    PruneExactly(w.store, before, c);
    forall e | e in ChainOf(w.history, c) && e.at >= Max(horizon, before)
      ensures e in ChainOf(Prune(w.store, before).events, c)
    {
      LastIsLatest(w, c, e);
    }
  }

  lemma AppendKeepsRecent(w: World, ctx: ContextId, at: Time, body: EventBody, c: ContextId, horizon: Time)
    requires RecentKept(w, c, horizon)
    ensures RecentKept(AppendWorld(w, ctx, at, body), c, horizon)
  {
    hide Append, ChainOf, Applied;
    AppendEffect(w.store, ctx, at, body);
    var (s, r) := Append(w.store, ctx, at, body);
    if IsAppended(r) {
      ChainOfSnoc(w.history, r.value.event, c);
      ChainOfSnoc(w.store.events, r.value.event, c);
    } else {
      assert w.history + [] == w.history;
    }
  }

  lemma HistoryGrows(w: World, op: Op, c: ContextId)
    ensures ChainOf(w.history, c) <= ChainOf(Step(w, op).history, c)
  {
    hide Append, ChainOf, Prune;
    if op.DoAppend? {
      var r := Append(w.store, op.ctx, op.at, op.body).1;
      if IsAppended(r) {
        ChainOfSnoc(w.history, r.value.event, c);
      } else {
        assert w.history + [] == w.history;
      }
    }
  }

  lemma PrefixInOrder(a: seq<Event>, b: seq<Event>)
    requires a <= b && InOrder(b)
    ensures InOrder(a)
  {
  }

  /** Over any run: if a context's events are dated in order, each one dated at or after the
      latest moment pruned is still in the log. */
  lemma {:induction false} RunKeepsRecent(ops: seq<Op>, c: ContextId)
    requires InOrder(ChainOf(Run(START, ops).history, c))
    ensures RecentKept(Run(START, ops), c, Horizon(ops))
  {
    hide InOrder, ChainOf, Append, Prune, ContextOk;
    if ops == [] {
      assert Run(START, ops).history == Run(START, ops).store.events;
    } else {
      var front, op := DropLast(ops), Last(ops);
      var w := Run(START, front);
      HistoryGrows(w, op, c);
      PrefixInOrder(ChainOf(w.history, c), ChainOf(Run(START, ops).history, c));
      RunKeepsRecent(front, c);
      match op
      case DoAppend(ctx, at, body) => AppendKeepsRecent(w, ctx, at, body, c, Horizon(front));
      case DoPrune(before) =>
        RunContexts(front);
        assert ContextOk(w, c);
        PruneKeepsRecent(w, c, Horizon(front), before);
      case DoRevoke(_) =>
    }
  }

  // ----- order -----

  predicate Ascending(events: seq<Event>, lastSeq: nat) {
    && (forall i, j :: 0 <= i < j < |events| ==> events[i].seqNo < events[j].seqNo)
    && (forall i :: 0 <= i < |events| ==> 0 < events[i].seqNo <= lastSeq)
  }

  lemma {:induction false} WithoutAscends(events: seq<Event>, gone: set<ContextId>, lastSeq: nat)
    requires Ascending(events, lastSeq)
    ensures Ascending(Without(events, gone), lastSeq)
    ensures events != [] ==> forall e :: e in Without(events, gone) ==> e.seqNo <= Last(events).seqNo
  {
    if events != [] {
      WithoutAscends(DropLast(events), gone, lastSeq);
    }
  }

  /** In every run, prunes included, the log's numbers strictly ascend, up to the last drawn. */
  lemma {:induction false} LogAscends(ops: seq<Op>)
    ensures Ascending(Run(START, ops).store.events, Run(START, ops).store.lastSeq)
  {
    hide Append, Gone, PruneTimes, Without, Applied;
    if ops != [] {
      var front, op := DropLast(ops), Last(ops);
      var w := Run(START, front);
      LogAscends(front);
      match op
      case DoAppend(ctx, at, body) => AppendEffect(w.store, ctx, at, body);
      case DoPrune(before) => WithoutAscends(w.store.events, Gone(w.store, before), w.store.lastSeq);
      case DoRevoke(_) =>
    }
  }
}
