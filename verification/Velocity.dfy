/** Rate limits: the sliding-window bound over whole runs, prunes included. */
module VelocityRuns {
  import opened Prelude
  import opened Domain
  import opened Scopes
  import opened Events
  import opened Bookkeeping
  import opened StoreRuns
  import opened StoreClaims

  /** How many of `times` lie in the closed window of `secs` seconds from `lo` on. */
  function CountIn(times: seq<Time>, lo: int, secs: int): nat {
    if times == [] then 0
    else CountIn(DropLast(times), lo, secs) + if lo <= Last(times) <= lo + secs then 1 else 0
  }

  lemma CountSinceSnoc(times: seq<Time>, t: Time, since: Time)
    ensures CountSince(times + [t], since) == CountSince(times, since) + if t >= since then 1 else 0
  {
    SnocParts(times, t);
  }

  lemma CountInSnoc(times: seq<Time>, t: Time, lo: int, secs: int)
    ensures CountIn(times + [t], lo, secs) == CountIn(times, lo, secs) + if lo <= t <= lo + secs then 1 else 0
  {
    SnocParts(times, t);
  }

  /** Dropping what is older than the cutoff does not change a count from the cutoff on. */
  lemma {:induction false} KeepCounts(times: seq<Time>, cutoff: Time, since: Time)
    ensures CountSince(KeepSince(times, cutoff), since) == CountSince(times, Max(since, cutoff))
  {
    if times != [] {
      KeepCounts(DropLast(times), cutoff, since);
      if Last(times) >= cutoff {
        CountSinceSnoc(KeepSince(DropLast(times), cutoff), Last(times), since);
      }
    }
  }

  lemma {:induction false} CountSinceMonotone(times: seq<Time>, a: Time, b: Time)
    requires a <= b
    ensures CountSince(times, b) <= CountSince(times, a)
  {
    if times != [] {
      CountSinceMonotone(DropLast(times), a, b);
    }
  }

  /** A window that ends at or after `at` and is no longer than `secs` is counted in full. */
  lemma {:induction false} WindowCounted(times: seq<Time>, at: Time, secs: Time, lo: int)
    requires lo <= at <= lo + secs
    ensures CountIn(times, lo, secs) <= CountSince(times, SatSub(at, secs))
  {
    if times != [] {
      WindowCounted(DropLast(times), at, secs, lo);
    }
  }

  lemma SatSubMonotone(a: Time, b: Time, long: Time, short: Time)
    requires a <= b && short <= long
    ensures SatSub(a, long) <= SatSub(b, short)
  {
  }

  // ----- the sliding-window bound -----

  /** No window of `v`'s length holds more than `v.maxCount` of `times`. */
  ghost predicate RateHolds(times: seq<Time>, v: Velocity) {
    forall lo: int :: CountIn(times, lo, v.windowSecs) <= v.maxCount
  }

  lemma RateSnoc(times: seq<Time>, v: Velocity, at: Time)
    requires RateHolds(times, v)
    requires CountSince(times, SatSub(at, v.windowSecs)) < v.maxCount
    ensures RateHolds(times + [at], v)
  {
    forall lo: int
      ensures CountIn(times + [at], lo, v.windowSecs) <= v.maxCount
    {
      CountInSnoc(times, at, lo, v.windowSecs);
      if lo <= at <= lo + v.windowSecs {
        WindowCounted(times, at, v.windowSecs, lo);
      }
    }
  }

  predicate Authorizes(op: Op, m: MandateId) {
    op.DoAppend? && op.body.Authorized? && op.body.mandate.body.id == m
  }

  predicate CarriesVelocity(op: Op, m: MandateId, v: Velocity) {
    Authorizes(op, m) ==> op.body.mandate.body.scope.velocity == Some(v)
  }

  /** The latest moment pruned so far. */
  function Horizon(ops: seq<Op>): Time {
    if ops == [] then I64_MIN
    else if Last(ops).DoPrune? then Max(Horizon(DropLast(ops)), Last(ops).before)
    else Horizon(DropLast(ops))
  }

  /** Authorizations under `m` are not dated before a moment already pruned. */
  predicate Punctual(ops: seq<Op>, m: MandateId) {
    forall i :: 0 <= i < |ops| && Authorizes(ops[i], m) ==> ops[i].at >= Horizon(ops[..i])
  }

  /** The store still counts what the history counts, back to the pruned moment's window. */
  ghost predicate Remembers(w: World, m: MandateId, v: Velocity, horizon: Time) {
    && (forall since: Time :: since >= SatSub(horizon, v.windowSecs) ==>
          CountSince(TimesOf(w.store.books, m), since) == CountSince(TimesUnder(w.history, m), since))
    && (TimesOf(w.store.books, m) != [] ==> WindowOf(w.store.books, m) == v.windowSecs)
  }

  lemma PruneRemembers(w: World, m: MandateId, v: Velocity, horizon: Time, before: Time)
    requires Remembers(w, m, v, horizon) && v.windowSecs >= 0
    ensures Remembers(Step(w, DoPrune(before)), m, v, Max(horizon, before))
  {
    hide Without, Gone, CountSince, KeepSince, TimesUnder;
    var b := w.store.books;
    var times := TimesOf(b, m);
    var cutoff := SatSub(before, WindowOf(b, m));
    var left := TimesOf(Step(w, DoPrune(before)).store.books, m);
    NoneKept(cutoff);
    assert left == KeepSince(times, cutoff);
    SatSubMonotone(horizon, Max(horizon, before), v.windowSecs, v.windowSecs);
    SatSubMonotone(before, Max(horizon, before), v.windowSecs, v.windowSecs);
    forall since: Time | since >= SatSub(Max(horizon, before), v.windowSecs)
      ensures CountSince(left, since) == CountSince(times, since)
    {
      if times != [] {
        KeepCounts(times, cutoff, since);
      }
    }
  }

  lemma NoneKept(cutoff: Time)
    ensures KeepSince([], cutoff) == []
  {
  }

  lemma AuthorizedRemembers(w: World, w2: World, e: Event, m: MandateId, v: Velocity, horizon: Time)
    requires Remembers(w, m, v, horizon) && v.windowSecs >= 0
    requires VelocityMoves(w.store.books, w2.store.books, e.at, e.body)
    requires w2.history == w.history + [e]
    requires Under(e, m) ==> e.body.mandate.body.scope.velocity == Some(v)
    requires TimesOf(w.store.books, m) == [] ==> WindowOf(w.store.books, m) in {0, v.windowSecs}
    ensures Remembers(w2, m, v, horizon)
  {
    TimesUnderSnoc(w.history, e, m);
    if Under(e, m) {
      forall since: Time | since >= SatSub(horizon, v.windowSecs)
        ensures CountSince(TimesOf(w2.store.books, m), since) == CountSince(TimesUnder(w2.history, m), since)
      {
        CountSinceSnoc(TimesOf(w.store.books, m), e.at, since);
        CountSinceSnoc(TimesUnder(w.history, m), e.at, since);
      }
    }
  }

  /** What the run keeps, for one mandate presented with one velocity throughout. */
  ghost predicate RateInvariant(w: World, m: MandateId, v: Velocity, horizon: Time) {
    && Remembers(w, m, v, horizon)
    && WindowOf(w.store.books, m) in {0, v.windowSecs}
    && RateHolds(TimesUnder(w.history, m), v)
  }

  lemma AdmittedWithinRate(b: Books, m: MandateId, v: Velocity, at: Time)
    requires VelocityRefusal(b, m, Some(v), at).None?
    ensures CountSince(TimesOf(b, m), SatSub(at, v.windowSecs)) < v.maxCount
  {
  }

  lemma StepRate(w: World, op: Op, m: MandateId, v: Velocity, horizon: Time)
    requires RateInvariant(w, m, v, horizon) && CarriesVelocity(op, m, v) && v.windowSecs >= 0
    requires Authorizes(op, m) ==> op.at >= horizon
    ensures RateInvariant(Step(w, op), m, v, if op.DoPrune? then Max(horizon, op.before) else horizon)
  {
    hide RateHolds, Append, Prune, Remembers, CountSince, TimesUnder;
    match op
    case DoPrune(before) =>
      PruneRemembers(w, m, v, horizon, before);
      PruneKeepsWindows(w.store, before);
    case DoRevoke(_) => RevokeRemembers(w, op.mandate, m, v, horizon);
    case DoAppend(ctx, at, body) =>
      AppendEffect(w.store, ctx, at, body);
      var (s, r) := Append(w.store, ctx, at, body);
      if IsAppended(r) {
        AppendRate(w, Step(w, op), r.value.event, m, v, horizon);
      } else {
        assert w.history + [] == w.history;
      }
  }

  lemma PruneKeepsWindows(s: Store, before: Time)
    ensures Prune(s, before).books.windows == s.books.windows
  {
  }

  lemma RevokeRemembers(w: World, gone: MandateId, m: MandateId, v: Velocity, horizon: Time)
    requires Remembers(w, m, v, horizon)
    ensures Remembers(Step(w, DoRevoke(gone)), m, v, horizon)
  {
  }

  lemma AppendRate(w: World, w2: World, e: Event, m: MandateId, v: Velocity, horizon: Time)
    requires RateInvariant(w, m, v, horizon) && v.windowSecs >= 0
    requires Applied(w.store.books, w2.store.books, e.ctx, e.at, e.body)
    requires w2.history == w.history + [e]
    requires Under(e, m) ==> e.body.mandate.body.scope.velocity == Some(v) && e.at >= horizon
    ensures RateInvariant(w2, m, v, horizon)
  {
    hide Refunded, NoncesMove, RecordsAfter, LegalStep, RateHolds, CountSince, TimesUnder;
    AuthorizedRemembers(w, w2, e, m, v, horizon);
    TimesUnderSnoc(w.history, e, m);
    if Under(e, m) {
      AdmittedWithinRate(w.store.books, m, v, e.at);
      SatSubMonotone(horizon, e.at, v.windowSecs, v.windowSecs);
      RateSnoc(TimesUnder(w.history, m), v, e.at);
    }
  }

  lemma StartRate(m: MandateId, v: Velocity)
    ensures RateInvariant(START, m, v, I64_MIN)
  {
  }

  lemma {:induction false} RunRate(ops: seq<Op>, m: MandateId, v: Velocity)
    requires forall i :: 0 <= i < |ops| ==> CarriesVelocity(ops[i], m, v)
    requires Punctual(ops, m) && v.windowSecs >= 0
    ensures RateInvariant(Run(START, ops), m, v, Horizon(ops))
  {
    hide Step, CarriesVelocity, RateInvariant;
    if ops == [] {
      StartRate(m, v);
    } else {
      var front := DropLast(ops);
      forall i | 0 <= i < |front|
        ensures ops[..i] == front[..i]
      {
      }
      assert Last(ops) == ops[|ops| - 1] && ops[..|ops| - 1] == front;
      RunRate(front, m, v);
      StepRate(Run(START, front), Last(ops), m, v, Horizon(front));
    }
  }

  lemma {:induction false} EmptyWindow(times: seq<Time>, lo: int, secs: int)
    requires secs < 0
    ensures CountIn(times, lo, secs) == 0
  {
    if times != [] {
      EmptyWindow(DropLast(times), lo, secs);
    }
  }

  /** The rate limit, over a whole run: if every authorization under a mandate carries the
      same velocity, no window of that length, wherever it starts, ever holds more than the
      limit. The clock may run backwards, and prunes may happen at any point. */
  lemma RateLimit(ops: seq<Op>, m: MandateId, v: Velocity)
    requires forall i :: 0 <= i < |ops| ==> CarriesVelocity(ops[i], m, v)
    requires Punctual(ops, m)
    ensures RateHolds(TimesUnder(Run(START, ops).history, m), v)
  {
    hide Run, TimesUnder, CountIn, CarriesVelocity, Punctual;
    if v.windowSecs >= 0 {
      RunRate(ops, m, v);
    } else {
      forall lo: int
        ensures CountIn(TimesUnder(Run(START, ops).history, m), lo, v.windowSecs) <= v.maxCount
      {
        EmptyWindow(TimesUnder(Run(START, ops).history, m), lo, v.windowSecs);
      }
    }
  }
}
