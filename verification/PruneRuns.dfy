/** A run with prunes against the same run without them. */
module PruneRuns {
  import opened Prelude
  import opened Domain
  import opened Events
  import opened Bookkeeping
  import opened StoreRuns
  import opened VelocityRuns

  /** The same operations, never pruning. */
  function Erase(ops: seq<Op>): seq<Op> {
    if ops == [] then []
    else if Last(ops).DoPrune? then Erase(DropLast(ops))
    else Erase(DropLast(ops)) + [Last(ops)]
  }

  /** A prune of `before` forgets some authorization under `m`. */
  predicate Forgets(b: Books, m: MandateId, before: Time) {
    KeepSince(TimesOf(b, m), Cutoff(b.windows, m, before)) != TimesOf(b, m)
  }

  /** From when on a mandate's authorization times have all been kept. Only a prune that
      forgets one of them raises it. */
  function Floor(ops: seq<Op>, m: MandateId): Time {
    if ops == [] then I64_MIN
    else
      var b := Run(START, DropLast(ops)).store.books;
      if Last(ops).DoPrune? && Forgets(b, m, Last(ops).before) then
        Max(Floor(DropLast(ops), m), Cutoff(b.windows, m, Last(ops).before))
      else Floor(DropLast(ops), m)
  }

  /** The window `op` looks back over starts no earlier than the floor. */
  predicate InReach(ops: seq<Op>, op: Op) {
    Limited(op) ==>
      SatSub(op.at, op.body.mandate.body.scope.velocity.value.windowSecs) >= Floor(ops, op.body.mandate.body.id)
  }

  predicate AllInReach(ops: seq<Op>) {
    forall i :: 0 <= i < |ops| ==> InReach(ops[..i], ops[i])
  }

  /** Equal books, up to authorization times. */
  predicate SameBut(p: Books, u: Books) {
    p.(authTimes := u.authTimes) == u
  }

  ghost predicate CountAlike(p: Books, u: Books, m: MandateId, floor: Time) {
    forall since: Time :: since >= floor ==> CountSince(TimesOf(p, m), since) == CountSince(TimesOf(u, m), since)
  }

  ghost predicate Agree(p: Books, u: Books, ops: seq<Op>) {
    SameBut(p, u) && forall m :: CountAlike(p, u, m, Floor(ops, m))
  }

  /** The same answer: equal refusals and errors, or both appended with the same content. */
  predicate SameAnswer(a: Result<AppendOutcome, StoreError>, b: Result<AppendOutcome, StoreError>) {
    if IsAppended(a) then
      IsAppended(b) && a.value.event.ctx == b.value.event.ctx && a.value.event.at == b.value.event.at
      && a.value.event.body == b.value.event.body
    else a == b
  }

  /** The parts of the books every decision but the velocity check is made from. */
  predicate SameCore(p: Books, u: Books) {
    p.records == u.records && p.reserved == u.reserved && p.nonces == u.nonces && p.revoked == u.revoked
  }

  lemma DecideAlike(p: Books, u: Books, d1: nat, d2: nat, ctx: ContextId, at: Time, body: EventBody)
    requires SameCore(p, u) && !body.Denied?
    requires body.Authorized? ==>
      VelocityRefusal(p, body.mandate.body.id, body.mandate.body.scope.velocity, at)
        == VelocityRefusal(u, body.mandate.body.id, body.mandate.body.scope.velocity, at)
    ensures Decide(p, d1, ctx, at, body) == Decide(u, d2, ctx, at, body)
  {
    hide VelocityRefusal, CheckedAdd, CheckedSub, Exceeds;
  }

  lemma FundAlike(p: Books, u: Books, at: Time, fx: Effects)
    requires SameBut(p, u)
    ensures var c, d := Fund(p, at, fx), Fund(u, at, fx);
            if c.Ok? then d.Ok? && SameBut(c.value, d.value) else c == d
  {
    hide CheckedSub;
    assert p.records == u.records && p.reserved == u.reserved && p.nonces == u.nonces
        && p.revoked == u.revoked && p.windows == u.windows;
  }

  lemma NoteAlike(p: Books, u: Books, ctx: ContextId, body: EventBody, fx: Effects)
    requires SameBut(p, u)
    ensures SameBut(Note(p, ctx, body, fx), Note(u, ctx, body, fx))
  {
    hide AdvanceRecords;
    assert p.records == u.records && p.nonces == u.nonces;
  }

  lemma CommitAlike(p: Books, u: Books, ctx: ContextId, at: Time, body: EventBody, fx: Effects)
    requires SameBut(p, u)
    ensures var c, d := Commit(p, ctx, at, body, fx), Commit(u, ctx, at, body, fx);
            if c.Ok? then d.Ok? && SameBut(c.value, d.value) else c == d
  {
    hide Fund, Note, SameBut;
    FundAlike(p, u, at, fx);
    if Fund(p, at, fx).Ok? {
      NoteAlike(Fund(p, at, fx).value, Fund(u, at, fx).value, ctx, body, fx);
    }
  }

  lemma AnswerAlike(p: Store, u: Store, ctx: ContextId, at: Time, body: EventBody)
    requires SameBut(p.books, u.books) && !body.Denied?
    requires body.Authorized? ==>
      VelocityRefusal(p.books, body.mandate.body.id, body.mandate.body.scope.velocity, at)
        == VelocityRefusal(u.books, body.mandate.body.id, body.mandate.body.scope.velocity, at)
    ensures var (p2, a), (u2, b) := Append(p, ctx, at, body), Append(u, ctx, at, body);
            SameAnswer(a, b) && SameBut(p2.books, u2.books)
  {
    hide Decide, Commit, VelocityRefusal;
    assert SameCore(p.books, u.books);
    var d1, d2 := Denials(ChainOf(p.events, ctx)), Denials(ChainOf(u.events, ctx));
    DecideAlike(p.books, u.books, d1, d2, ctx, at, body);
    var d := Decide(p.books, d1, ctx, at, body);
    if d.Ok? && d.value.Proceed? {
      CommitAlike(p.books, u.books, ctx, at, body, d.value.fx);
    }
  }

  lemma RefusalAlike(p: Books, u: Books, ops: seq<Op>, op: Op)
    requires Agree(p, u, ops) && InReach(ops, op) && op.DoAppend? && op.body.Authorized?
    ensures VelocityRefusal(p, op.body.mandate.body.id, op.body.mandate.body.scope.velocity, op.at)
              == VelocityRefusal(u, op.body.mandate.body.id, op.body.mandate.body.scope.velocity, op.at)
  {
    hide Floor, CountSince, SameBut;
    assert CountAlike(p, u, op.body.mandate.body.id, Floor(ops, op.body.mandate.body.id));
  }

  lemma TimesAlike(p: Books, u: Books, p2: Books, u2: Books, at: Time, body: EventBody, m: MandateId, floor: Time)
    requires CountAlike(p, u, m, floor)
    requires VelocityMoves(p, p2, at, body) && VelocityMoves(u, u2, at, body)
    ensures CountAlike(p2, u2, m, floor)
  {
    hide VelocityRefusal;
    if body.Authorized? && body.mandate.body.id == m {
      forall since: Time | since >= floor
        ensures CountSince(TimesOf(p2, m), since) == CountSince(TimesOf(u2, m), since)
      {
        CountSinceSnoc(TimesOf(p, m), at, since);
        CountSinceSnoc(TimesOf(u, m), at, since);
      }
    } else {
      assert TimesOf(p2, m) == TimesOf(p, m) && TimesOf(u2, m) == TimesOf(u, m);
    }
  }

  lemma DeniedKeepsBooks(s: Store, ctx: ContextId, at: Time, body: EventBody)
    requires body.Denied?
    ensures Append(s, ctx, at, body).0.books == s.books
  {
    hide Append;
    AppendEffect(s, ctx, at, body);
  }

  /** One append after agreeing runs: same answer, and the runs still agree. */
  lemma AppendAgrees(p: World, u: World, ops: seq<Op>, op: Op)
    requires Agree(p.store.books, u.store.books, ops) && InReach(ops, op) && op.DoAppend?
    ensures Agree(Step(p, op).store.books, Step(u, op).store.books, ops)
    ensures !op.body.Denied? ==> SameAnswer(Append(p.store, op.ctx, op.at, op.body).1,
                                            Append(u.store, op.ctx, op.at, op.body).1)
  {
    hide Append, InReach, Floor, SameBut, CountAlike, VelocityRefusal, LegalStep, Refunded, NoncesMove, RecordsAfter,
      VelocityMoves;
    var DoAppend(ctx, at, body) := op;
    if body.Denied? {
      DeniedKeepsBooks(p.store, ctx, at, body);
      DeniedKeepsBooks(u.store, ctx, at, body);
    } else {
      if body.Authorized? {
        RefusalAlike(p.store.books, u.store.books, ops, op);
      }
      AnswerAlike(p.store, u.store, ctx, at, body);
      AppendEffect(p.store, ctx, at, body);
      AppendEffect(u.store, ctx, at, body);
      if IsAppended(Append(p.store, ctx, at, body).1) {
        forall m
          ensures CountAlike(Step(p, op).store.books, Step(u, op).store.books, m, Floor(ops, m))
        {
          TimesAlike(p.store.books, u.store.books, Step(p, op).store.books, Step(u, op).store.books,
                     at, body, m, Floor(ops, m));
        }
      }
    }
  }

  lemma PruneAgrees(p: World, u: Books, ops: seq<Op>, before: Time)
    requires Agree(p.store.books, u, ops) && p == Run(START, ops)
    ensures Agree(Step(p, DoPrune(before)).store.books, u, ops + [DoPrune(before)])
  {
    hide Run, Without, Gone, CountSince, KeepSince;
    SnocParts(ops, DoPrune(before));
    var b, b2 := p.store.books, Step(p, DoPrune(before)).store.books;
    forall m
      ensures CountAlike(b2, u, m, Floor(ops + [DoPrune(before)], m))
    {
      assert CountAlike(b, u, m, Floor(ops, m));
      var cutoff := Cutoff(b.windows, m, before);
      NoneKept(cutoff);
      assert TimesOf(b2, m) == KeepSince(TimesOf(b, m), cutoff);
      forall since: Time | since >= Floor(ops + [DoPrune(before)], m)
        ensures CountSince(TimesOf(b2, m), since) == CountSince(TimesOf(u, m), since)
      {
        KeepCounts(TimesOf(b, m), cutoff, since);
      }
    }
  }

  lemma FloorSnoc(ops: seq<Op>, op: Op, p: Books, u: Books)
    requires Agree(p, u, ops) && !op.DoPrune?
    ensures Agree(p, u, ops + [op])
  {
    hide SameBut, CountAlike, Run;
    SnocParts(ops, op);
    forall m
      ensures CountAlike(p, u, m, Floor(ops + [op], m))
    {
      assert CountAlike(p, u, m, Floor(ops, m));
    }
  }

  lemma RunSnoc(w: World, ops: seq<Op>, op: Op)
    ensures Run(w, ops + [op]) == Step(Run(w, ops), op)
  {
    SnocParts(ops, op);
  }

  lemma RevokeAgrees(p: World, u: World, ops: seq<Op>, m: MandateId)
    requires Agree(p.store.books, u.store.books, ops)
    ensures Agree(Step(p, DoRevoke(m)).store.books, Step(u, DoRevoke(m)).store.books, ops)
  {
    hide Floor, CountSince;
    forall n
      ensures CountAlike(Step(p, DoRevoke(m)).store.books, Step(u, DoRevoke(m)).store.books, n, Floor(ops, n))
    {
      assert CountAlike(p.store.books, u.store.books, n, Floor(ops, n));
      assert TimesOf(Step(p, DoRevoke(m)).store.books, n) == TimesOf(p.store.books, n);
      assert TimesOf(Step(u, DoRevoke(m)).store.books, n) == TimesOf(u.store.books, n);
    }
  }

  /** Pruned and unpruned runs keep the same records, reservations, nonces, windows and
      revocations, as long as no authorization looks back past what was kept. */
  lemma {:induction false} PrunedRunAgrees(ops: seq<Op>)
    requires AllInReach(ops)
    ensures Agree(Run(START, ops).store.books, Run(START, Erase(ops)).store.books, ops)
  {
    hide Step, Agree, InReach;
    if ops == [] {
      StartAgrees();
    } else {
      var front, op := DropLast(ops), Last(ops);
      forall i | 0 <= i < |front|
        ensures ops[..i] == front[..i]
      {
      }
      assert ops[..|front|] == front && ops == front + [op];
      PrunedRunAgrees(front);
      var p, u := Run(START, front), Run(START, Erase(front));
      match op
      case DoPrune(before) => PruneAgrees(p, u.store.books, front, before);
      case DoRevoke(m) =>
        RevokeAgrees(p, u, front, m);
        RunSnoc(START, Erase(front), op);
        FloorSnoc(front, op, Step(p, op).store.books, Step(u, op).store.books);
      case DoAppend(_, _, _) =>
        assert InReach(front, op);
        AppendAgrees(p, u, front, op);
        RunSnoc(START, Erase(front), op);
        FloorSnoc(front, op, Step(p, op).store.books, Step(u, op).store.books);
    }
  }

  lemma StartAgrees()
    ensures Agree(START.store.books, START.store.books, [])
  {
  }

  // ----- as the documentation puts it -----

  /** A later authorization at `at`, under `m`, with window `secs`, is plain for a prune of
      `before`: the moment pruned had passed, and the window is no longer than `m` had been
      presented with. A mandate with no authorization on record asks for nothing. */
  predicate PlainAfter(b: Books, before: Time, at: Time, m: MandateId, secs: Time) {
    TimesOf(b, m) != [] ==> at >= before && secs <= WindowOf(b, m)
  }

  predicate PlainUse(ops: seq<Op>) {
    forall i, j :: 0 <= i < j < |ops| && ops[i].DoPrune? && Limited(ops[j]) ==>
      PlainAfter(Run(START, ops[..i]).store.books, ops[i].before, ops[j].at, ops[j].body.mandate.body.id,
                 ops[j].body.mandate.body.scope.velocity.value.windowSecs)
  }

  /** An authorization under a velocity limit. */
  predicate Limited(op: Op) {
    op.DoAppend? && op.body.Authorized? && op.body.mandate.body.scope.velocity.Some?
  }

  predicate PlainFor(ops: seq<Op>, at: Time, m: MandateId, secs: Time) {
    forall i :: 0 <= i < |ops| && ops[i].DoPrune? ==>
      PlainAfter(Run(START, ops[..i]).store.books, ops[i].before, at, m, secs)
  }

  lemma {:induction false} PlainFloor(ops: seq<Op>, at: Time, m: MandateId, secs: Time)
    requires PlainFor(ops, at, m, secs)
    ensures SatSub(at, secs) >= Floor(ops, m)
  {
    hide Run;
    if ops != [] {
      var front := DropLast(ops);
      forall i | 0 <= i < |front|
        ensures ops[..i] == front[..i]
      {
      }
      assert ops[..|front|] == front;
      PlainFloor(front, at, m, secs);
      if Last(ops).DoPrune? && TimesOf(Run(START, front).store.books, m) != [] {
        SatSubMonotone(Last(ops).before, at, WindowOf(Run(START, front).store.books, m), secs);
      }
    }
  }

  lemma PlainInReach(ops: seq<Op>)
    requires PlainUse(ops)
    ensures AllInReach(ops)
  {
    hide Run, Floor, SatSub, PlainAfter;
    forall j | 0 <= j < |ops|
      ensures InReach(ops[..j], ops[j])
    {
      var op := ops[j];
      if Limited(op) {
        var secs := op.body.mandate.body.scope.velocity.value.windowSecs;
        assert forall i :: 0 <= i < j ==> ops[..j][i] == ops[i] && ops[..j][..i] == ops[..i];
        PlainFloor(ops[..j], op.at, op.body.mandate.body.id, secs);
      }
    }
  }

  /** Pruning is invisible: under the documented use, each append is answered as it would
      have been had nothing ever been pruned, and leaves the same books. */
  lemma PruneInvisible(ops: seq<Op>, ctx: ContextId, at: Time, body: EventBody)
    requires PlainUse(ops + [DoAppend(ctx, at, body)])
    ensures var p, u := Run(START, ops).store, Run(START, Erase(ops)).store;
            && SameBut(p.books, u.books)
            && (!body.Denied? ==> SameAnswer(Append(p, ctx, at, body).1, Append(u, ctx, at, body).1))
            && SameBut(Append(p, ctx, at, body).0.books, Append(u, ctx, at, body).0.books)
  {
    hide Run, Append, SameBut, SameAnswer, PlainUse, InReach, Floor, CountAlike;
    var op := DoAppend(ctx, at, body);
    var all := ops + [op];
    PlainInReach(all);
    assert all[..|ops|] == ops && all[|ops|] == op;
    forall i | 0 <= i < |ops|
      ensures InReach(ops[..i], ops[i])
    {
      assert InReach(all[..i], all[i]);
      assert all[..i] == ops[..i];
    }
    PrunedRunAgrees(ops);
    assert InReach(ops, op);
    AppendAgrees(Run(START, ops), Run(START, Erase(ops)), ops, op);
  }

  /** Exactly when one prune changes the answer to recording a refusal: when it drops a chain
      that already held its fill of them. */
  lemma RefusalAfterPrune(s: Store, before: Time, ctx: ContextId, at: Time, body: EventBody)
    requires body.Denied?
    ensures !SameAnswer(Append(s, ctx, at, body).1, Append(Prune(s, before), ctx, at, body).1) <==>
            Finished(s, before, ctx) && Denials(ChainOf(s.events, ctx)) >= DENIAL_CAP
  {
    hide ChainOf, PruneTimes, Finished;
    ChainOfWithout(s.events, Gone(s, before), ctx);
    GoneIs(s, before, ctx);
    NoRefusals();
  }

  lemma GoneIs(s: Store, before: Time, c: ContextId)
    ensures c in Gone(s, before) <==> Finished(s, before, c)
  {
    hide ChainOf;
    if Finished(s, before, c) {
      ChainOfMember(s.events, c, Last(ChainOf(s.events, c)));
    }
  }

  lemma NoRefusals()
    ensures Denials([]) == 0
  {
  }

  /** Exactly when one prune changes one velocity count: when some forgotten time falls in
      the window counted. A caller can tell beforehand from the window's start. */
  lemma CountAfterPrune(times: seq<Time>, cutoff: Time, since: Time)
    ensures CountSince(KeepSince(times, cutoff), since) == CountSince(times, since)
            <==> CountIn(times, since, cutoff - 1 - since) == 0
  {
    KeepCounts(times, cutoff, since);
    SplitCount(times, cutoff, since);
  }

  lemma {:induction false} SplitCount(times: seq<Time>, cutoff: Time, since: Time)
    ensures CountSince(times, since) ==
            CountSince(times, Max(since, cutoff)) + CountIn(times, since, cutoff - 1 - since)
  {
    if times != [] {
      SplitCount(DropLast(times), cutoff, since);
    }
  }
}
